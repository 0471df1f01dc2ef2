/** The `EBookCard` component: the entitlement gate that locks premium books for non-premium
    readers, the link that gate chooses, and the description clamp with its Read More toggle. */
module EBookCard {
  import opened Wrappers

  /** Descriptions longer than this many characters are clamped until expanded. */
  const MaxDescriptionLength := 150

  const PremiumHref := "/premium"
  const ReadHrefPrefix := "/ebooks/"
  const CollectionQuery := "?collection="
  const UpgradeLabel := "Upgrade to Read"
  const ReadLabel := "Read Online"
  const ReadMoreLabel := "Read More"
  const ReadLessLabel := "Read Less"

  type Level = n: int | n == 100 || n == 200 witness 100

  /** The e-book record the card receives. */
  datatype EBook = EBook(
    id: string,
    title: string,
    description: string,
    author: string,
    level: Level,
    isPremium: bool,
    coverImage: string,
    imageHint: string,
    filePath: string)

  datatype Link = Link(href: string, text: string)

  /** What the card shows that depends on its inputs: the Premium badge, whether the description
      is clamped to four lines, the label of the Read More/Less control if there is one, and the
      footer link. */
  datatype CardView = CardView(showPremiumBadge: bool, clampDescription: bool, toggleLabel: Option<string>, link: Link)

  predicate IsLongDescription(ebook: EBook) {
    |ebook.description| > MaxDescriptionLength
  }

  /** A premium book is locked for a reader who is not premium. */
  predicate IsLocked(ebook: EBook, isUserPremium: bool) {
    ebook.isPremium && !isUserPremium
  }

  /** The reader's link: `/ebooks/{id}?collection={collection}`, interpolated without encoding. */
  function ReadHref(id: string, collection: string): string {
    ReadHrefPrefix + id + CollectionQuery + collection
  }

  /** The first position of `c` in `s`, if any. */
  function IndexOf(s: string, c: char): (r: Option<nat>)
    ensures r.Some? ==> r.value < |s| && s[r.value] == c && c !in s[..r.value]
    ensures r.None? ==> c !in s
  {
    if s == [] then None
    else if s[0] == c then Some(0)
    else match IndexOf(s[1..], c)
      case None => None
      case Some(k) =>
        assert s[..k + 1] == [s[0]] + s[1..][..k];
        Some(k + 1)
  }

  /** Reads the book id and collection back out of a read link: the id runs up to the first `?`,
      which must open the `collection` query. Its round trip with `ReadHref` states that the link
      string determines the book and collection (an injectivity fact); it is not how the reader
      page reads the link, which decodes the path parameter and the query and stops the query
      value at `&` or `#`. */
  function ParseReadHref(href: string): Option<(string, string)> {
    if |href| < |ReadHrefPrefix| || href[..|ReadHrefPrefix|] != ReadHrefPrefix then None
    else
      var rest := href[|ReadHrefPrefix|..];
      match IndexOf(rest, '?')
      case None => None
      case Some(k) =>
        var query := rest[k..];
        if |query| < |CollectionQuery| || query[..|CollectionQuery|] != CollectionQuery then None
        else Some((rest[..k], query[|CollectionQuery|..]))
  }

  /** The footer link: an upgrade link when locked, the reader otherwise. */
  function CardLink(ebook: EBook, collection: string, isUserPremium: bool): Link {
    if IsLocked(ebook, isUserPremium) then Link(PremiumHref, UpgradeLabel)
    else Link(ReadHref(ebook.id, collection), ReadLabel)
  }

  /** The card for `ebook` in `collection`, for a reader whose premium status is `isUserPremium`,
      with the description expanded or not. */
  function Render(ebook: EBook, collection: string, isUserPremium: bool, isExpanded: bool): CardView {
    var long := IsLongDescription(ebook);
    CardView(
      ebook.isPremium,
      long && !isExpanded,
      if long then Some(if isExpanded then ReadLessLabel else ReadMoreLabel) else None,
      CardLink(ebook, collection, isUserPremium))
  }

  /** The gate: a free book is open to everyone, and a premium book is locked exactly for readers
      who are not premium. */
  lemma LockGate(ebook: EBook, isUserPremium: bool)
    ensures !ebook.isPremium ==> !IsLocked(ebook, isUserPremium)
    ensures ebook.isPremium ==> (IsLocked(ebook, isUserPremium) <==> !isUserPremium)
  {
  }

  /** The card links to the premium page exactly when it is locked; an unlocked card links to
      `/ebooks/{id}?collection={collection}` with "Read Online", a link from which the book's id
      and collection can be read back when the id holds no `?`. */
  lemma LinkFollowsLock(ebook: EBook, collection: string, isUserPremium: bool, isExpanded: bool)
    ensures var link := Render(ebook, collection, isUserPremium, isExpanded).link;
      && (link.href == PremiumHref <==> IsLocked(ebook, isUserPremium))
      && (link.text == UpgradeLabel <==> IsLocked(ebook, isUserPremium))
      && (!IsLocked(ebook, isUserPremium) ==> link == Link(ReadHref(ebook.id, collection), ReadLabel))
      && (!IsLocked(ebook, isUserPremium) && '?' !in ebook.id ==> ParseReadHref(link.href) == Some((ebook.id, collection)))
  {
    var href := ReadHref(ebook.id, collection);
    assert href[1] == 'e' != PremiumHref[1];
    if '?' !in ebook.id {
      ReadHrefRoundTrip(ebook.id, collection);
    }
  }

  /** The read link determines the book and collection it was built from, provided the id holds
      no `?` (the interpolation does not encode either part). */
  lemma ReadHrefRoundTrip(id: string, collection: string)
    requires '?' !in id
    ensures ParseReadHref(ReadHref(id, collection)) == Some((id, collection))
  {
    var href := ReadHref(id, collection);
    assert href[..|ReadHrefPrefix|] == ReadHrefPrefix;
    var rest := href[|ReadHrefPrefix|..];
    assert rest == id + CollectionQuery + collection;
    assert rest[|id|] == '?';
    var k := IndexOf(rest, '?').value;
    assert forall j :: 0 <= j < |id| ==> rest[j] == id[j];
    assert k == |id| && rest[..k] == id;
    var query := rest[k..];
    assert query == CollectionQuery + collection;
    assert query[..|CollectionQuery|] == CollectionQuery && query[|CollectionQuery|..] == collection;
  }

  /** The Premium badge shows exactly for premium books, whoever is reading. */
  lemma BadgeIgnoresReader(ebook: EBook, collection: string, isUserPremium: bool, isExpanded: bool)
    ensures Render(ebook, collection, isUserPremium, isExpanded).showPremiumBadge <==> ebook.isPremium
  {
  }

  /** The clamp applies exactly to a long description that is not expanded; the control shows only
      for long descriptions and offers to collapse exactly when expanded. */
  lemma ClampRule(ebook: EBook, collection: string, isUserPremium: bool, isExpanded: bool)
    ensures var v := Render(ebook, collection, isUserPremium, isExpanded);
      && (v.clampDescription <==> IsLongDescription(ebook) && !isExpanded)
      && (v.toggleLabel.Some? <==> IsLongDescription(ebook))
      && (v.toggleLabel == Some(ReadLessLabel) <==> IsLongDescription(ebook) && isExpanded)
  {
  }

  /** The length bound is strict: 150 characters are not long, 151 are. */
  lemma DescriptionBoundary(ebook: EBook)
    ensures |ebook.description| == MaxDescriptionLength ==> !IsLongDescription(ebook)
    ensures |ebook.description| == MaxDescriptionLength + 1 ==> IsLongDescription(ebook)
  {
  }

  /** A mounted card: its props and the `isExpanded` state the toggle flips. */
  class Card {
    const ebook: EBook
    const collection: string
    const isUserPremium: bool
    var isExpanded: bool

    /** The card mounts collapsed. */
    constructor (ebook: EBook, collection: string, isUserPremium: bool)
      ensures this.ebook == ebook && this.collection == collection && this.isUserPremium == isUserPremium
      ensures !isExpanded
    {
      this.ebook := ebook;
      this.collection := collection;
      this.isUserPremium := isUserPremium;
      isExpanded := false;
    }

    function View(): CardView
      reads this
    {
      Render(ebook, collection, isUserPremium, isExpanded)
    }

    /** The Read More/Less click: flips `isExpanded`, so two clicks restore the card, and nothing
        but the clamp and the control's label changes. */
    method Toggle()
      modifies this
      ensures isExpanded == !old(isExpanded)
      ensures View().showPremiumBadge == old(View()).showPremiumBadge && View().link == old(View()).link
    {
      isExpanded := !isExpanded;
    }
  }
}
