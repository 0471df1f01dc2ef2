/** The `SidebarNav` component: the admin check on the signed-in user's profile, the main menu
    with the admin entry filtered out for everyone else, the footer menu ending in Log Out, the
    active-entry rule, and the link-click handler that closes the mobile sidebar. */
module SidebarNav {
  import opened Wrappers

  const AdminHref := "/admin"
  const AdminRole := "admin"
  const UsersCollection := "users"
  const LoginRoute := "/login"

  /** A menu entry (its icon is presentation only). */
  datatype NavItem = NavItem(href: string, caption: string)

  /** The main menu, in order. */
  const NavItems: seq<NavItem> := [
    NavItem("/home", "Home"),
    NavItem("/100lvl", "100 Level"),
    NavItem("/200lvl", "200 Level"),
    NavItem("/request-ebook", "Request E-Book"),
    NavItem("/creators", "Creators"),
    NavItem(AdminHref, "Admin")
  ]

  /** The footer menu, in order; Log Out follows it. */
  const BottomNavItems: seq<NavItem> := [
    NavItem("/account", "Account"),
    NavItem("/settings", "Settings"),
    NavItem("/feedback-help", "Feedback & Help")
  ]

  /** The signed-in user as the identity provider reports it. */
  datatype AuthUser = AuthUser(uid: string)

  /** A reference to a stored document: a collection name and a document id. */
  datatype DocRef = DocRef(collection: string, id: string)

  /** The stored profile fields the sidebar reads. */
  datatype UserProfile = UserProfile(role: string)

  /** A rendered menu button: a link, active or not, or the Log Out button. */
  datatype MenuButton = LinkButton(href: string, caption: string, isActive: bool) | LogOutButton

  /** `userDocRef`: the user's profile document, or none without a store or a signed-in user. */
  function UserDocRef(storeAvailable: bool, user: Option<AuthUser>): (r: Option<DocRef>)
    ensures r.Some? <==> storeAvailable && user.Some?
    ensures r.Some? ==> r.value == DocRef(UsersCollection, user.value.uid)
  {
    if !storeAvailable || user.None? then None else Some(DocRef(UsersCollection, user.value.uid))
  }

  /** What `useDoc` yields for a reference, given the documents the store holds: nothing without
      a reference or for a document that is missing (or not yet loaded). */
  function LoadedProfile(ref: Option<DocRef>, documents: map<DocRef, UserProfile>): (r: Option<UserProfile>)
    ensures r.Some? <==> ref.Some? && ref.value in documents
    ensures r.Some? ==> r.value == documents[ref.value]
  {
    if ref.Some? && ref.value in documents then Some(documents[ref.value]) else None
  }

  /** `userProfile?.role === 'admin'`. */
  predicate IsAdmin(profile: Option<UserProfile>) {
    profile.Some? && profile.value.role == AdminRole
  }

  /** Whether the signed-in user (if any) is an admin, from the store's documents. */
  predicate SessionIsAdmin(storeAvailable: bool, user: Option<AuthUser>, documents: map<DocRef, UserProfile>) {
    IsAdmin(LoadedProfile(UserDocRef(storeAvailable, user), documents))
  }

  /** Admin rights are denied by default: only a signed-in user whose stored profile says exactly
      `admin` has them; no store, no user, no profile or any other role means no. */
  lemma AdminDefaultDeny(storeAvailable: bool, user: Option<AuthUser>, documents: map<DocRef, UserProfile>)
    ensures SessionIsAdmin(storeAvailable, user, documents)
        <==> && storeAvailable && user.Some?
             && DocRef(UsersCollection, user.value.uid) in documents
             && documents[DocRef(UsersCollection, user.value.uid)].role == AdminRole
  {
  }

  /** The main-menu filter: the admin entry is dropped unless the user is an admin. */
  function VisibleItems(items: seq<NavItem>, isAdmin: bool): (r: seq<NavItem>)
    ensures |r| <= |items|
  {
    if items == [] then []
    else
      var rest := VisibleItems(items[1..], isAdmin);
      if items[0].href == AdminHref && !isAdmin then rest else [items[0]] + rest
  }

  /** `xs` is `ys` with some entries left out and the rest in their order. */
  predicate IsSubsequence<T(==)>(xs: seq<T>, ys: seq<T>)
    decreases |ys|
  {
    || xs == []
    || (&& ys != []
        && ((xs[0] == ys[0] && IsSubsequence(xs[1..], ys[1..])) || IsSubsequence(xs, ys[1..])))
  }

  /** An entry is shown exactly when it is in the menu and is not the admin entry, or the user is
      an admin. */
  lemma {:induction false} VisibleMembership(items: seq<NavItem>, isAdmin: bool, x: NavItem)
    ensures x in VisibleItems(items, isAdmin) <==> x in items && (x.href != AdminHref || isAdmin)
  {
    if items != [] {
      VisibleMembership(items[1..], isAdmin, x);
      assert items == [items[0]] + items[1..];
    }
  }

  /** The visible entries keep the menu's order: they are a subsequence of it. */
  lemma {:induction false} VisibleKeepsOrder(items: seq<NavItem>, isAdmin: bool)
    ensures IsSubsequence(VisibleItems(items, isAdmin), items)
  {
    if items != [] {
      VisibleKeepsOrder(items[1..], isAdmin);
      var rest := VisibleItems(items[1..], isAdmin);
      if !(items[0].href == AdminHref && !isAdmin) {
        assert ([items[0]] + rest)[1..] == rest;
      }
    }
  }

  /** Filtering a concatenation filters each part. */
  lemma {:induction false} VisibleConcat(a: seq<NavItem>, b: seq<NavItem>, isAdmin: bool)
    ensures VisibleItems(a + b, isAdmin) == VisibleItems(a, isAdmin) + VisibleItems(b, isAdmin)
  {
    if a != [] {
      VisibleConcat(a[1..], b, isAdmin);
      assert (a + b)[1..] == a[1..] + b;
    } else {
      assert a + b == b;
    }
  }

  /** An admin sees every entry, and a menu without an admin entry is shown whole to everyone. */
  lemma {:induction false} VisibleWhole(items: seq<NavItem>, isAdmin: bool)
    requires isAdmin || forall i :: 0 <= i < |items| ==> items[i].href != AdminHref
    ensures VisibleItems(items, isAdmin) == items
  {
    if items != [] {
      VisibleWhole(items[1..], isAdmin);
    }
  }

  /** With the menu as defined: an admin sees all six entries, anyone else the first five, and the
      admin entry appears exactly for admins. */
  lemma MainMenuEntries(isAdmin: bool)
    ensures isAdmin ==> VisibleItems(NavItems, isAdmin) == NavItems
    ensures !isAdmin ==> VisibleItems(NavItems, isAdmin) == NavItems[..5]
    ensures NavItem(AdminHref, "Admin") in VisibleItems(NavItems, isAdmin) <==> isAdmin
  {
    var front := NavItems[..5];
    assert NavItems == front + [NavItems[5]];
    VisibleConcat(front, [NavItems[5]], isAdmin);
    VisibleWhole(front, isAdmin);
    if isAdmin {
      VisibleWhole(NavItems, isAdmin);
    }
    VisibleMembership(NavItems, isAdmin, NavItem(AdminHref, "Admin"));
  }

  /** Each entry as a button, active exactly when it is the current path. */
  function Buttons(items: seq<NavItem>, pathname: string): (r: seq<MenuButton>)
    ensures |r| == |items|
    ensures forall i :: 0 <= i < |r| ==> r[i].LinkButton? && r[i].href == items[i].href && r[i].caption == items[i].caption
    ensures forall i :: 0 <= i < |r| ==> (r[i].isActive <==> pathname == items[i].href)
  {
    if items == [] then []
    else [LinkButton(items[0].href, items[0].caption, pathname == items[0].href)] + Buttons(items[1..], pathname)
  }

  /** The main menu rendered for `pathname`. */
  function MainMenu(pathname: string, isAdmin: bool): seq<MenuButton> {
    Buttons(VisibleItems(NavItems, isAdmin), pathname)
  }

  /** The rendered main menu: an admin gets six buttons, the last one the Admin link; anyone else
      gets the first five, and none of them links to `/admin`. */
  lemma MainMenuButtons(pathname: string, isAdmin: bool)
    ensures var m := MainMenu(pathname, isAdmin);
      && |m| == (if isAdmin then 6 else 5)
      && (forall i :: 0 <= i < |m| ==> m[i].LinkButton? && (m[i].href == AdminHref <==> isAdmin && i == 5))
  {
    MainMenuEntries(isAdmin);
    MenusHaveDistinctHrefs();
    assert NavItems[5].href == AdminHref;
  }

  /** The footer menu: every footer entry, in order, then Log Out. */
  function FooterMenu(pathname: string): (r: seq<MenuButton>)
    ensures |r| == |BottomNavItems| + 1 && r[|r| - 1] == LogOutButton
    ensures forall i :: 0 <= i < |BottomNavItems| ==> r[i].LinkButton? && r[i].href == BottomNavItems[i].href
  {
    Buttons(BottomNavItems, pathname) + [LogOutButton]
  }

  /** No two entries share an href. */
  predicate DistinctHrefs(items: seq<NavItem>) {
    forall i, j :: 0 <= i < j < |items| ==> items[i].href != items[j].href
  }

  /** At most one entry of a menu with distinct hrefs is active, and it is the one whose href is
      the current path. */
  lemma AtMostOneActive(items: seq<NavItem>, pathname: string, i: nat, j: nat)
    requires DistinctHrefs(items)
    requires i < j < |items|
    ensures !(Buttons(items, pathname)[i].isActive && Buttons(items, pathname)[j].isActive)
  {
  }

  /** The menus as defined have distinct hrefs, so at most one entry of each is active. */
  lemma MenusHaveDistinctHrefs()
    ensures DistinctHrefs(NavItems) && DistinctHrefs(BottomNavItems)
  {
  }

  /** The open state of the sidebar as seen on small screens. */
  class MobileSidebar {
    const isMobile: bool
    var openMobile: bool

    constructor (isMobile: bool, openMobile: bool)
      ensures this.isMobile == isMobile && this.openMobile == openMobile
    {
      this.isMobile := isMobile;
      this.openMobile := openMobile;
    }

    /** `handleLinkClick`: on a mobile layout the sidebar closes; otherwise nothing changes. */
    method HandleLinkClick()
      modifies this
      ensures openMobile == (if isMobile then false else old(openMobile))
    {
      if isMobile {
        openMobile := false;
      }
    }

    /** `handleLogout`: the sign-out request and the navigation go to the identity provider and
        the router; the model returns the route navigated to and applies the link-click effect. */
    method HandleLogout() returns (route: string)
      modifies this
      ensures route == LoginRoute
      ensures openMobile == (if isMobile then false else old(openMobile))
    {
      route := LoginRoute;
      HandleLinkClick();
    }
  }
}
