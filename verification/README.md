# MED-X client logic, modelled in Dafny

MED-X is an e-learning web application: students browse free and premium e-books by level,
send feedback, and ask an AI help bot questions; admins get an extra console. Almost all of it is
user interface over a hosted database, an identity provider and a language model. This project
models the small amount of logic that decides what users see and what happens to their input:

- `feedback.dfy`, module `Feedback` — the `submitFeedback` server action: the schema that
  demands at least 10 characters of feedback, and the two result records (an error record filed
  under `feedback` with "Please correct the errors and try again.", or "Thank you for your
  feedback!" with no errors).
- `ebook_card.dfy`, module `EBookCard` — the e-book card: a premium book is locked for a reader
  who is not premium; a locked card links to `/premium` ("Upgrade to Read"), an unlocked one to
  `/ebooks/{id}?collection={collection}` ("Read Online"); the Premium badge; descriptions over 150
  characters are clamped to four lines until the Read More/Less toggle expands them. The toggle's
  state lives in the class `Card`.
- `sidebar_nav.dfy`, module `SidebarNav` — the sidebar: the user is an admin exactly when the
  stored profile of the signed-in user has role `"admin"` (no store, no user or no profile means
  not an admin); the `/admin` entry is dropped for everyone else and the other entries keep their
  order; the footer entries are followed by Log Out; an entry is active exactly when the path is
  its href; clicking a link closes the sidebar on mobile layouts (class `MobileSidebar`).
- `help_bot.dfy`, module `HelpBotChat` — the help bot's conversation as a state machine (the
  datatype `Chat` and the functions `EditInput`, `Submit`, `Deliver`) and the component as a class
  (`HelpBot`) whose methods are proved to follow those functions. The message list opens with the
  bot's greeting and only grows; a blank input or a submit while a reply is pending does nothing;
  an accepted submit appends the user's message as typed, clears the input and sends the
  question; the reply, when it lands, appends one bot message. Every reachable state alternates
  user and bot messages, so exactly one reply answers each question and at most one question is
  in flight.
- `js_string.dfy`, module `JsString` — ECMAScript's `String.prototype.trim`, which the help bot
  uses to recognise a blank input, with the white-space set written out.
- `wrappers.dfy`, module `Wrappers` — `Option` and `Result`.

Two specification helpers carry no row of their own: `EBookCard.IndexOf` (the first position of a
character, used only by `ParseReadHref`, the model's reading of a read link) and
`HelpBotChat.CountRole` (the number of messages with a given role, used by `AlternatingCounts` and
`OneReplyPerQuestion`).

The asynchronous round trip to the assistant is split into two steps, `Submit` and `Deliver`;
the reply is any string, supplied to the second step.

## Model

| member | source | states |
|---|---|---|
| `JsString.TrimStartCuts` | src/components/feedback-help/help-bot.tsx:41 | stripping the start keeps a suffix of the input that does not start with white space, and only white space is removed |
| `JsString.TrimEndCuts` | src/components/feedback-help/help-bot.tsx:41 | stripping the end keeps a prefix of the input that does not end with white space, and only white space is removed |
| `JsString.TrimIsCore` | src/components/feedback-help/help-bot.tsx:41 | `trim` returns a contiguous slice of the input, and everything cut off before and after it is white space |
| `JsString.TrimEndsVisible` | src/components/feedback-help/help-bot.tsx:41 | what `trim` keeps is empty or starts and ends with a visible character |
| `JsString.TrimEmptyIffAllWhiteSpace` | src/components/feedback-help/help-bot.tsx:41 | `!input.trim()` holds exactly when the input is empty or all white space |
| `JsString.TrimIdempotent` | src/components/feedback-help/help-bot.tsx:41 | trimming a trimmed string changes nothing |
| `Feedback.ParseFeedback` | src/lib/actions.ts:5-12 | the schema accepts exactly a text entry of 10 or more characters and returns that text; a shorter text yields the too-small issue with the exact message, a missing field or a file yields a type issue |
| `Feedback.SubmitFeedback` | src/lib/actions.ts:9-28 | errors are empty exactly when the schema accepted; the message is the thank-you message exactly when accepted and the correction request exactly when rejected |
| `Feedback.AcceptsLongEnoughText` | src/lib/actions.ts:5-27 | text of at least 10 characters gives exactly `{ message: "Thank you for your feedback!", errors: {} }` |
| `Feedback.RejectsShortText` | src/lib/actions.ts:5-18 | text under 10 characters gives exactly the correction message with the length complaint as the one error under `feedback` |
| `Feedback.LengthBoundary` | src/lib/actions.ts:6 | exactly 10 characters are accepted, 9 are rejected |
| `Feedback.RejectsNonText` | src/lib/actions.ts:10-18 | a missing `feedback` field or an uploaded file is rejected with a type complaint under `feedback`, never accepted |
| `Feedback.ResultShape` | src/lib/actions.ts:14-27 | every result carries a non-empty message; errors are empty exactly when the text was accepted; a rejection files exactly one issue, under `feedback` only |
| `Feedback.IgnoresPreviousState` | src/lib/actions.ts:9-12 | the result depends on the submitted entry only, not on the previous state |
| `EBookCard.LockGate` | src/components/ebook-card.tsx:20 | a free book is never locked; a premium book is locked exactly when the reader is not premium |
| `EBookCard.LinkFollowsLock` | src/components/ebook-card.tsx:53-65 | the card links to `/premium` with "Upgrade to Read" exactly when locked; otherwise it links to `/ebooks/{id}?collection={collection}` with "Read Online", and when the id holds no `?` that link yields back the book's id and collection |
| `EBookCard.ReadHrefRoundTrip` | src/components/ebook-card.tsx:62 | the read link `/ebooks/{id}?collection={collection}` determines the id and collection it was built from, when the id holds no `?` |
| `EBookCard.BadgeIgnoresReader` | src/components/ebook-card.tsx:27-32 | the Premium badge shows exactly for premium books, whatever the reader's status |
| `EBookCard.ClampRule` | src/components/ebook-card.tsx:39-48 | the four-line clamp applies exactly to a long, unexpanded description; the toggle shows only for long descriptions and reads "Read Less" exactly when expanded |
| `EBookCard.DescriptionBoundary` | src/components/ebook-card.tsx:13-19 | "long" is strict: 150 characters are not long, 151 are |
| `EBookCard.Card.constructor` | src/components/ebook-card.tsx:15-16 | a card mounts with its props and collapsed |
| `EBookCard.Card.Toggle` | src/components/ebook-card.tsx:44 | the toggle flips `isExpanded` (so two clicks restore it) and leaves the badge and link as they were |
| `SidebarNav.UserDocRef` | src/components/layout/sidebar-nav.tsx:45-48 | there is a profile reference exactly when a store and a signed-in user are present, and it is `users/{uid}` |
| `SidebarNav.LoadedProfile` | src/components/layout/sidebar-nav.tsx:50 | a profile is loaded exactly when there is a reference and the document exists, and it is that document |
| `SidebarNav.AdminDefaultDeny` | src/components/layout/sidebar-nav.tsx:45-51 | the session is admin exactly when a store and a user are present and the user's stored role is exactly `"admin"` |
| `SidebarNav.VisibleItems` | src/components/layout/sidebar-nav.tsx:77-78 | filtering never adds entries |
| `SidebarNav.VisibleMembership` | src/components/layout/sidebar-nav.tsx:77-78 | an entry is shown exactly when it is in the menu and is not `/admin`, or the user is an admin |
| `SidebarNav.VisibleKeepsOrder` | src/components/layout/sidebar-nav.tsx:77-92 | the shown entries are a subsequence of the menu, in its order |
| `SidebarNav.VisibleConcat` | src/components/layout/sidebar-nav.tsx:77-78 | the filter works entry by entry: filtering a concatenation concatenates the filtered parts |
| `SidebarNav.VisibleWhole` | src/components/layout/sidebar-nav.tsx:78 | an admin sees every entry, and a menu without `/admin` is shown whole to everyone |
| `SidebarNav.MainMenuEntries` | src/components/layout/sidebar-nav.tsx:22-29 | an admin sees all six main entries; anyone else sees the first five in order; the Admin entry appears exactly for admins |
| `SidebarNav.Buttons` | src/components/layout/sidebar-nav.tsx:77-110 | one link button per entry, same href and caption, in order, active exactly when the path equals its href |
| `SidebarNav.MainMenuButtons` | src/components/layout/sidebar-nav.tsx:77-92 | the rendered main menu has six link buttons for an admin, the last linking to `/admin`, and five for anyone else, none linking to `/admin` |
| `SidebarNav.FooterMenu` | src/components/layout/sidebar-nav.tsx:97-116 | the footer shows the three footer entries in order and Log Out last |
| `SidebarNav.AtMostOneActive` | src/components/layout/sidebar-nav.tsx:82 | in a menu whose hrefs are distinct, no two entries are active together |
| `SidebarNav.MenusHaveDistinctHrefs` | src/components/layout/sidebar-nav.tsx:22-35 | the main and footer menus have distinct hrefs |
| `SidebarNav.MobileSidebar.constructor` | src/components/layout/sidebar-nav.tsx:41 | the sidebar state starts as the layout reports it |
| `SidebarNav.MobileSidebar.HandleLinkClick` | src/components/layout/sidebar-nav.tsx:53-57 | on a mobile layout the sidebar closes; otherwise nothing changes |
| `SidebarNav.MobileSidebar.HandleLogout` | src/components/layout/sidebar-nav.tsx:59-63 | logging out navigates to `/login` and has the link-click effect |
| `HelpBotChat.SubmitGuard` | src/components/feedback-help/help-bot.tsx:41 | a submit changes nothing exactly when the input is empty or white space, or a reply is pending |
| `HelpBotChat.SubmitEffect` | src/components/feedback-help/help-bot.tsx:43-48 | an accepted submit appends exactly one user message with the untrimmed input, clears the input, and sends the input as it was before clearing |
| `HelpBotChat.SubmitIdempotent` | src/components/feedback-help/help-bot.tsx:41-47 | a second submit straight after a first changes nothing: one request at a time |
| `HelpBotChat.DeliverEffect` | src/components/feedback-help/help-bot.tsx:47-50 | a reply to the pending request appends exactly one bot message with the reply text and ends the pending state; with nothing pending nothing changes |
| `HelpBotChat.InitialWellFormed` | src/components/feedback-help/help-bot.tsx:19-23 | the component mounts with exactly the greeting, an empty input and nothing pending, which is well formed |
| `HelpBotChat.EditPreservesWellFormed` | src/components/feedback-help/help-bot.tsx:111-114 | typing (ignored while the field is disabled) keeps the conversation well formed |
| `HelpBotChat.SubmitPreservesWellFormed` | src/components/feedback-help/help-bot.tsx:39-52 | a submit keeps the conversation well formed: alternating messages, non-blank questions, pending exactly when the last message is the question in flight |
| `HelpBotChat.DeliverPreservesWellFormed` | src/components/feedback-help/help-bot.tsx:47-51 | a delivered reply keeps the conversation well formed |
| `HelpBotChat.RunAppendOnly` | src/components/feedback-help/help-bot.tsx:44-50 | whatever sequence of typing, submits and replies happens, the earlier message list is a prefix of the later one |
| `HelpBotChat.RunPreservesWellFormed` | src/components/feedback-help/help-bot.tsx:19-51 | every state reachable by typing, submits and replies is well formed |
| `HelpBotChat.AlternatingCounts` | src/components/feedback-help/help-bot.tsx:19-50 | a greeting-first alternating list of length n holds n/2 user and (n+1)/2 bot messages |
| `HelpBotChat.OneReplyPerQuestion` | src/components/feedback-help/help-bot.tsx:41-51 | in a well-formed conversation the bot replies (besides the greeting) number the questions minus the one in flight |
| `HelpBotChat.HelpBot.constructor` | src/components/feedback-help/help-bot.tsx:19-23 | the component mounts in the initial state |
| `HelpBotChat.HelpBot.OnInputChange` | src/components/feedback-help/help-bot.tsx:111-114 | the input takes the typed text unless a reply is pending, as `EditInput` says |
| `HelpBotChat.HelpBot.HandleSubmit` | src/components/feedback-help/help-bot.tsx:39-52 | the new state is `Submit` of the old; it returns the question sent exactly when the submit was accepted, and that question is the input before clearing |
| `HelpBotChat.HelpBot.DeliverReply` | src/components/feedback-help/help-bot.tsx:47-51 | the new state is `Deliver` of the old and stays well formed |

## Left out

- Rendering: layout, icons, logos, titles and bylines, the typing indicator, the sidebar header's logo link
  (`src/components/layout/sidebar-nav.tsx:68`, whose click is the same `handleLinkClick`) and scrolling the chat to the bottom.
- String lengths: JavaScript counts UTF-16 code units, the model counts characters; they differ for
  characters outside the Basic Multilingual Plane (one such character counts 2 towards the feedback
  minimum and the description bound in the application, 1 here).
- The wording of the type complaint for a missing or non-text `feedback` field comes from the
  validation library's default messages; the model keeps the kind of issue, not its text.
- Logging the accepted feedback to the console.
- The `askHelpBot` action the help bot calls is imported from `src/lib/actions.ts` but not defined
  there; it is not part of this model. Its reply is any string; a failing call (a rejected
  promise) is not modelled.
- The help bot assumes the pending flag stays set until the awaited reply lands, as an asynchronous
  transition does; React's scheduling beyond that two-step view is not modelled.
- Firebase: the identity provider, `useDoc`'s live loading (a profile still loading is treated as
  absent, which the admin check denies), `signOut` and the router's navigation, which
  `HandleLogout` reduces to returning the `/login` route.
- `EBookCard.Card`: the card takes `isUserPremium` as given. Its callers in the level pages
  (`src/app/(main)/100lvl/page.tsx:89`, `src/app/(main)/200lvl/page.tsx:41`) do not pass it, so in
  the application it is `undefined`, which the gate treats as not premium. The 200-level page omits
  `collection` as well, so its read links end in `?collection=undefined`. Those pages are not part
  of this model.
- The modelled files hold no access check over stored profiles, no subscription expiry, no tier
  moves, no download counters, no admin console operations and no quiz generator. The card's gate
  takes a boolean `isUserPremium`, and the only blank-question guard is the help bot's client-side
  check at `src/components/feedback-help/help-bot.tsx:41`.
- The AI flows (help answers and quiz generation) are thin calls to a language model; the rules
  about topics, four options and five to ten questions are prompt text the code never checks.
