# Usluge client logic, modelled in Dafny

Usluge is a small marketplace for local services. It is a Next.js client
over a hosted Supabase backend. Most of its pages show forms and the answers
of remote queries. This project models the pieces of logic that sit inside
those pages, one Dafny module per source file:

- `Unread` (lib/unread.ts): the unread-message badge count. The backend's
  `conversations` and `messages` tables are held in memory. A map says which
  of the three queries fail, and a flag says whether the count query reports
  its count.
- `LoginClient` (app/login/LoginClient.tsx): the `safeNext` open-redirect
  guard. Also the login/register toggle and where the form sends the user
  after signing in, signing up or starting Google sign-in.
- `Nav` (components/Nav.tsx): `cn`, `isActive`, `initialsFromEmail` and the
  `usePathname() || "/"` default. The bar's state (session, e-mail, mobile
  menu) is a class, with the `goAuthed` routing decision as a method.
- `HomePage` (app/page.tsx): the `filtered` list of posts under the four
  search fields.
- `LandingClient` (app/LandingClient.tsx): the category image map, `topCats`,
  and `goToOglasi`, which fills a `URLSearchParams` object step by step.
- `ProfilePage` (app/profil/page.tsx): loading the profile and the user's
  posts, and the pause/activate toggle with its list update.
- `InboxPage` (app/poruke/page.tsx): the other participant, the `postsMap`
  join, and the realtime UPDATE handler. The handler replaces one item and
  re-sorts the list in place, newest message first.
- `Wrappers`, `Text` and `Routes` hold what the pages share: `Option` and
  `Result`, the JavaScript string operations the pages use, the test
  `safeNext` applies to a path and the `/login?next=` URL. An internal path
  below means a string passing that test: it starts with `/` and not with
  `//`. It is not a proof that a browser stays on this site.

Remote calls are modelled as parameters: a method receives the answer of the
query it awaits, either data or an error. `encodeURIComponent` and the form
encoding of `URLSearchParams` are passed in as a function `encode`.

The unread count in lib/unread.ts queries only the `user1_id` and `user2_id`
columns; it probes no other column names. It throws every query error and
never falls back to 0 on a failure. `FetchUnreadCount` therefore returns a
`Result`, and `FailsIffQueryFails` states when it is a failure.

## Model

| member | source | states |
|---|---|---|
| Unread.IdsWhere | lib/unread.ts:5-14 | the ids selected for one participant column are exactly those of the conversations where that column is the user; none when the user is never in it |
| Unread.SelectConversationIds | lib/unread.ts:5-9 | a conversations query fails exactly when the backend fails it, with that error; otherwise it yields the matching ids |
| Unread.MatchingMessages | lib/unread.ts:19-24 | the rows the count query matches are exactly the messages in the gathered conversations that are unread and sent by someone else |
| Unread.CountQuery | lib/unread.ts:19-28 | the count query fails exactly when the backend fails it; a reported count never exceeds the number of messages |
| Unread.FetchUnreadCount | lib/unread.ts:3-29 | an error from the first or second conversations query is returned as that error, never as a count; when both answer with some ids, an error from the count query is returned as that error; a count is at most the size of the messages table |
| Unread.ConvIdsAreUserConversations | lib/unread.ts:11-14 | the ids gathered from both columns are exactly the conversations the user takes part in |
| Unread.MatchingIsUnreadFor | lib/unread.ts:22 | the count depends on the gathered ids only through membership, so repeated ids change nothing |
| Unread.UnreadForEmpty | lib/unread.ts:16 | with no conversations, no message is unread for the user |
| Unread.FetchUnreadCountCorrect | lib/unread.ts:3-29 | with every query answering, the result is the number of unread messages from others in the user's conversations, or 0 when the count is missing |
| Unread.NoConversationsNoUnread | lib/unread.ts:11-16 | a user in no conversation gets 0, whatever the messages table holds and even if the count query would fail |
| Unread.FailsIffQueryFails | lib/unread.ts:6-26 | the result is an error exactly when a conversations query fails, or the count query fails and the user has a conversation |
| Unread.UnreadWithinConversations | lib/unread.ts:19-28 | the count is at most the number of messages in the user's conversations |
| Unread.FromOthers | lib/unread.ts:24 | keeps exactly the messages another user sent |
| Unread.UnreadIgnoresOwn | lib/unread.ts:24 | removing the user's own messages does not change what is unread for them |
| Unread.OwnMessagesNeverCounted | lib/unread.ts:24 | two message tables that agree on other users' messages give the same count, whatever the user's own messages say |
| Unread.CountBounded | lib/unread.ts:19-28 | a successful count is at most the number of messages in the user's conversations |
| Unread.SelfConversationCountedOnce | lib/unread.ts:11-22 | a conversation with the user on both sides is gathered twice, yet its unread message counts once |
| Routes.LoginUrl | app/login/LoginClient.tsx:76 | the sign-in URL is `/login?next=` followed by exactly the encoded path to come back to |
| Routes.LoginUrlIsInternal | app/login/LoginClient.tsx:76 | `/login?next=` followed by any encoded path is an internal path |
| LoginClient.SafeNext | app/login/LoginClient.tsx:7-13 | the result is always internal (starts with `/`, not `//`); an internal parameter is returned as it is; a missing, empty, external or protocol-relative one gives `/` |
| LoginClient.SafeNextIdempotent | app/login/LoginClient.tsx:7-13 | sanitising a sanitised path changes nothing |
| LoginClient.SafeNextExamples | app/login/LoginClient.tsx:9-12 | null, `""`, an absolute URL and `//host` give `/`; `/poruke` is kept |
| LoginClient.SafeNextLetsBackslashThrough | app/login/LoginClient.tsx:9-12 | as written, the guard keeps `/\evil.example` and `/<tab>/evil.example`, both of which pass the test |
| LoginClient.ErrorText | app/login/LoginClient.tsx:54 | the shown error is the error's message, or `Greška` when it has none |
| LoginClient.Toggled | app/login/LoginClient.tsx:157 | the toggle always changes the mode |
| LoginClient.ToggledTwice | app/login/LoginClient.tsx:157 | toggling twice restores the mode |
| LoginClient.LoginForm.constructor | app/login/LoginClient.tsx:19-28 | the form starts in login mode, idle, with no error, and its `nextPath` is the sanitised `next` |
| LoginClient.LoginForm.OnMount | app/login/LoginClient.tsx:30-35 | an existing session sends the user to `nextPath`, an internal path; without one nothing is pushed |
| LoginClient.LoginForm.ToggleMode | app/login/LoginClient.tsx:155-158 | the mode switches and the error is cleared |
| LoginClient.LoginForm.Submit | app/login/LoginClient.tsx:59-88 | an error shows its message (or `Greška`) and pushes nothing; a sign-in, or a sign-up with a session, pushes `nextPath`; a sign-up without a session pushes `/login?next=<nextPath>`; the form is idle afterwards and every push is internal |
| LoginClient.LoginForm.LoginWithGoogle | app/login/LoginClient.tsx:37-57 | the OAuth flow returns to `origin/login?next=<nextPath>`; an error shows its message and frees the form, a success leaves it busy |
| Nav.KeptNames | components/Nav.tsx:8-9 | the names kept by `filter(Boolean)` are exactly the non-empty names among the arguments |
| Nav.KeptNamesAppend | components/Nav.tsx:9 | keeping the truthy arguments of two lists one after the other gives the kept names of each, in order |
| Nav.Cn | components/Nav.tsx:8-10 | the joined string is empty exactly when no argument is truthy |
| Nav.CnClassList | components/Nav.tsx:8-10 | for any arguments, spaces inside them included, the class list read back from `cn`'s result is the classes of each truthy argument, argument after argument |
| Nav.CnClassListSingleWords | components/Nav.tsx:8-10 | when each argument is one class, the class list read back is exactly the truthy arguments, in order |
| Nav.CnExamples | components/Nav.tsx:8-10 | falsy arguments and empty names are dropped and the rest joined by one space |
| Nav.CnExampleSeveralClasses | components/Nav.tsx:113 | arguments holding several classes are joined as they are, with one space between them |
| Nav.IsActive | components/Nav.tsx:12-15 | a link is active only on a path its href is a prefix of, and always on its own path; the home link `/` is active exactly on `/` |
| Nav.IsActiveBoundary | components/Nav.tsx:12-15 | a link other than home is active exactly on its own path or on a path continuing it after a `/` |
| Nav.IsActiveExamples | components/Nav.tsx:12-15 | home is active on `/` and not on `/oglasi`; `/poruke` is active on `/poruke/42`; `/oglasi` is not active on `/oglasi2` |
| Nav.InitialsFromEmail | components/Nav.tsx:17-21 | one character: `?` for a missing or blank address, otherwise the upper-cased first non-whitespace character |
| Nav.PathOrRoot | components/Nav.tsx:25 | a missing or empty pathname reads as `/`; any other is kept |
| Nav.NavBar.constructor | components/Nav.tsx:24-30 | the bar starts signed out, with no e-mail, the menu closed and the defaulted pathname |
| Nav.NavBar.OnSession | components/Nav.tsx:32-45 | the bar is signed in exactly when a session is given, and shows that session's e-mail |
| Nav.NavBar.OnRouteChange | components/Nav.tsx:25-50 | a navigation records the defaulted pathname; the menu closes when that pathname changed and otherwise keeps its state |
| Nav.NavBar.ToggleMobileMenu | components/Nav.tsx:180 | the hamburger flips the menu |
| Nav.NavBar.GoAuthed | components/Nav.tsx:57-65 | signed in, the target is pushed as it is; signed out, `/login?next=<current path>`; an internal target gives an internal push |
| Nav.NavBar.Follow | components/Nav.tsx:103-134 | a public link is followed as it is; a private one goes through `goAuthed` |
| Nav.LinksAreInternal | components/Nav.tsx:67-76 | every link of the bar is an internal path |
| Text.ToLower | app/page.tsx:73 | lower-casing keeps the length and lower-cases each ASCII letter |
| Text.Contains | app/page.tsx:73-77 | the empty string is included in every string, and an included string is never longer than the one including it |
| Text.ToLowerIdempotent | app/page.tsx:73-77 | lower-casing twice is lower-casing once |
| Text.ContainsAt | app/page.tsx:73 | `includes` holds exactly when the needle occurs at some index |
| Text.TrimStart | components/Nav.tsx:19 | what is left is a suffix, what was dropped is all whitespace, and it starts with a non-whitespace character |
| Text.TrimEnd | components/Nav.tsx:19 | what is left is a prefix, what was dropped is all whitespace, and it ends with a non-whitespace character |
| Text.Trim | components/Nav.tsx:19 | the result is a slice of the string with only whitespace cut on either side, and neither starts nor ends with whitespace |
| Text.TrimFirst | components/Nav.tsx:19 | `trim` leaves nothing exactly for an all-whitespace string, and otherwise starts with the first non-whitespace character |
| Text.NatToString | app/page.tsx:74 | the decimal form of a natural number is non-empty and all digits |
| Text.IntToString | app/page.tsx:74 | `String(n)` is never empty |
| Text.NatToStringInjective | app/page.tsx:74 | different natural numbers print differently |
| Text.IntToStringInjective | app/page.tsx:74 | different integers print differently, so comparing printed ids compares ids |
| HomePage.Keep | app/page.tsx:71-79 | the chain of early returns keeps a post exactly when it passes each of the four fields that is set |
| HomePage.Filtered | app/page.tsx:70-81 | the shown posts are an order-preserving subsequence of the loaded ones; a post is shown exactly when it is loaded and passes every set field, and then as many times as it was loaded |
| HomePage.FilteredAppend | app/page.tsx:70-81 | filtering two lists one after the other gives the posts kept from each, in order |
| HomePage.FilteredSingle | app/page.tsx:70-81 | a single post is shown exactly when every set field passes |
| HomePage.FilteredSatisfiesFields | app/page.tsx:71-80 | every shown post has the chosen type, a city containing the city field and text containing the query (both ignoring case), and the chosen category |
| HomePage.MatchingPostShown | app/page.tsx:71-80 | a loaded post that satisfies every set field is shown |
| HomePage.NoSearchShowsAll | app/page.tsx:70-81 | with every field empty, all loaded posts are shown in order |
| HomePage.FilteredIdempotent | app/page.tsx:70-81 | filtering the shown posts again changes nothing |
| HomePage.FilterIgnoresCase | app/page.tsx:73-78 | city and query fields that agree up to case select the same posts |
| HomePage.CategoryFieldSelectsId | app/page.tsx:74 | with the category field set to a printed id, every shown post has that category id |
| LandingClient.ImgForCategory | app/LandingClient.tsx:24-27 | one of the six mapped names gives its image; a name that is not an own key of the map gives the fallback |
| LandingClient.CategoryImageTable | app/LandingClient.tsx:15-27 | each of the six category names gives its listed image, and a name differing only in case gives the fallback |
| LandingClient.ImageAlwaysKnown | app/LandingClient.tsx:15-27 | for the names the model covers, every banner image is one of the seven known images |
| LandingClient.TopCats | app/LandingClient.tsx:49 | the first `min(12, n)` categories, in order |
| LandingClient.RemoveName | app/LandingClient.tsx:58-61 | removing a name keeps exactly the pairs with other names |
| LandingClient.SetEntry | app/LandingClient.tsx:58-61 | after `set`, the name has only the new value, other pairs are kept, and a new name is appended at the end |
| LandingClient.Serialize | app/LandingClient.tsx:63 | the query string is empty exactly when there are no pairs |
| LandingClient.SearchParams.constructor | app/LandingClient.tsx:52 | a new parameter list is empty |
| LandingClient.SearchParams.Set | app/LandingClient.tsx:58-61 | `set` replaces the pairs as `SetEntry` states |
| LandingClient.QueryPairsPresence | app/LandingClient.tsx:53-61 | a key is in the query exactly when its effective value is non-empty, and then with that value |
| LandingClient.QueryPairsOrder | app/LandingClient.tsx:58-61 | the keys come in the order q, city, type, cat, each at most once |
| LandingClient.SearchParams.ToString | app/LandingClient.tsx:63 | the query string is empty exactly when no parameter is set |
| LandingClient.OglasiUrl | app/LandingClient.tsx:64 | the target is an internal path: `/oglasi` exactly when the query string is empty, otherwise `/oglasi?` followed by the query string |
| LandingClient.BareUrlWithoutKeys | app/LandingClient.tsx:63-64 | the target is exactly `/oglasi` when no value is set; otherwise a query string follows |
| LandingClient.EmptyOverrideDropsKey | app/LandingClient.tsx:53-61 | an explicit `""` override drops its key even when the form holds a value |
| LandingClient.SearchForm.constructor | app/LandingClient.tsx:32-38 | the form starts with no categories, loading, and every field empty |
| LandingClient.SearchForm.CategoriesLoaded | app/LandingClient.tsx:40-47 | the categories are the returned rows, or none without data, and loading ends |
| LandingClient.SearchForm.GoToOglasi | app/LandingClient.tsx:51-65 | the URL built by the successive `set` calls is `/oglasi` with the pairs of the effective values, where a given field overrides the form's value |
| LandingClient.SearchForm.SelectCategory | app/LandingClient.tsx:185 | a banner click searches with the form's text, city and type and the banner's printed id as the category |
| ProfilePage.NextStatus | app/profil/page.tsx:82 | an active post is paused, any other becomes active; the result is never deleted |
| ProfilePage.NextStatusTwice | app/profil/page.tsx:82 | on active or paused posts, toggling twice restores the status |
| ProfilePage.WithStatus | app/profil/page.tsx:95-97 | same length and ids; only the status of rows with the id changes, to the new status; all other rows are unchanged |
| ProfilePage.ToggleChangesOneRow | app/profil/page.tsx:95-97 | with distinct ids, toggling one post changes that row's status only; every other row, the length and the order stay |
| ProfilePage.ToggleTwiceRestores | app/profil/page.tsx:80-98 | two clicks on a post that is not deleted restore the list |
| ProfilePage.ProfileView.constructor | app/profil/page.tsx:27-31 | the page starts loading, with no e-mail, profile, posts or error |
| ProfilePage.ProfileView.Load | app/profil/page.tsx:33-78 | without a user, a redirect to `/login?next=<encoded /profil>` and still loading; a failed query shows its message and stops; a missing profile becomes `{id: user.id, display_name: null}`; posts are the rows or none |
| ProfilePage.ProfileView.ToggleStatus | app/profil/page.tsx:80-98 | a failed update shows its message and keeps the list; a success writes the next status into the post's rows and keeps the error |
| InboxPage.OtherUserId | app/poruke/page.tsx:54 | `user_b_id` when the user is `user_a_id`, otherwise `user_a_id` |
| InboxPage.OtherIsCounterpart | app/poruke/page.tsx:54 | for a participant, the user and the shown participant are the conversation's two participants; the user is shown only in a conversation with themselves |
| InboxPage.PostsMapKeys | app/poruke/page.tsx:48-49 | the map's keys are exactly the returned posts' ids |
| InboxPage.PostsMapLast | app/poruke/page.tsx:48-49 | each id maps to the last returned post with that id |
| InboxPage.BuildPostsMap | app/poruke/page.tsx:48-49 | the `forEach` loop builds the map `PostsMap` describes |
| InboxPage.Mapped | app/poruke/page.tsx:51-55 | one item per conversation in order, with the conversation, its post from the map or none, and the other participant |
| InboxPage.JoinFindsPost | app/poruke/page.tsx:42-55 | an item's post was returned with the conversation's `post_id`, and it has none exactly when no returned post has that id |
| InboxPage.FindIndex | app/poruke/page.tsx:73 | -1 exactly when no item has the id; otherwise the first index of an item with it |
| InboxPage.Replaced | app/poruke/page.tsx:75-76 | the item at the index gets the new conversation and keeps its post and other participant; all other items stay |
| InboxPage.ReplacedKeepsIds | app/poruke/page.tsx:75-76 | replacing the conversation with one of the same id keeps the set of conversation ids |
| InboxPage.PermutationKeepsItems | app/poruke/page.tsx:77-81 | reordering keeps the length, the items and the conversation ids |
| InboxPage.SortByRecency | app/poruke/page.tsx:77-81 | the array ends sorted by `last_message_at`, newest first, as a permutation of its contents |
| InboxPage.Inbox.constructor | app/poruke/page.tsx:19-22 | the inbox starts empty, with no user |
| InboxPage.Inbox.Load | app/poruke/page.tsx:24-59 | without a user id, a redirect to `/login`; a failed conversations query leaves the list; otherwise the list is the conversations joined to the returned posts |
| InboxPage.Inbox.OnConversationUpdate | app/poruke/page.tsx:70-84 | an unknown id leaves the list; a known one gives a list sorted newest first that is a permutation of the list with that item's conversation replaced |
| InboxPage.UpdateKeeps | app/poruke/page.tsx:72-83 | after an update, the length and conversation ids are kept, every other item is kept unchanged, and the updated item keeps its post and other participant |

## Left out

- Supabase itself: sessions, sign-in and sign-up calls, and the query builders. A query's answer (rows or an error) is an input. For the page queries (posts, categories, the profile and the inbox's conversations and posts) the filtering, ordering and `limit` the backend applies are not modelled; the filters of the unread count in lib/unread.ts are.
- Realtime subscriptions and their removal, and the auth-state listener: only what their handlers do to the page state is modelled.
- Rendering: JSX, class strings, router `push`/`refresh` (a method returns the path it pushes), `location.href`.
- Logout, and the sign-up metadata `display_name: displayName || email`, which only feeds a remote call.
- Encoding: `encodeURIComponent` and the form encoding of `URLSearchParams` are a parameter `encode`, so nothing is proved about the characters they escape.
- LoginClient.SafeNext: the guard is modelled as written, and its result is only proved to start with `/` and not with `//`. `SafeNextLetsBackslashThrough` shows that `/\evil.example` and `/<tab>/evil.example` pass it. Browsers parse URLs by the WHATWG URL Standard, which reads `\` as `/` in http(s) URLs and drops tabs and newlines. So a browser would likely open both as `//evil.example`, on another host. This follows from the standard's rules and is not confirmed in a browser.
- Text.ToLower: folds ASCII letters only; JavaScript's Unicode-aware `toLowerCase`/`toUpperCase` is not modelled. Strings are sequences of characters, not of UTF-16 code units.
- Text.IntToString: is decimal notation for every integer; JavaScript switches to exponent notation from 1e21 on.
- InboxPage.SortByRecency: does not state that equal timestamps keep their order; JavaScript's sort is stable, the model's only sorted and a permutation.
- InboxPage.Inbox.OnConversationUpdate: has the same gap; its list is sorted and a permutation of the replaced list, and items with equal timestamps may change order.
- LandingClient.ImgForCategory: models only the map's own keys. `categoryImages` is a plain object, so a name such as `constructor` or `toString` reads an inherited `Object.prototype` member in the page rather than the fallback.
- LandingClient.ImageAlwaysKnown: holds for the modelled lookup only; the inherited `Object.prototype` members above are not among the seven images.
- InboxPage.ConversationRow: `last_message_at` is the integer time the page compares; parsing the date string, and a null or invalid date, are not modelled.
- Unread.Backend: the count query's result is derived from the tables; a `null` `is_read` or `sender_id`, and the `data ?? []` of the conversations queries (an answer without error and without data), are not modelled.
- Prices (`Math.round(Number(...) * 100)` and `toFixed(2)`) and date display: floating point and locale formatting.
- app/novi-oglas/page.tsx, app/profil/uredi/page.tsx, app/oglas/[id]/page.tsx and app/poruke/[id]/page.tsx: forms and remote calls only. app/layout.tsx, app/oglasi/page.tsx and app/login/page.tsx: no logic.
- Finding or creating a conversation: app/oglas/[id]/page.tsx:67-89 looks the conversation up by `post_id`, `user_a_id` and `user_b_id` and inserts one when there is none. It lies outside the modelled pages and consists of remote calls, so it is not modelled.
- Marking messages as read: app/poruke/[id]/page.tsx:52-58 sets `is_read` on the other user's unread messages when a thread opens, and :76-82 on each incoming message. Both are remote updates outside the modelled pages and are not modelled.
- Probing participant column names: lib/unread.ts filters on `user1_id` and `user2_id` only and the code tries no other names, so there is nothing to model.
