# AfriOTV client logic in Dafny

AfriOTV is a streaming catalog front end over a hosted document database, an
identity provider and an LLM recommendation flow. This project models the logic
the client itself owns and proves what it does:

- the three live-subscription hooks (`useDoc`, `useCollection`, `useUser`) as
  classes whose methods are the hook's events: an effect run for a new
  reference, a snapshot, an error, a teardown;
- the watchlist service (`WatchlistContext`): add, remove and membership over the
  user's `users/{uid}/watchlist` entries;
- the pure catalog queries of the search, home, recommendations and watchlist
  pages;
- the reviews panel: schema, record, "already reviewed" check, star rows and its
  submission;
- the small decisions of the login page, the account menu (`UserNav`), the
  content card and the admin page.

The backend, the identity provider and the LLM are inputs. A snapshot, the
outcome of a write or a sign-in, and a list of suggested titles are arguments
of the method that consumes them. Each permission-denial report that the code
sends on its error channel is appended to a ghost `errors` log.

Modules follow the source files:

| module | file |
|---|---|
| `Types` | the records of `src/lib/types.ts`, and the review, user, claims, field-map and permission-error records the components use |
| `Seqs`, `Text` | `Array.prototype.filter`/`find`; ASCII case mapping, `includes`, `split` on one character, `trim` |
| `LiveDoc`, `LiveCollection`, `Session` | `use-doc.tsx`, `use-collection.tsx`, `use-user.tsx` |
| `WatchlistContext` | `WatchlistContext.tsx` |
| `ContentCard`, `SearchPage`, `HomePage`, `WatchlistPage` | `ContentCard.tsx`, `search/page.tsx`, `app/page.tsx`, `watchlist/page.tsx` |
| `RecommendationsPage`, `ReviewsSection`, `Initials` | `recommendations/page.tsx`, `ReviewsSection.tsx`, and the `getInitials` helper that `ReviewsSection.tsx` and `UserNav.tsx` each define with the same text |
| `LoginPage`, `UserNav`, `AdminPage` | `login/page.tsx`, `UserNav.tsx`, `admin/page.tsx` |

Facts the proofs establish about the code as written:

- **Duplicate adds.** `addToWatchlist` never checks for an existing entry. Every accepted add raises the count of entries for that content id by exactly one.
- **First-match remove.** `removeFromWatchlist` deletes the first entry that names the content. If the watchlist holds duplicates, the content stays on it.
- **No claims from `useUser`.** The hook returns only `user`, `profile` and `isLoading`. Because of this:
  - the account menu never shows the Admin link;
  - a signed-in visitor to the admin page keeps the spinner forever;
  - the admin dashboard can never be reached.
- **No de-duplication of suggestions.** Recommendation matching keeps repeats. "Galaxy Drifters" and "galaxy drifters" both select the one catalog item, so it is shown twice.
- **"undefined" in initials.** `getInitials` on a name that ends in a space reads the first character of an empty string. In a template literal that prints `undefined`, so "Ada " gives "AUNDEFINED".

## Model

| member | source | states |
|---|---|---|
| `Seqs.FilterMembers` | src/app/search/page.tsx:22-28 | `filter` keeps an element exactly when it occurs in the input and satisfies the predicate |
| `Seqs.FilterCount` | src/app/search/page.tsx:22-28 | each kept element occurs as often as in the input |
| `Seqs.FilterIsSubsequence` | src/app/search/page.tsx:22-28 | `filter` keeps input order |
| `Seqs.FilterMonotone` | src/app/search/page.tsx:22-28 | everything a stronger predicate keeps, a weaker one keeps too, in the same order |
| `Seqs.FilterHead` | src/app/page.tsx:23-27 | a filter is empty exactly when `find` finds nothing, and otherwise starts with what `find` finds |
| `Text.LowerKeepsIncludes` | src/app/search/page.tsx:20-27 | lower-casing both sides keeps an `includes` true |
| `Text.SplitSpec` | src/app/recommendations/page.tsx:54 | no piece of `split(',')` contains a comma, and joining the pieces with commas gives back the string |
| `Text.SplitJoin` | src/components/content/ReviewsSection.tsx:92 | splitting undoes joining, for pieces that do not contain the separator |
| `Text.TrimSpec` | src/app/recommendations/page.tsx:54 | `trim` returns the middle of its input; everything it cuts off is white space; the result neither starts nor ends with white space |
| `Text.TrimIdempotent` | src/app/recommendations/page.tsx:54 | trimming twice is trimming once |
| `LiveDoc.SnapshotData` | src/firebase/firestore/use-doc.tsx:23 | an existing document yields its data, a missing one yields null |
| `LiveDoc.DocListener.constructor` | src/firebase/firestore/use-doc.tsx:9-10 | the first render holds `data = null`, `isLoading = true`, no listener and no reports |
| `LiveDoc.DocListener.RunEffect` | src/firebase/firestore/use-doc.tsx:12-19 | the previous listener is closed first. A null reference settles at `{null, false}` with no listener. Otherwise exactly one new listener opens, `isLoading` becomes true and `data` keeps its old value. At most one listener is ever live, and none that was live before stays live |
| `LiveDoc.DocListener.OnSnapshot` | src/firebase/firestore/use-doc.tsx:22-25 | `data` becomes the snapshot's data (null for a missing document) and loading ends |
| `LiveDoc.DocListener.OnError` | src/firebase/firestore/use-doc.tsx:26-35 | exactly one `get` report on the reference's path is logged, then `{null, false}` |
| `LiveDoc.DocListener.Cleanup` | src/firebase/firestore/use-doc.tsx:38 | after teardown no listener is live |
| `LiveCollection.ErrorPath` | src/firebase/firestore/use-collection.tsx:28 | a report names the collection's path for a plain collection reference and `'unknown'` for any other query |
| `LiveCollection.WithId` | src/firebase/firestore/use-collection.tsx:23 | a row has `id` set to the document id, overriding any stored `id`; every other field is the stored one |
| `LiveCollection.Rows` | src/firebase/firestore/use-collection.tsx:23 | one row per document, in snapshot order, each the document's data tagged with its id |
| `LiveCollection.CollectionListener.constructor` | src/firebase/firestore/use-collection.tsx:9-10 | the first render holds `data = null`, `isLoading = true`, no listener |
| `LiveCollection.CollectionListener.RunEffect` | src/firebase/firestore/use-collection.tsx:12-19 | as for the document hook: a null query gives `{null, false}` and opens no listener; a query opens exactly one listener and sets loading; at most one is live |
| `LiveCollection.CollectionListener.OnSnapshot` | src/firebase/firestore/use-collection.tsx:22-25 | `data` is the snapshot's rows and loading ends |
| `LiveCollection.CollectionListener.OnError` | src/firebase/firestore/use-collection.tsx:27-36 | exactly one `list` report on `ErrorPath(query)` is logged, then `{null, false}` |
| `LiveCollection.CollectionListener.Cleanup` | src/firebase/firestore/use-collection.tsx:40 | after teardown no listener is live |
| `Session.ProfileRef` | src/firebase/auth/use-user.tsx:29-32 | the profile reference is null exactly without a database or a user, else `users/{uid}` |
| `Session.ProfileRefSeparatesUsers` | src/firebase/auth/use-user.tsx:31 | two users share a profile reference only if they share a uid |
| `Session.UserSession.Result` | src/firebase/auth/use-user.tsx:36 | the result holds the user, the profile and the disjunction of the two loading flags, and nothing else (no claims) |
| `Session.UserSession.constructor` | src/firebase/auth/use-user.tsx:17-21 | before the first auth callback there is no user, the result is loading and the auth observer is registered |
| `Session.UserSession.OnAuthStateChanged` | src/firebase/auth/use-user.tsx:21-24 | a callback, which arrives only while the observer is registered, replaces `user` and clears the hook's own loading flag |
| `Session.UserSession.SyncProfile` | src/firebase/auth/use-user.tsx:29-34 | the profile subscription follows the current user. A new user's profile is loading until its snapshot, and until then the previous user's profile data is still returned, because `useDoc` sets only the loading flag. With no user the result settles at `{null, null, false}` |
| `Session.UserSession.Teardown` | src/firebase/auth/use-user.tsx:20-26 | teardown unsubscribes the auth observer, so no further callback can arrive, leaves the user and flag as they were, and leaves no profile listener live |
| `WatchlistContext.WatchlistPath` | src/contexts/WatchlistContext.tsx:27-30 | there is no collection without a user or a database; otherwise it is `users/{uid}/watchlist` |
| `WatchlistContext.ContentIds` | src/contexts/WatchlistContext.tsx:34 | the projection lists each entry's content id, in entry order |
| `WatchlistContext.WatchlistProjection` | src/contexts/WatchlistContext.tsx:34 | `watchlist` is empty without a snapshot, else the in-order content-id projection; `isInWatchlist(x)` holds iff some entry names `x` |
| `WatchlistContext.MembershipIsOccurrence` | src/contexts/WatchlistContext.tsx:82-84 | membership in the projection is having at least one entry for the content |
| `WatchlistContext.FirstIndex` | src/contexts/WatchlistContext.tsx:65 | the index found names `x` and no earlier entry does; none is found only when no entry names `x` |
| `WatchlistContext.Find` | src/contexts/WatchlistContext.tsx:65-66 | `find` returns an entry exactly when `x` is on the watchlist, and it is the first entry naming `x` |
| `WatchlistContext.DeleteDoc` | src/contexts/WatchlistContext.tsx:68-69 | deleting by id removes exactly the entries with that id and keeps ids distinct |
| `WatchlistContext.OccurrencesAppend` | src/contexts/WatchlistContext.tsx:34 | entry counts add up over concatenation |
| `WatchlistContext.InsertAddsOne` | src/contexts/WatchlistContext.tsx:45-49 | an add raises the count of `x` by exactly one, even when `x` is already present; no other count changes |
| `WatchlistContext.AddedIsPresent` | src/contexts/WatchlistContext.tsx:49 | once the new entry is in a snapshot, `isInWatchlist(x)` holds |
| `WatchlistContext.InsertKeepsDistinct` | src/contexts/WatchlistContext.tsx:49 | a backend-assigned fresh id keeps document ids distinct |
| `WatchlistContext.DeleteConcat` | src/contexts/WatchlistContext.tsx:69 | deleting by id distributes over concatenation |
| `WatchlistContext.KeepAll` | src/contexts/WatchlistContext.tsx:69 | deleting an id that no entry carries changes nothing |
| `WatchlistContext.DeleteMiddle` | src/contexts/WatchlistContext.tsx:68-69 | deleting the id of a uniquely identified entry removes just that entry |
| `WatchlistContext.DeleteFirstMatch` | src/contexts/WatchlistContext.tsx:65-69 | removal deletes exactly the first entry naming `x`; all other entries stay in place and in order |
| `WatchlistContext.RemoveFirstLeavesDuplicates` | src/contexts/WatchlistContext.tsx:65-69 | removal lowers the count of `x` by exactly one, so with duplicates `x` remains present |
| `WatchlistContext.Provider.constructor` | src/contexts/WatchlistContext.tsx:27-32 | the service starts with the collection of the signed-in user, or none without one, and no snapshot |
| `WatchlistContext.Provider.Deliver` | src/contexts/WatchlistContext.tsx:32 | the subscription's snapshot catches up with the collection |
| `WatchlistContext.Provider.Add` | src/contexts/WatchlistContext.tsx:36-61 | without a user: the "Please log in" toast and no write. Accepted: one inserted entry and the "Added" toast. Refused: one `create` report carrying the attempted data. In every case the count of `x` rises by one exactly when the write is accepted |
| `WatchlistContext.Provider.Remove` | src/contexts/WatchlistContext.tsx:63-80 | without a user, or with no entry for `x`: nothing at all. Accepted: the first matching entry's document is deleted and the "Removed" toast shows. Refused: one `delete` report on that document's path |
| `ContentCard.ClickFor` | src/components/content/ContentCard.tsx:23-31 | a click removes exactly when the item is on the watchlist and adds otherwise |
| `ContentCard.ControlsAgree` | src/components/content/ContentCard.tsx:58-62 | the tooltip reads "Remove from Watchlist" and the check icon shows exactly when a click removes |
| `ContentCard.HandleWatchlistClick` | src/components/content/ContentCard.tsx:25-32 | exactly one of the two watchlist operations runs, chosen by the rendered snapshot, and the card passes on its whole outcome: the new collection, the toast, and the permission report a refused write adds. A refused write leaves the collection as it was |
| `ContentCard.HrefsIdentifyItem` | src/components/content/ContentCard.tsx:35-49 | the links are `/content/{id}` and `/play/{id}`; each determines the item, and the two never coincide |
| `SearchPage.Search` | src/app/search/page.tsx:17-29 | an absent or empty query gives nothing. Otherwise an item is a result iff the lower-cased query occurs in its lower-cased title, description, some genre or some cast member, and it appears as often as in the catalog |
| `SearchPage.SearchIsSubsequence` | src/app/search/page.tsx:22 | results keep catalog order |
| `SearchPage.SearchIgnoresCase` | src/app/search/page.tsx:20-26 | queries equal up to case give equal results |
| `SearchPage.MatchesNarrow` | src/app/search/page.tsx:23-27 | a field containing a query contains every part of it |
| `SearchPage.SearchNarrows` | src/app/search/page.tsx:23-27 | if non-empty `q1` occurs in `q2`, the results for `q2` are a subsequence of those for `q1` |
| `HomePage.Home` | src/app/page.tsx:13-36 | the definition of the page's rows and featured item that `RowMembership`, `RowsAreSubsequences` and `FeaturedChoice` are about; its own contract only fixes the empty page for a missing catalog |
| `HomePage.RowsAreSubsequences` | src/app/page.tsx:23-26 | every row keeps catalog order |
| `HomePage.RowMembership` | src/app/page.tsx:23-26 | trending holds exactly the items with `isTrending` true. Action and sci-fi hold only movies with the exact tag, comedy only shows with it. Comedy shares no item with the movie rows |
| `HomePage.GenreIsCaseSensitive` | src/app/page.tsx:24 | an item tagged "action" is not an action movie |
| `HomePage.FeaturedChoice` | src/app/page.tsx:27 | the featured item is the first trending item, else the first item; there is none only for an empty or missing catalog, where every row is empty |
| `WatchlistPage.WatchlistItems` | src/app/watchlist/page.tsx:11 | an item is shown iff it is in the catalog and its id is on the watchlist, each as often as in the catalog |
| `WatchlistPage.Page` | src/app/watchlist/page.tsx:16-26 | the grid appears only with a non-empty list of watchlisted catalog items |
| `WatchlistPage.PageShowsWatchlisted` | src/app/watchlist/page.tsx:10-26 | the grid shows exactly the watchlisted catalog items; the empty state shows exactly when no catalog item is watchlisted |
| `WatchlistPage.ItemsInCatalogOrder` | src/app/watchlist/page.tsx:11 | the page follows catalog order, not watchlist order |
| `WatchlistPage.OnlyIdSetMatters` | src/app/watchlist/page.tsx:11 | repeated, reordered or unknown ids on the watchlist change nothing |
| `WatchlistPage.NoDuplication` | src/app/watchlist/page.tsx:11 | no item appears more often than in the catalog, whatever the watchlist repeats |
| `RecommendationsPage.FormIssues` | src/app/recommendations/page.tsx:25-32 | the form is valid iff both fields have at least 10 characters; each short field reports its own message |
| `RecommendationsPage.SplitHistory` | src/app/recommendations/page.tsx:54 | one entry per comma-separated segment, each the trimmed segment |
| `RecommendationsPage.TrimmedPiece` | src/app/recommendations/page.tsx:54 | a trimmed segment holds no comma, is its own trim and does not start with white space |
| `RecommendationsPage.HistoryEntries` | src/app/recommendations/page.tsx:54 | every history entry is trimmed and comma-free, and the untrimmed segments join back to the input |
| `RecommendationsPage.FindByTitle` | src/app/recommendations/page.tsx:58 | the chosen item is the first whose title equals the suggestion case-insensitively; none only if no title does |
| `RecommendationsPage.Match` | src/app/recommendations/page.tsx:56-60 | at most one result per suggestion, each from the catalog |
| `RecommendationsPage.MatchOne` | src/app/recommendations/page.tsx:56-60 | one suggestion yields the item `find` picks for it, or nothing |
| `RecommendationsPage.MatchConcat` | src/app/recommendations/page.tsx:56-60 | results follow suggestion order |
| `RecommendationsPage.MatchEmpty` | src/app/recommendations/page.tsx:56-64 | the result is empty exactly when no suggestion matches a title |
| `RecommendationsPage.RepeatsKept` | src/app/recommendations/page.tsx:56-60 | a matched suggestion given twice yields its item twice |
| `RecommendationsPage.CaseVariantsRepeat` | src/app/recommendations/page.tsx:57-60 | two case variants of one title yield the item twice |
| `RecommendationsPage.GalaxyDrifters` | src/app/recommendations/page.tsx:57-60 | "Galaxy Drifters" and "galaxy drifters" against a one-item catalog yield that item twice |
| `RecommendationsPage.MatchIgnoresCase` | src/app/recommendations/page.tsx:58 | the case of a suggestion does not change the item chosen |
| `RecommendationsPage.SameLowerSameFind` | src/app/recommendations/page.tsx:58 | suggestions equal once lower-cased choose the same item |
| `RecommendationsPage.Recommendations.constructor` | src/app/recommendations/page.tsx:35-36 | the page starts not loading with no results |
| `RecommendationsPage.Recommendations.Submit` | src/app/recommendations/page.tsx:48-55 | a valid submission sets loading, clears the results and sends the split, trimmed history |
| `RecommendationsPage.Recommendations.Complete` | src/app/recommendations/page.tsx:56-79 | results are the matches, and the notice toast shows exactly when there are none. A failure shows the error toast with no results. Loading ends either way |
| `Initials.FirstOrUndefined` | src/components/content/ReviewsSection.tsx:94 | a part's first character, or `undefined` for an empty part |
| `Initials.GetInitials` | src/components/content/ReviewsSection.tsx:90-97 | "U" for an absent or empty name; never empty |
| `Initials.InitialsOfWords` | src/components/content/ReviewsSection.tsx:90-97 | for a name of words separated by single spaces whose first and last words are non-empty, inner words possibly empty: the upper-cased first letter of a single word, else of the first and the last word |
| `Initials.InitialsOfSplit` | src/components/content/ReviewsSection.tsx:90-97 | when the first and last parts are non-empty: with one part the initials are the upper-cased first letter; with several, those of the first and last parts |
| `Initials.DoubledSpaceInitials` | src/components/content/ReviewsSection.tsx:90-97 | a doubled inner space does not change the initials: "Mary  Watson" gives "MW" |
| `Initials.TrailingSpaceSplit` | src/components/content/ReviewsSection.tsx:92 | "Ada " splits into "Ada" and an empty part |
| `Initials.TrailingSpaceSpellsUndefined` | src/components/content/ReviewsSection.tsx:93-94 | the initials of "Ada " are "AUNDEFINED" |
| `ReviewsSection.FormIssues` | src/components/content/ReviewsSection.tsx:29-32 | valid iff the rating is in 1..5 and the comment has 10 to 1000 characters; the low-rating and short-comment messages appear exactly when those bounds fail |
| `ReviewsSection.DefaultsAreInvalid` | src/components/content/ReviewsSection.tsx:50-53 | the default values fail on both fields |
| `ReviewsSection.NewReview` | src/components/content/ReviewsSection.tsx:64-70 | the record carries the form values, `userId = uid`, the name or 'Anonymous', the photo or '' and a server timestamp, and no other field |
| `ReviewsSection.Panel` | src/components/content/ReviewsSection.tsx:99-157 | the login prompt exactly without a user, the thanks note exactly when one of the user's reviews is loaded, the form otherwise |
| `ReviewsSection.ReviewHidesForm` | src/components/content/ReviewsSection.tsx:99 | a loaded review by the user keeps the form hidden |
| `ReviewsSection.StarRow` | src/components/content/ReviewsSection.tsx:126-128 | five display stars, star `i` filled iff `i < rating` |
| `ReviewsSection.CountTruePrefix` | src/components/content/ReviewsSection.tsx:126-128 | a row filled exactly below `k` has `k` filled stars |
| `ReviewsSection.FilledStars` | src/components/content/ReviewsSection.tsx:126-128 | exactly the rating's number of stars is filled, clamped to 0..5 |
| `ReviewsSection.InputStars` | src/components/content/ReviewsSection.tsx:207-215 | input star `k` is lit iff `(hover \|\| value) >= k` |
| `ReviewsSection.InputAgreesWithDisplay` | src/components/content/ReviewsSection.tsx:212 | without a hover the input lights the stars a review of that rating shows; a hover overrides the value |
| `ReviewsSection.ReviewComposer.constructor` | src/components/content/ReviewsSection.tsx:46-54 | the form starts at rating 0, an empty comment and not submitting |
| `ReviewsSection.ReviewComposer.Edit` | src/components/content/ReviewsSection.tsx:160-185 | editing sets the form's values |
| `ReviewsSection.ReviewComposer.Submit` | src/components/content/ReviewsSection.tsx:56-72 | without a user or a database: the login toast and no write. Otherwise submitting starts with the record built from the form and the user |
| `ReviewsSection.ReviewComposer.Complete` | src/components/content/ReviewsSection.tsx:72-87 | accepted: the record is stored, the thanks toast shows and the form resets. Refused: one `create` report on `content/{id}/reviews` with the record. Submitting ends either way |
| `LoginPage.DefaultNamesCodeAndMessage` | src/app/login/page.tsx:57-58 | the default description contains both the error's message and its code |
| `LoginPage.MessagesByCode` | src/app/login/page.tsx:44-89 | each of the four password codes has its own, distinct message and other codes take the default; the Google handler maps only its two popup codes |
| `LoginPage.RedirectTarget` | src/app/login/page.tsx:41 | navigation goes to the `redirect` parameter when it is non-empty, else to "/" |
| `LoginPage.Login.constructor` | src/app/login/page.tsx:29-34 | the page starts with both loading flags cleared |
| `LoginPage.Login.StartPassword` | src/app/login/page.tsx:38 | the password handler sets its flag |
| `LoginPage.Login.FinishPassword` | src/app/login/page.tsx:39-68 | success navigates to the redirect target. Failure shows one destructive "Login Failed" toast with the switch's message. The flag is cleared either way |
| `LoginPage.Login.StartGoogle` | src/app/login/page.tsx:72 | the Google handler sets its flag |
| `LoginPage.Login.FinishGoogle` | src/app/login/page.tsx:73-97 | as for the password handler, with the Google switch and title |
| `UserNav.Render` | src/components/shared/UserNav.tsx:35-92 | the placeholder exactly while loading, the guest links exactly when settled without a user, the menu otherwise |
| `UserNav.LoadingHidesEverything` | src/components/shared/UserNav.tsx:35-37 | while loading the view does not depend on the user, profile or claims |
| `UserNav.MenuContents` | src/components/shared/UserNav.tsx:66-79 | the name and avatar come from the profile when truthy, else from the provider; an avatar that is empty in both becomes no avatar; the initials are those of the shown name; the alt text falls back to "User" |
| `UserNav.AdminLinkGated` | src/components/shared/UserNav.tsx:76-92 | the Admin badge and link show iff `claims?.admin` is true |
| `UserNav.SessionNeverShowsAdmin` | src/components/shared/UserNav.tsx:26 | fed by the session hook, which returns no claims, the menu never shows the Admin link |
| `AdminPage.Redirect` | src/app/admin/page.tsx:12-16 | it redirects to `/login?redirect=/admin` exactly when not loading and without a user |
| `AdminPage.Render` | src/app/admin/page.tsx:18-44 | spinner iff loading or a user without claims. Dashboard iff not loading and the admin claim is set. Access denied otherwise |
| `AdminPage.SessionNeverReachesDashboard` | src/app/admin/page.tsx:9-18 | on the session hook's result the dashboard is unreachable. A signed-in user always gets the spinner and no redirect. "Access Denied" shows exactly while the redirect fires |
| `AdminPage.RedirectRendersDecision` | src/app/admin/page.tsx:12-36 | while redirecting, the page is past its spinner and shows the dashboard only with the admin claim |

## Left out

- Firebase SDK calls (`onSnapshot`, `addDoc`, `deleteDoc`, `serverTimestamp`, sign-in, sign-out) are not modelled. Their results are method arguments: snapshots, an `accepted` flag, the backend-assigned id and position, and the sign-in outcome.
- Promise settlement order is not modelled. Each operation's completion is a separate method call, or is folded into the operation as its outcome argument.
- The AI flows (`src/ai/flows/*`) are foreign LLM calls. Only their list of titles, or their failure, enters the model.
- Firebase initialisation, the context plumbing and `ContentContext` are not part of this model. The catalog is an argument; its ordering is the backend's.
- The static catalog of `src/lib/data`, which the watchlist page reads, is not part of this model; it is an argument.
- The signup, profile and settings pages are not modelled. Their handlers are I/O sequences, and their guards repeat the admin page's redirect shape.
- Presentation-only components are not modelled (layout, header, footer, hero, carousel, grid).
- Rating formatting with `toFixed` and the relative-time label from `formatDistanceToNow` are not modelled. Both are float or date-library formatting.
- Case mapping covers ASCII letters only. Full Unicode `toLowerCase`/`toUpperCase` is not modelled.
- String lengths count characters, not UTF-16 code units.
- A review's rating is an integer. The schema would also take a fractional number, which the star input never produces.
- `ReviewsSection.FormIssues` uses the schema library's default message for a rating above 5. The source does not spell that message out.
- `Session.UserSession.OnAuthStateChanged` and `Session.UserSession.SyncProfile` split one auth callback into two steps. The render in between, when the hook has cleared its own flag but the profile effect has not run, is visible in the model as a separate state.
- `WatchlistContext.Provider` fixes the user for its lifetime. A change of user is a new provider, as a changed collection reference remounts the subscription.
- `WatchlistContext.Provider.Add` and `WatchlistContext.Provider.Remove` take the backend's answer together with the call. Two toggles dispatched before a snapshot arrives are modelled as sequential calls, not interleaved.
- Error codes and messages are always strings. A thrown value without `code` or `message` is not modelled.
- Logout in `UserNav` is not modelled. It is a sign-out I/O call followed by navigation to "/".
- `WatchlistContext.Provider.Add`: the new document's id is required to differ from every stored id. This is the backend's guarantee for generated ids; the code does not check it.
- `ReviewsSection.ReviewComposer.Submit` and `RecommendationsPage.Recommendations.Submit`: both require values the schema accepts. The form library calls the handler only after validation succeeds, and the rejection path is `FormIssues`. The review submission also requires that no submission is outstanding, because the submit button is disabled while one is.
