# User Profile Creator: a Dafny model of its list helpers, profile store and scroll trigger

The app shows a grid of generated user profiles. Users can search them, sort
them, add one at a time, load more by button or by scrolling, delete them and
open one in a detail view. This project models the three pieces of the app that
hold logic, and proves properties about them.

- **`Helpers`** (`helpers.dfy`, from `src/utils/helpers.ts`) holds pure functions:
  - `formatFullName` and `formatPhoneNumber`;
  - `filterUsers`, the search filter;
  - `sortUsers`, the four-mode sort, written as a stable insertion sort;
  - `getSortOptionLabel` and `getNextSortOption`, the sort labels and the cycle through the modes.
- **`UserProfiles`** (`user_profiles.dfy`, from `src/hooks/useUserProfiles.ts`) covers the profile store.
  - The pure parts are functions:
    - the local id a fetched profile gets;
    - the uuid-collision renaming on append;
    - removal by uuid;
    - the `executeWithMinDuration` delay;
    - the derived view `sortUsers(filterUsers(users, searchTerm), sortOption)`, `userCount` and `hasUsers`.
  - The state record `UserProfilesState` is the class `UserProfilesStore`:
    - its fields are the eleven fields of that record, plus what local storage holds under the users, search and sort keys;
    - each action is a method that makes the same field updates as the hook;
    - the methods are `FetchInitialUsers`, `GenerateNewProfile`, `LoadMoreProfiles`, `DeleteUser`, `DeleteAllUsers`, `ViewUser`, `CloseModal`, `SetSearchTerm`, `SetSortOption`, the mount effect and the users effect.
- **`InfiniteScroll`** (`infinite_scroll.dfy`, from `src/hooks/useInfiniteScroll.ts`) has:
  - the near-bottom test;
  - the class `ScrollTrigger`, with the `isLoadingRef` latch, `handleScroll`, `reset` and re-renders;
  - the class `Throttle`, the `inThrottle` flag of `throttle`.
- **`JsText`** (`js_text.dfy`) states the JavaScript string built-ins the helpers use, over Dafny strings, sequences of Unicode scalar values:
  - `toLowerCase`, `includes`, `trim`, `replace(/\D/g, '')` and `localeCompare`.
- **`UserTypes`** (`user_types.dfy`) holds the parts of `User` the core reads, and `SortOption` (`src/types/User.ts`).

The environment is passed in as parameters:
- A network call is one `FetchOutcome`: either the results or the value it threw.
- `generateUniqueId()` values are `MintedIds`.
- The elapsed time of an operation is an `int`.
- Scroll positions are `ScrollMetrics`.
- A timer firing is an event method.

Every action runs to completion at once. A held loading flag is released later by `ReleaseLoadingFlag`.

## Model

| member | source | states |
|---|---|---|
| Helpers.FullNameParts | src/utils/helpers.ts:3-5 | the full name is the first name, one space, then the last name |
| Helpers.FullNameDeterminesName | src/utils/helpers.ts:3-5 | when first names contain no space, equal full names mean equal first and last names, so the name modes tie exactly on equal names |
| Helpers.FormatFullName | src/utils/helpers.ts:3-5 | the template string: first name, space, last name |
| Helpers.FormatPhoneNumber | src/utils/helpers.ts:20-29 | with at least ten digits the result is `(ddd) ddd-dddd` built from the first ten digits, in order; with fewer, the input is returned unchanged |
| Helpers.FormatPhoneKeepsTenDigits | src/utils/helpers.ts:20-29 | the digits of a formatted number are exactly the first ten digits of the input; digits past the tenth are dropped |
| Helpers.FormatPhoneIdempotent | src/utils/helpers.ts:20-29 | formatting an already formatted number changes nothing |
| Helpers.Matches | src/utils/helpers.ts:36-39 | the lowered first name, last name or country includes the term |
| Helpers.SubsequenceMembers | src/utils/helpers.ts:35-40 | every element of an order-preserving subsequence is an element of the whole |
| Helpers.KeepMatching | src/utils/helpers.ts:35-40 | the filter keeps an order-preserving subsequence; each user occurs as often as in the input if it matches and not at all otherwise; a user is kept iff it is in the input and matches |
| Helpers.FilterUsers | src/utils/helpers.ts:31-41 | a blank term (only ECMAScript white space) returns the input list itself; any other term keeps, in order, exactly the users whose lowered first name, last name or country contains the lowered, untrimmed term |
| Helpers.FilterTermNotTrimmed | src/utils/helpers.ts:32-34 | the term is not trimmed: " bob" does not find Bob Smith |
| Helpers.FilterUsersIdempotent | src/utils/helpers.ts:31-41 | filtering twice with the same term equals filtering once |
| Helpers.KeepMatchingIdempotent | src/utils/helpers.ts:35-40 | applying the filter predicate twice equals applying it once |
| Helpers.SortKey | src/utils/helpers.ts:48-61 | the compared string: the full name in the name modes, the country otherwise |
| Helpers.InOrder | src/utils/helpers.ts:48-61 | the comparator returns at most 0: keys in `localeCompare` order, reversed for the descending modes |
| Helpers.InOrderTotal | src/utils/helpers.ts:46-62 | any two users are comparable by each mode's comparator |
| Helpers.InOrderTransitive | src/utils/helpers.ts:46-62 | each mode's comparator is transitive |
| Helpers.InOrderReflexive | src/utils/helpers.ts:46-62 | each mode's comparator lets a user precede itself |
| Helpers.Insert | src/utils/helpers.ts:43-66 | one insertion step of the sort adds exactly the inserted user to the multiset |
| Helpers.SortUsers | src/utils/helpers.ts:43-66 | the sorted list is a permutation of the input; the input is a value and stays as it was |
| Helpers.InsertSorted | src/utils/helpers.ts:46-62 | inserting into a list sorted in mode o keeps it sorted |
| Helpers.SortUsersSorted | src/utils/helpers.ts:46-62 | nameAsc and countryAsc give a non-decreasing order of the full name or the country; nameDesc and countryDesc give a non-increasing one |
| Helpers.InsertWithKey | src/utils/helpers.ts:46-62 | the inserted user goes ahead of every user with the same key and keeps the relative order of the rest |
| Helpers.SortUsersStable | src/utils/helpers.ts:43-66 | stability: for every key, the users with that key keep their input order |
| Helpers.SortUsersOfSorted | src/utils/helpers.ts:43-66 | a list already in mode o's order comes back unchanged |
| Helpers.SortUsersIdempotent | src/utils/helpers.ts:43-66 | sorting twice in the same mode equals sorting once |
| Helpers.GetSortOptionLabel | src/utils/helpers.ts:68-81 | every mode has a non-empty label |
| Helpers.SortOptionLabelsDistinct | src/utils/helpers.ts:68-81 | the four labels are pairwise distinct |
| Helpers.CycleIndex | src/utils/helpers.ts:84-90 | `indexOf` in the sort cycle: the first position that holds the mode |
| Helpers.GetNextSortOption | src/utils/helpers.ts:83-92 | nameAsc, nameDesc, countryAsc, countryDesc, then nameAsc again; never the argument itself |
| Helpers.NextSortOptionCycle | src/utils/helpers.ts:83-92 | four steps return to the start, and the four steps visit four distinct modes |
| JsText.ToLower | src/utils/helpers.ts:34 | lowering keeps the length and lowers each character; A-Z maps to a-z and everything else is left alone |
| JsText.Includes | src/utils/helpers.ts:37-39 | `includes` is true iff the term occurs at some index of the string |
| JsText.NotIncludedWithoutFirstChar | src/utils/helpers.ts:37-39 | a string that lacks the term's first character does not include the term |
| JsText.IsBlank | src/utils/helpers.ts:32 | `trim` leaves nothing: every character is ECMAScript white space or a line terminator |
| JsText.Digits | src/utils/helpers.ts:21 | removing non-digits leaves only ASCII digits and is never longer than the input |
| JsText.DigitsAppend | src/utils/helpers.ts:21 | digit extraction distributes over concatenation |
| JsText.DigitsOfDigitString | src/utils/helpers.ts:21 | a string made only of digits is left as it is |
| JsText.LexLe | src/utils/helpers.ts:49 | the stand-in for `localeCompare(...) <= 0`: lexicographic order on code points, a proper prefix first |
| JsText.LexLeTotal | src/utils/helpers.ts:49 | the order standing in for `localeCompare` is total |
| JsText.LexLeAntisymmetric | src/utils/helpers.ts:49 | that order is antisymmetric, so ties are equal keys |
| JsText.LexLeTransitive | src/utils/helpers.ts:49 | that order is transitive |
| UserProfiles.ErrorText | src/hooks/useUserProfiles.ts:84-87 | defined by cases: the message of a thrown `Error`, or the fallback text for any other thrown value |
| UserProfiles.RemainingTime | src/hooks/useUserProfiles.ts:20-29 | the release delay is never negative; it is zero, meaning an immediate release, iff elapsed >= minDuration; otherwise the flag is released exactly minDuration after the start |
| UserProfiles.LoadMoreMinDuration | src/hooks/useUserProfiles.ts:172 | defined by cases: 300 ms for a load from the button, 900 ms for one from scrolling |
| UserProfiles.WithLocalId | src/hooks/useUserProfiles.ts:78-81 | the local id is the uuid, or a fresh id when the uuid is empty; nothing else changes |
| UserProfiles.WithLocalIds | src/hooks/useUserProfiles.ts:78-81 | defined element by element: the batch keeps its length and each profile gets its local id |
| UserProfiles.ResolveCollision | src/hooks/useUserProfiles.ts:135-150 | defined by cases: a newcomer whose uuid is already in use gets a fresh id and a fresh uuid; any other newcomer is admitted unchanged |
| UserProfiles.ResolveCollisions | src/hooks/useUserProfiles.ts:185-200 | defined element by element: the resolved batch has the length of the returned batch; element i is renamed iff its uuid collides with a profile that existed before the call |
| UserProfiles.AppendKeepsUuidsUnique | src/hooks/useUserProfiles.ts:185-206 | appending a resolved batch keeps uuids unique, provided the batch has no duplicate of its own and the minted uuids are really fresh |
| UserProfiles.AppendOneKeepsUuidsUnique | src/hooks/useUserProfiles.ts:135-151 | appending the one generated profile keeps uuids unique when the minted uuid is fresh |
| UserProfiles.WithLocalIdsKeepsUuids | src/hooks/useUserProfiles.ts:78-82 | local ids change no uuid, so the fetched list has unique uuids iff the batch has |
| UserProfiles.UuidInUse | src/hooks/useUserProfiles.ts:136-138 | some existing profile has that uuid, as the `some` test at lines 136-138 and 185-187 |
| UserProfiles.DuplicateWithinBatchSurvives | src/hooks/useUserProfiles.ts:185-200 | collisions are not checked within a batch: two copies of one new uuid are both admitted unchanged |
| UserProfiles.RemoveByUuid | src/hooks/useUserProfiles.ts:227-229 | removal leaves an order-preserving subsequence with no profile of that uuid; an absent uuid leaves the list as it was |
| UserProfiles.RemoveByUuidKeepsUuidsUnique | src/hooks/useUserProfiles.ts:227-229 | removal keeps uuids unique, with no assumption |
| UserProfiles.SubsequenceKeepsUuidsUnique | src/hooks/useUserProfiles.ts:227-229 | any order-preserving subsequence of a list with unique uuids has unique uuids |
| UserProfiles.SelectionHasUuid | src/hooks/useUserProfiles.ts:230 | the selected profile exists and has that uuid |
| UserProfiles.RemoveByUuidKeepsOthers | src/hooks/useUserProfiles.ts:227-229 | every profile with another uuid keeps all its occurrences |
| UserProfiles.DisplayUsers | src/hooks/useUserProfiles.ts:271-272 | the displayed list is a permutation of the filtered list, in the order of the sort mode |
| UserProfiles.UserCount | src/hooks/useUserProfiles.ts:294 | `userCount` is the length of the displayed list and never more than the number of profiles |
| UserProfiles.UserCountIgnoresSort | src/hooks/useUserProfiles.ts:271-272 | the count does not depend on the sort mode |
| UserProfiles.DerivedViewUnfiltered | src/hooks/useUserProfiles.ts:271-294 | with no search term, Bob Smith/USA and Amy Jones/UK are shown as [Amy, Bob], and the count is 2 |
| UserProfiles.SampleMatches | src/utils/helpers.ts:35-40 | "usa" matches Bob through his country and does not match Amy |
| UserProfiles.SampleSearchMatches | src/utils/helpers.ts:31-41 | filtering those two profiles by "usa" keeps only Bob |
| UserProfiles.DerivedViewSearch | src/hooks/useUserProfiles.ts:271-294 | with the term "usa" only Bob is shown, in every sort mode, and the count is 1 |
| UserProfiles.HasUsers | src/hooks/useUserProfiles.ts:293 | `hasUsers` is a non-empty collection, whatever the filter |
| UserProfiles.ScrollHookInputs | src/hooks/useUserProfiles.ts:274-280 | defined field by field: the scroll trigger is enabled, uses the default threshold and has items iff `hasUsers`; it is held back by `loadingMore` only |
| UserProfiles.ScrollIgnoresButtonLoad | src/hooks/useUserProfiles.ts:274-280 | `loadingMoreButton` has no effect on the scroll trigger |
| UserProfiles.PersistedUsers | src/hooks/useUserProfiles.ts:110-114 | defined by cases: storage receives the list only when it is non-empty |
| UserProfiles.UserProfilesStore.constructor | src/hooks/useUserProfiles.ts:50-62 | the store starts in `initialState`, over whatever storage already holds |
| UserProfiles.UserProfilesStore.PersistUsers | src/hooks/useUserProfiles.ts:110-114 | the users effect: stored users follow the list when it is non-empty and stay as they were otherwise |
| UserProfiles.UserProfilesStore.Mount | src/hooks/useUserProfiles.ts:92-108 | the saved term and sort mode are adopted; a non-empty saved list is adopted without fetching; otherwise the first batch is fetched |
| UserProfiles.UserProfilesStore.FetchInitialUsers | src/hooks/useUserProfiles.ts:73-90 | the error is cleared at the start. On success the list becomes the batch with local ids and the page becomes 1. On failure the message is recorded and the list and page are left as they were. `loading` is false in both cases |
| UserProfiles.UserProfilesStore.GenerateNewProfile | src/hooks/useUserProfiles.ts:124-162 | on success exactly one profile, renamed if its uuid is in use, is appended after the unchanged old list, and the flag is held iff the delay is positive. An empty response or a failure leaves the list as it was, records the message and releases the flag |
| UserProfiles.UserProfilesStore.LoadMoreProfiles | src/hooks/useUserProfiles.ts:164-223 | the requested page is the page at the call plus 1. On success the resolved batch is appended after the old list, the page advances and only the trigger's flag is held. On failure the list and page are left as they were, the message is recorded and both load-more flags end false |
| UserProfiles.UserProfilesStore.ReleaseLoadingFlag | src/hooks/useUserProfiles.ts:23-25 | the timer releases exactly the flag it was set for |
| UserProfiles.UserProfilesStore.DeleteUser | src/hooks/useUserProfiles.ts:225-239 | every profile with that uuid is removed. The selection is cleared and the view closed iff the selected profile has that uuid; otherwise both are untouched |
| UserProfiles.UserProfilesStore.DeleteAllUsers | src/hooks/useUserProfiles.ts:241-248 | the list is empty, nothing is selected, the view is closed and storage holds the empty list |
| UserProfiles.UserProfilesStore.ViewUser | src/hooks/useUserProfiles.ts:250-258 | the profile is selected and the view opened |
| UserProfiles.UserProfilesStore.CloseModal | src/hooks/useUserProfiles.ts:260-265 | the view is closed and the selection cleared |
| UserProfiles.UserProfilesStore.SetSearchTerm | src/hooks/useUserProfiles.ts:295 | the setter sets the term, and the effect at lines 116-118 saves it |
| UserProfiles.UserProfilesStore.SetSortOption | src/hooks/useUserProfiles.ts:296 | the setter sets the sort mode, and the effect at lines 120-122 saves it |
| UserProfiles.DeleteOneByOneKeepsStorage | src/hooks/useUserProfiles.ts:110-114 | deleting the last profile with `deleteUser` empties the list but leaves storage holding that one profile, and keeps the store's invariant |
| InfiniteScroll.ScrollTop | src/hooks/useInfiniteScroll.ts:26 | defined by cases: `pageYOffset`, falling back to the document's `scrollTop` when the offset is 0 |
| InfiniteScroll.IsNearBottom | src/hooks/useInfiniteScroll.ts:25-30 | the scroll position plus the viewport height reaches the content height minus the threshold |
| InfiniteScroll.ListenerActive | src/hooks/useInfiniteScroll.ts:44 | a listener is subscribed only when enabled and with items |
| InfiniteScroll.NearBottomThresholdMonotone | src/hooks/useInfiniteScroll.ts:25-30 | a larger threshold never turns a near-bottom position into a far one |
| InfiniteScroll.ShortPageNearBottom | src/hooks/useInfiniteScroll.ts:25-30 | with non-negative offsets, a page no taller than the viewport plus the threshold is near the bottom at every scroll position |
| InfiniteScroll.NearBottomMonotone | src/hooks/useInfiniteScroll.ts:25-30 | scrolling further down from a near-bottom position stays near the bottom |
| InfiniteScroll.ScrollLoads | src/hooks/useInfiniteScroll.ts:32-41 | defined by cases: never triggers when disabled, without items, while loading or with the latch set; otherwise triggers iff near the bottom |
| InfiniteScroll.Throttle.constructor | src/hooks/useInfiniteScroll.ts:68 | a new closure starts open, because `inThrottle` starts undefined |
| InfiniteScroll.Throttle.Call | src/hooks/useInfiniteScroll.ts:69-74 | a call is forwarded iff the throttle is open, and the throttle is closed afterwards |
| InfiniteScroll.Throttle.TimerFires | src/hooks/useInfiniteScroll.ts:73 | the timer opens the throttle |
| InfiniteScroll.ScrollTrigger.constructor | src/hooks/useInfiniteScroll.ts:19-23 | the latch starts equal to `isLoading`, and the throttle starts fresh and open |
| InfiniteScroll.ScrollTrigger.Rerender | src/hooks/useInfiniteScroll.ts:21-23 | the latch follows `isLoading` exactly when that option changed. A changed handler or option gives a new, open throttle; otherwise the old throttle is kept |
| InfiniteScroll.ScrollTrigger.HandleScroll | src/hooks/useInfiniteScroll.ts:32-41 | asks for more exactly when `ScrollLoads` holds, and sets the latch when it does; a set latch means no trigger |
| InfiniteScroll.ScrollTrigger.OnScroll | src/hooks/useInfiniteScroll.ts:43-55 | without a listener nothing happens; otherwise the event goes through the throttle and reaches `handleScroll` only when the throttle is open |
| InfiniteScroll.ScrollTrigger.Reset | src/hooks/useInfiniteScroll.ts:57-59 | `reset` clears the latch |
| InfiniteScroll.LatchHoldsUntilCleared | src/hooks/useInfiniteScroll.ts:38-39 | after a scroll that triggered, a later scroll does not trigger until the latch is cleared, even after the throttle's timer has fired |
| InfiniteScroll.ResetReopensTrigger | src/hooks/useInfiniteScroll.ts:57-59 | after `reset` and the throttle's timer, a near-bottom scroll triggers again while enabled, with items and not loading |

## Left out

- `src/services/api.ts`: the HTTP calls are not modelled. Each call becomes one `FetchOutcome`: the returned results, or the value thrown. Retries, timeouts and what the server does with the requested page are therefore absent; the page number itself is modelled as `LoadMoreProfiles`'s `requestedPage`.
- `src/utils/storage.ts`: `localStorage` and JSON are not modelled. Storage is three fields of the store. The unchecked cast of a saved sort option is not modelled, so a stored value is always one of the four modes.
- `generateUniqueId`: not modelled, because it reads the clock and a random source. Its values are `MintedIds` parameters. The source does not guarantee that they are fresh. Uuid uniqueness is proved for each operation that changes the list, on these assumptions: the load-more append (`AppendKeepsUuidsUnique`) and the generate append (`AppendOneKeepsUuidsUnique`) assume fresh minted uuids and, for load-more, a batch without duplicates. The initial fetch keeps the batch's uuids (`WithLocalIdsKeepsUuids`). Removal needs no assumption (`RemoveByUuidKeepsUuidsUnique`).
- `formatDate` and `formatAddress`: left out. They are display-only locale and number-to-string formatting.
- `JsText.ToLower`: lowers ASCII A-Z only, not the Unicode case mapping of `toLowerCase`.
- `JsText.LexLe`: stands in for `localeCompare` with lexicographic order on code points, not a locale's collation.
- `JsText`: a string is a sequence of Unicode scalar values, not of UTF-16 code units. Lone surrogates cannot occur, a character outside the Basic Multilingual Plane has length 1 rather than 2, and the order of such characters against U+E000-U+FFFF differs from UTF-16 code-unit order.
- The `default` branches of the `switch` statements in `sortUsers` and `getSortOptionLabel`, and the `indexOf` miss in `getNextSortOption`: unreachable in the model, because `SortOption` is four-valued. In the app only a stored value outside the four modes reaches them, through the unchecked cast in `loadSortOption` (`src/utils/storage.ts:51`). Such a value would give:
  - `sortUsers` returning its copy in input order;
  - the label `Sort`;
  - `getNextSortOption` returning `nameAsc`, since `indexOf` gives -1.
- Async interleavings: not modelled; each action runs to completion at once. This leaves out:
  - overlapping loads;
  - a fetch resolving after `deleteAllUsers`;
  - a stale `state.currentPage` read at `src/hooks/useUserProfiles.ts:176` when two loads overlap;
  - a timer from an earlier operation releasing a flag that a later one set. `ReleaseLoadingFlag` may fire at any time, so the model allows this but states nothing about it.
- On a failed generate or load-more, `finally` in `executeWithMinDuration` may schedule a release as well as the immediate release in `catch`. The model releases the flags at once. The later timer only sets false again.
- The throttle timer of a listener that was removed: not modelled. The timer fires into a discarded closure, so the model creates a new `Throttle`.
- The `reset` returned by `useInfiniteScroll`: modelled, but `useUserProfiles` never calls it. There, only `loadingMore` changing resets the latch.
- `retryFetch`: no separate member, because it is a direct call of `fetchInitialUsers` (`FetchInitialUsers`).
- The `.tsx` components, `src/App.tsx` and the React context plumbing: left out. They are rendering and wiring.
- `FetchInitialUsers`, which is also the retry, leaves the list as it was on failure. The list is empty after a failed fetch only on mount (`Mount`).
- Uuids stay unique only under the assumptions of `AppendKeepsUuidsUnique` and `AppendOneKeepsUuidsUnique`. `DuplicateWithinBatchSurvives` shows a batch that breaks it.
- `InfiniteScroll.ScrollTop`: offsets are exact reals, not IEEE doubles. Rounding and a `NaN` offset are not modelled. `scrollHeight`, `innerHeight` and the threshold are whole numbers.
- The requested batch sizes (3 on the initial fetch and on load-more, 1 on generate) and the throttle's 150 ms delay: not modelled. The server's answer is a parameter of any length, and timers are events.
- `UserProfiles.MissingResultMessage`: the message of the `TypeError` raised for an empty response is V8's wording. Other engines word it differently, for example Firefox's "response.results[0] is undefined".
