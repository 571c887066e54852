/**
 * The profile-collection state manager of src/hooks/useUserProfiles.ts.
 *
 * The pure parts are functions: the local id each fetched profile gets, the
 * uuid-collision renaming on append, removal by uuid, the minimum-duration
 * arithmetic and the derived view. The state record `UserProfilesState` is a
 * class whose methods make the same field updates, in the same order, as the
 * hook's actions. Network results, freshly minted ids, elapsed time and timer
 * expiry are parameters and events; every action runs to completion at once.
 */
module UserProfiles {
  import opened JsText
  import opened UserTypes
  import opened Helpers
  import InfiniteScroll

  // ---------------------------------------------------------------------
  // Constants of the hook

  /** The minimum durations of `executeWithMinDuration`, in milliseconds. */
  const GenerateMinDuration := 300
  const ButtonLoadMinDuration := 300
  const ScrollLoadMinDuration := 900

  const FetchUsersFallback := "Failed to fetch users"
  const GenerateFallback := "Failed to generate new profile"
  const LoadMoreFallback := "Failed to load more profiles"
  /**
   * The `TypeError` raised by `response.results[0].login` when the response
   * holds no result (the message is V8's).
   */
  const MissingResultMessage := "Cannot read properties of undefined (reading 'login')"

  // ---------------------------------------------------------------------
  // What the environment supplies

  /** What an awaited call threw: an `Error` with its message, or any other value. */
  datatype Thrown = ErrorObject(message: string) | OtherValue

  /** `err instanceof Error ? err.message : fallback` */
  function ErrorText(t: Thrown, fallback: string): (r: string)
    ensures t.ErrorObject? ==> r == t.message
    ensures t.OtherValue? ==> r == fallback
  {
    match t
    case ErrorObject(m) => m
    case OtherValue => fallback
  }

  /** The outcome of one call to the remote profile source. */
  datatype FetchOutcome = Fetched(results: seq<User>) | Failed(thrown: Thrown)

  /**
   * The values `generateUniqueId()` would return for one fetched profile: the
   * id used when its uuid is empty, and the id and uuid it gets when renamed.
   */
  datatype MintedIds = MintedIds(forMissingUuid: string, renamedId: string, renamedUuid: string)

  // ---------------------------------------------------------------------
  // executeWithMinDuration

  /**
   * `Math.max(0, minDuration - elapsedTime)`: how long the loading flag is
   * still held once the operation is over. Zero, meaning an immediate
   * release, exactly when the operation took at least `minDuration`;
   * otherwise the flag is released `minDuration` after the start.
   */
  function RemainingTime(minDuration: int, elapsed: int): (r: int)
    ensures r >= 0
    ensures r == 0 <==> elapsed >= minDuration
    ensures r > 0 ==> elapsed + r == minDuration
  {
    if minDuration - elapsed > 0 then minDuration - elapsed else 0
  }

  /** `isFromButton ? 300 : 900` */
  function LoadMoreMinDuration(isFromButton: bool): (d: int)
    ensures d == if isFromButton then ButtonLoadMinDuration else ScrollLoadMinDuration
  {
    if isFromButton then 300 else 900
  }

  // ---------------------------------------------------------------------
  // Local ids and uuid collisions

  /** `{ ...user, id: user.login.uuid || generateUniqueId() }` */
  function WithLocalId(u: User, minted: string): (r: User)
    ensures r.id == if u.uuid != "" then u.uuid else minted
    ensures r.(id := u.id) == u
  {
    u.(id := if u.uuid != "" then u.uuid else minted)
  }

  /** The batch with a local id on each profile, nothing else changed. */
  function WithLocalIds(batch: seq<User>, ids: seq<MintedIds>): (r: seq<User>)
    requires |ids| == |batch|
    ensures |r| == |batch|
    ensures forall i :: 0 <= i < |r| ==> r[i] == WithLocalId(batch[i], ids[i].forMissingUuid)
  {
    seq(|batch|, i requires 0 <= i < |batch| => WithLocalId(batch[i], ids[i].forMissingUuid))
  }

  /** `users.some(u => u.login.uuid === uuid)` */
  predicate UuidInUse(users: seq<User>, uuid: string)
  {
    exists e :: e in users && e.uuid == uuid
  }

  /**
   * A newcomer whose uuid is already used by an existing profile is admitted
   * under a fresh id and a fresh uuid; any other newcomer is admitted as it is.
   */
  function ResolveCollision(existing: seq<User>, u: User, m: MintedIds): (r: User)
    ensures UuidInUse(existing, u.uuid) ==> r == u.(id := m.renamedId, uuid := m.renamedUuid)
    ensures !UuidInUse(existing, u.uuid) ==> r == u
  {
    if UuidInUse(existing, u.uuid) then u.(id := m.renamedId, uuid := m.renamedUuid) else u
  }

  /**
   * `newUsers.map(...)` of load-more: same length, and each element is
   * renamed iff its uuid collides with a profile already in `existing`.
   * Elements of the batch are never checked against one another.
   */
  function ResolveCollisions(existing: seq<User>, batch: seq<User>, ids: seq<MintedIds>): (r: seq<User>)
    requires |ids| == |batch|
    ensures |r| == |batch|
    ensures forall i :: 0 <= i < |r| ==> r[i] == ResolveCollision(existing, batch[i], ids[i])
  {
    seq(|batch|, i requires 0 <= i < |batch| => ResolveCollision(existing, batch[i], ids[i]))
  }

  /** No two profiles share a uuid. */
  ghost predicate UniqueUuids(users: seq<User>)
  {
    forall i, j :: 0 <= i < j < |users| ==> users[i].uuid != users[j].uuid
  }

  /** The minted uuids are used neither by `existing` nor by the batch, nor twice. */
  ghost predicate FreshRenames(existing: seq<User>, batch: seq<User>, ids: seq<MintedIds>)
  {
    && (forall i :: 0 <= i < |ids| ==> !UuidInUse(existing, ids[i].renamedUuid))
    && (forall i :: 0 <= i < |ids| ==> !UuidInUse(batch, ids[i].renamedUuid))
    && (forall i, j :: 0 <= i < j < |ids| ==> ids[i].renamedUuid != ids[j].renamedUuid)
  }

  /**
   * Appending a resolved batch keeps the uuids unique, provided the batch has
   * no duplicate of its own and the minted uuids really are fresh; the source
   * checks neither.
   */
  lemma {:induction false} AppendKeepsUuidsUnique(existing: seq<User>, batch: seq<User>, ids: seq<MintedIds>)
    requires |ids| == |batch|
    requires UniqueUuids(existing) && UniqueUuids(batch) && FreshRenames(existing, batch, ids)
    ensures UniqueUuids(existing + ResolveCollisions(existing, batch, ids))
  {
    var added := ResolveCollisions(existing, batch, ids);
    var all := existing + added;
    forall i, j | 0 <= i < j < |all| ensures all[i].uuid != all[j].uuid {
      if j >= |existing| {
        var b := j - |existing|;
        if i < |existing| {
          assert existing[i] in existing;
          if !UuidInUse(existing, batch[b].uuid) {
            assert all[j].uuid == batch[b].uuid;
          }
        } else {
          var a := i - |existing|;
          var ca, cb := UuidInUse(existing, batch[a].uuid), UuidInUse(existing, batch[b].uuid);
          if ca && !cb {
            assert batch[b] in batch;
          } else if !ca && cb {
            assert batch[a] in batch;
          }
        }
      }
    }
  }

  /**
   * `generateNewProfile` appends one resolved profile: uuids stay unique when
   * the minted uuid is fresh for the list and differs from the newcomer's.
   */
  lemma {:induction false} AppendOneKeepsUuidsUnique(existing: seq<User>, u: User, m: MintedIds)
    requires UniqueUuids(existing)
    requires !UuidInUse(existing, m.renamedUuid) && m.renamedUuid != u.uuid
    ensures UniqueUuids(existing + [ResolveCollision(existing, u, m)])
  {
    forall e | e in [u] ensures e.uuid != m.renamedUuid {
      assert e == u;
    }
    assert ResolveCollisions(existing, [u], [m]) == [ResolveCollision(existing, u, m)];
    AppendKeepsUuidsUnique(existing, [u], [m]);
  }

  /** Local ids leave every uuid alone, so a batch without duplicates stays without. */
  lemma {:induction false} WithLocalIdsKeepsUuids(batch: seq<User>, ids: seq<MintedIds>)
    requires |ids| == |batch|
    ensures forall i :: 0 <= i < |batch| ==> WithLocalIds(batch, ids)[i].uuid == batch[i].uuid
    ensures UniqueUuids(WithLocalIds(batch, ids)) <==> UniqueUuids(batch)
  {
    var r := WithLocalIds(batch, ids);
    forall i | 0 <= i < |batch| ensures r[i].uuid == batch[i].uuid {
      assert r[i].(id := batch[i].id) == batch[i];
    }
  }

  /** Two profiles of one batch with the same new uuid are both admitted unchanged. */
  lemma DuplicateWithinBatchSurvives(u: User, m1: MintedIds, m2: MintedIds)
    ensures ResolveCollisions([], [u, u], [m1, m2]) == [u, u]
    ensures !UniqueUuids(ResolveCollisions([], [u, u], [m1, m2]))
  {
    var r := ResolveCollisions([], [u, u], [m1, m2]);
    assert !UuidInUse([], u.uuid);
    assert r[0] == u && r[1] == u;
  }

  // ---------------------------------------------------------------------
  // deleteUser

  /** `users.filter(u => u.login.uuid !== uuid)` */
  function RemoveByUuid(users: seq<User>, uuid: string): (r: seq<User>)
    ensures IsSubsequence(r, users)
    ensures !UuidInUse(r, uuid)
    ensures !UuidInUse(users, uuid) ==> r == users
  {
    if users == [] then
      []
    else
      var rest := RemoveByUuid(users[1..], uuid);
      assert !UuidInUse(users, uuid) ==> !UuidInUse(users[1..], uuid) by {
        if UuidInUse(users[1..], uuid) {
          var e :| e in users[1..] && e.uuid == uuid;
          assert e in users;
        }
      }
      if users[0].uuid != uuid then [users[0]] + rest else rest
  }

  /** Removal keeps every occurrence of a profile with another uuid. */
  lemma {:induction false} RemoveByUuidKeepsOthers(users: seq<User>, uuid: string, u: User)
    requires u.uuid != uuid
    ensures multiset(RemoveByUuid(users, uuid))[u] == multiset(users)[u]
  {
    if users != [] {
      RemoveByUuidKeepsOthers(users[1..], uuid, u);
      assert users == [users[0]] + users[1..];
    }
  }

  /** A subsequence of a list with unique uuids has unique uuids. */
  lemma {:induction false} SubsequenceKeepsUuidsUnique(a: seq<User>, b: seq<User>)
    requires IsSubsequence(a, b) && UniqueUuids(b)
    ensures UniqueUuids(a)
    decreases |b|
  {
    if a != [] {
      if a[0] == b[0] && IsSubsequence(a[1..], b[1..]) {
        assert UniqueUuids(b[1..]) by {
          forall i, j | 0 <= i < j < |b[1..]| ensures b[1..][i].uuid != b[1..][j].uuid {
            assert b[1..][i] == b[i + 1] && b[1..][j] == b[j + 1];
          }
        }
        SubsequenceKeepsUuidsUnique(a[1..], b[1..]);
        SubsequenceMembers(a[1..], b[1..]);
        forall i, j | 0 <= i < j < |a| ensures a[i].uuid != a[j].uuid {
          if i == 0 {
            assert a[j] == a[1..][j - 1];
            assert a[j] in b[1..];
            var k :| 0 <= k < |b[1..]| && b[1..][k] == a[j];
            assert b[k + 1] == a[j];
          } else {
            assert a[i] == a[1..][i - 1] && a[j] == a[1..][j - 1];
          }
        }
      } else {
        assert UniqueUuids(b[1..]) by {
          forall i, j | 0 <= i < j < |b[1..]| ensures b[1..][i].uuid != b[1..][j].uuid {
            assert b[1..][i] == b[i + 1] && b[1..][j] == b[j + 1];
          }
        }
        SubsequenceKeepsUuidsUnique(a, b[1..]);
      }
    }
  }

  /** Removal never introduces a shared uuid. */
  lemma {:induction false} RemoveByUuidKeepsUuidsUnique(users: seq<User>, uuid: string)
    requires UniqueUuids(users)
    ensures UniqueUuids(RemoveByUuid(users, uuid))
  {
    SubsequenceKeepsUuidsUnique(RemoveByUuid(users, uuid), users);
  }

  /** `prevState.selectedUser?.login.uuid === userId` */
  predicate SelectionHasUuid(selected: Option<User>, uuid: string)
  {
    selected.Some? && selected.value.uuid == uuid
  }

  // ---------------------------------------------------------------------
  // The state record and its derived view

  datatype UserProfilesState = UserProfilesState(
    users: seq<User>,
    loading: bool,
    loadingMore: bool,
    loadingMoreButton: bool,
    loadingNewProfile: bool,
    error: Option<string>,
    searchTerm: string,
    sortOption: SortOption,
    selectedUser: Option<User>,
    isModalOpen: bool,
    currentPage: int)

  const InitialState := UserProfilesState([], false, false, false, false, None, "", NameAsc, None, false, 1)

  /**
   * The list handed to the grid, `sortUsers(filterUsers(users, searchTerm),
   * sortOption)`: the matching profiles, in the order of the sort mode.
   */
  function DisplayUsers(s: UserProfilesState): (r: seq<User>)
    ensures multiset(r) == multiset(FilterUsers(s.users, s.searchTerm))
    ensures Sorted(s.sortOption, r)
  {
    SortUsersSorted(FilterUsers(s.users, s.searchTerm), s.sortOption);
    SortUsers(FilterUsers(s.users, s.searchTerm), s.sortOption)
  }

  /** `userCount`: the length of the filtered list, which is that of the displayed one. */
  function UserCount(s: UserProfilesState): (n: nat)
    ensures n == |DisplayUsers(s)|
    ensures n <= |s.users|
  {
    var filtered := FilterUsers(s.users, s.searchTerm);
    assert |multiset(DisplayUsers(s))| == |multiset(filtered)|;
    |filtered|
  }

  /** The count does not depend on the sort mode. */
  lemma UserCountIgnoresSort(s: UserProfilesState, o: SortOption)
    ensures UserCount(s.(sortOption := o)) == UserCount(s)
  {
  }

  /** Two sample profiles: Bob Smith of USA and Amy Jones of UK. */
  const SampleBob := User("a", "a", "Bob", "Smith", "USA")
  const SampleAmy := User("b", "b", "Amy", "Jones", "UK")

  /** With no search term both samples are shown, Amy before Bob by name. */
  lemma DerivedViewUnfiltered()
    ensures DisplayUsers(InitialState.(users := [SampleBob, SampleAmy])) == [SampleAmy, SampleBob]
    ensures UserCount(InitialState.(users := [SampleBob, SampleAmy])) == 2
  {
    assert IsBlank("");
    assert FormatFullName(SampleBob)[0] == 'B' && FormatFullName(SampleAmy)[0] == 'A';
    assert !InOrder(NameAsc, SampleBob, SampleAmy);
    assert SortUsers([SampleAmy], NameAsc) == [SampleAmy];
    assert SortUsers([SampleBob, SampleAmy], NameAsc) == Insert(NameAsc, SampleBob, [SampleAmy]);
  }

  /** Of the two samples, only Bob matches "usa", through his country. */
  lemma SampleMatches()
    ensures Matches(SampleBob, "usa") && !Matches(SampleAmy, "usa")
  {
    assert ToLower("USA") == "usa";
    assert Includes("usa", "usa") by { assert OccursAt("usa", "usa", 0); }
    assert ToLower("Amy") == "amy" && ToLower("Jones") == "jones" && ToLower("UK") == "uk";
    NotIncludedWithoutFirstChar("amy", "usa");
    NotIncludedWithoutFirstChar("jones", "usa");
  }

  lemma SampleSearchMatches()
    ensures FilterUsers([SampleBob, SampleAmy], "usa") == [SampleBob]
  {
    assert !IsBlank("usa") by { assert !IsJsWhitespace("usa"[0]); }
    assert ToLower("usa") == "usa";
    SampleMatches();
    assert KeepMatching([SampleAmy], "usa") == [];
  }

  /** The term "usa" shows only Bob, whatever the sort mode. */
  lemma DerivedViewSearch(o: SortOption)
    ensures DisplayUsers(InitialState.(users := [SampleBob, SampleAmy], searchTerm := "usa", sortOption := o))
            == [SampleBob]
    ensures UserCount(InitialState.(users := [SampleBob, SampleAmy], searchTerm := "usa", sortOption := o)) == 1
  {
    SampleSearchMatches();
    assert SortUsers([SampleBob], o) == [SampleBob];
  }

  /** `hasUsers`: the collection itself, not the filtered view, being non-empty. */
  predicate HasUsers(s: UserProfilesState)
  {
    |s.users| > 0
  }

  /** The options passed to `useInfiniteScroll` (src/hooks/useUserProfiles.ts:274-280). */
  function ScrollHookInputs(s: UserProfilesState): (r: InfiniteScroll.ScrollInputs)
    ensures r.isLoading == s.loadingMore
    ensures r.hasItems == HasUsers(s)
    ensures r.enabled && r.threshold == InfiniteScroll.DefaultThreshold
  {
    InfiniteScroll.ScrollInputs(true, |s.users| > 0, s.loadingMore, InfiniteScroll.DefaultThreshold)
  }

  /** A button-triggered load does not hold back the scroll trigger. */
  lemma ScrollIgnoresButtonLoad(s: UserProfilesState, b: bool)
    ensures ScrollHookInputs(s.(loadingMoreButton := b)) == ScrollHookInputs(s)
  {
  }

  /** The users effect: the list is written to storage only when it is non-empty. */
  function PersistedUsers(stored: seq<User>, users: seq<User>): (r: seq<User>)
    ensures |users| > 0 ==> r == users
    ensures |users| == 0 ==> r == stored
  {
    if |users| > 0 then users else stored
  }

  /** The three local-storage entries. */
  datatype StoredEntries = StoredEntries(users: seq<User>, searchTerm: string, sortOption: SortOption)

  /** The loading flags given a delayed release. */
  datatype LoadingFlag = NewProfileFlag | LoadMoreFlag | LoadMoreButtonFlag

  // ---------------------------------------------------------------------
  // The hook's state, updated in place

  class UserProfilesStore {
    var users: seq<User>
    var loading: bool
    var loadingMore: bool
    var loadingMoreButton: bool
    var loadingNewProfile: bool
    var error: Option<string>
    var searchTerm: string
    var sortOption: SortOption
    var selectedUser: Option<User>
    var isModalOpen: bool
    var currentPage: int

    /** What local storage holds under the users, search and sort keys. */
    var storedUsers: seq<User>
    var storedSearchTerm: string
    var storedSortOption: SortOption

    function State(): (s: UserProfilesState)
      reads this
    {
      UserProfilesState(users, loading, loadingMore, loadingMoreButton, loadingNewProfile,
                        error, searchTerm, sortOption, selectedUser, isModalOpen, currentPage)
    }

    function Storage(): (e: StoredEntries)
      reads this
    {
      StoredEntries(storedUsers, storedSearchTerm, storedSortOption)
    }

    /**
     * The page cursor never drops below 1, the detail view is open exactly
     * when a profile is selected, and a non-empty list is what storage holds.
     */
    ghost predicate Valid()
      reads this
    {
      && currentPage >= 1
      && (isModalOpen <==> selectedUser.Some?)
      && (|users| > 0 ==> storedUsers == users)
    }

    /** `initialState`, over whatever local storage already holds. */
    constructor (stored: StoredEntries)
      ensures Valid()
      ensures State() == InitialState && Storage() == stored
    {
      users, loading, loadingMore, loadingMoreButton, loadingNewProfile := [], false, false, false, false;
      error, searchTerm, sortOption, selectedUser, isModalOpen, currentPage := None, "", NameAsc, None, false, 1;
      storedUsers, storedSearchTerm, storedSortOption := stored.users, stored.searchTerm, stored.sortOption;
    }

    /** The effect on `state.users`. */
    method PersistUsers()
      modifies this`storedUsers
      ensures storedUsers == PersistedUsers(old(storedUsers), users)
    {
      if |users| > 0 {
        storedUsers := users;
      }
    }

    /**
     * The mount effect: adopt the saved search term and sort option, then the
     * saved list when it is non-empty, and fetch the first batch otherwise.
     */
    method Mount(outcome: FetchOutcome, ids: seq<MintedIds>) returns (fetched: bool)
      requires Valid() && State() == InitialState
      requires outcome.Fetched? ==> |ids| == |outcome.results|
      modifies this`searchTerm, this`sortOption, this`users, this`currentPage, this`loading, this`error,
               this`storedUsers
      ensures Valid()
      ensures fetched == (|old(storedUsers)| == 0)
      ensures searchTerm == old(storedSearchTerm) && sortOption == old(storedSortOption)
      ensures !loading && currentPage == 1
      ensures !fetched ==> users == old(storedUsers) && error == None
      ensures fetched && outcome.Fetched? ==> users == WithLocalIds(outcome.results, ids) && error == None
      ensures fetched && outcome.Failed? ==> users == [] && error == Some(ErrorText(outcome.thrown, FetchUsersFallback))
      ensures storedUsers == PersistedUsers(old(storedUsers), users)
    {
      searchTerm, sortOption := storedSearchTerm, storedSortOption;
      if |storedUsers| > 0 {
        users := storedUsers;
        PersistUsers();
        fetched := false;
      } else {
        FetchInitialUsers(outcome, ids);
        fetched := true;
      }
    }

    /**
     * `fetchInitialUsers` (also the retry action): clears the error, replaces
     * the list by the batch with local ids and resets the page to 1 on
     * success, records the message on failure, and always ends not loading.
     */
    method FetchInitialUsers(outcome: FetchOutcome, ids: seq<MintedIds>)
      requires Valid()
      requires outcome.Fetched? ==> |ids| == |outcome.results|
      modifies this`users, this`currentPage, this`loading, this`error, this`storedUsers
      ensures Valid()
      ensures !loading
      ensures outcome.Fetched? ==>
        users == WithLocalIds(outcome.results, ids) && currentPage == 1 && error == None
      ensures outcome.Failed? ==>
        users == old(users) && currentPage == old(currentPage)
        && error == Some(ErrorText(outcome.thrown, FetchUsersFallback))
      ensures storedUsers == PersistedUsers(old(storedUsers), users)
    {
      loading, error := true, None;
      match outcome {
        case Fetched(results) =>
          users, currentPage := WithLocalIds(results, ids), 1;
          PersistUsers();
        case Failed(thrown) =>
          error := Some(ErrorText(thrown, FetchUsersFallback));
      }
      loading := false;
    }

    /**
     * `generateNewProfile`: on success appends exactly one profile, renamed
     * when its uuid is already in use, after the unchanged old list, and
     * holds the flag for `releaseDelay` more milliseconds (released now when
     * that is zero). On failure, including an empty response, the list is
     * untouched, the message recorded and the flag released at once.
     */
    method GenerateNewProfile(outcome: FetchOutcome, minted: MintedIds, elapsed: int) returns (releaseDelay: int)
      requires Valid()
      modifies this`users, this`error, this`loadingNewProfile, this`storedUsers
      ensures Valid()
      ensures releaseDelay == RemainingTime(GenerateMinDuration, elapsed)
      ensures outcome.Fetched? && |outcome.results| > 0 ==>
        var newUser := WithLocalId(outcome.results[0], minted.forMissingUuid);
        && users == old(users) + [ResolveCollision(old(users), newUser, minted)]
        && error == None
        && loadingNewProfile == (releaseDelay > 0)
      ensures outcome.Fetched? && |outcome.results| == 0 ==>
        users == old(users) && error == Some(MissingResultMessage) && !loadingNewProfile
      ensures outcome.Failed? ==>
        users == old(users) && error == Some(ErrorText(outcome.thrown, GenerateFallback)) && !loadingNewProfile
      ensures storedUsers == PersistedUsers(old(storedUsers), users)
    {
      loadingNewProfile, error := true, None;
      releaseDelay := RemainingTime(GenerateMinDuration, elapsed);
      match outcome
      case Fetched(results) =>
        if |results| > 0 {
          var newUser := WithLocalId(results[0], minted.forMissingUuid);
          users := users + [ResolveCollision(users, newUser, minted)];
          PersistUsers();
          if releaseDelay == 0 {
            loadingNewProfile := false;
          }
        } else {
          error, loadingNewProfile := Some(MissingResultMessage), false;
        }
      case Failed(thrown) =>
        error, loadingNewProfile := Some(ErrorText(thrown, GenerateFallback)), false;
    }

    /**
     * `loadMoreProfiles(isFromButton)`: requests the page after the current
     * one; on success appends the resolved batch after the unchanged old
     * list and advances the page to the requested one, holding the flag of
     * its trigger for `releaseDelay` more milliseconds. On failure the list
     * and page are untouched, the message recorded and both load-more flags
     * cleared.
     */
    method LoadMoreProfiles(isFromButton: bool, outcome: FetchOutcome, ids: seq<MintedIds>, elapsed: int)
      returns (requestedPage: int, releaseDelay: int)
      requires Valid()
      requires outcome.Fetched? ==> |ids| == |outcome.results|
      modifies this`users, this`currentPage, this`error, this`loadingMore, this`loadingMoreButton,
               this`storedUsers
      ensures Valid()
      ensures requestedPage == old(currentPage) + 1
      ensures releaseDelay == RemainingTime(LoadMoreMinDuration(isFromButton), elapsed)
      ensures outcome.Fetched? ==>
        && users == old(users) + ResolveCollisions(old(users), WithLocalIds(outcome.results, ids), ids)
        && currentPage == requestedPage
        && error == None
        && loadingMoreButton == (if isFromButton then releaseDelay > 0 else old(loadingMoreButton))
        && loadingMore == (if isFromButton then old(loadingMore) else releaseDelay > 0)
      ensures outcome.Failed? ==>
        && users == old(users) && currentPage == old(currentPage)
        && error == Some(ErrorText(outcome.thrown, LoadMoreFallback))
        && !loadingMore && !loadingMoreButton
      ensures storedUsers == PersistedUsers(old(storedUsers), users)
    {
      if isFromButton {
        loadingMoreButton := true;
      } else {
        loadingMore := true;
      }
      error := None;
      requestedPage := currentPage + 1;
      releaseDelay := RemainingTime(LoadMoreMinDuration(isFromButton), elapsed);
      match outcome
      case Fetched(results) =>
        var newUsers := WithLocalIds(results, ids);
        users, currentPage := users + ResolveCollisions(users, newUsers, ids), requestedPage;
        PersistUsers();
        if releaseDelay == 0 {
          if isFromButton {
            loadingMoreButton := false;
          } else {
            loadingMore := false;
          }
        }
      case Failed(thrown) =>
        error := Some(ErrorText(thrown, LoadMoreFallback));
        loadingMoreButton, loadingMore := false, false;
    }

    /** The `setTimeout` of `executeWithMinDuration` firing: the held flag is released. */
    method ReleaseLoadingFlag(flag: LoadingFlag)
      requires Valid()
      modifies this`loadingNewProfile, this`loadingMore, this`loadingMoreButton
      ensures Valid()
      ensures loadingNewProfile == (old(loadingNewProfile) && flag != NewProfileFlag)
      ensures loadingMore == (old(loadingMore) && flag != LoadMoreFlag)
      ensures loadingMoreButton == (old(loadingMoreButton) && flag != LoadMoreButtonFlag)
    {
      match flag
      case NewProfileFlag => loadingNewProfile := false;
      case LoadMoreFlag => loadingMore := false;
      case LoadMoreButtonFlag => loadingMoreButton := false;
    }

    /**
     * `deleteUser(userId)`: drops every profile with that uuid, keeping the
     * others in order, and clears the selection and closes the detail view
     * exactly when the selected profile has that uuid.
     */
    method DeleteUser(userId: string)
      requires Valid()
      modifies this`users, this`selectedUser, this`isModalOpen, this`storedUsers
      ensures Valid()
      ensures users == RemoveByUuid(old(users), userId)
      ensures SelectionHasUuid(old(selectedUser), userId) ==> selectedUser == None && !isModalOpen
      ensures !SelectionHasUuid(old(selectedUser), userId) ==>
        selectedUser == old(selectedUser) && isModalOpen == old(isModalOpen)
      ensures storedUsers == PersistedUsers(old(storedUsers), users)
    {
      var shouldCloseModal := SelectionHasUuid(selectedUser, userId);
      users := RemoveByUuid(users, userId);
      if shouldCloseModal {
        selectedUser, isModalOpen := None, false;
      }
      PersistUsers();
    }

    /**
     * `deleteAllUsers`: empties the list, clears the selection, closes the
     * detail view and writes the empty list to storage itself, since the users
     * effect skips empty lists.
     */
    method DeleteAllUsers()
      requires Valid()
      modifies this`users, this`selectedUser, this`isModalOpen, this`storedUsers
      ensures Valid()
      ensures users == [] && selectedUser == None && !isModalOpen
      ensures storedUsers == []
    {
      users, selectedUser, isModalOpen := [], None, false;
      storedUsers := [];
      PersistUsers();
    }

    /** `viewUser(user)`: selects it and opens the detail view. */
    method ViewUser(user: User)
      requires Valid()
      modifies this`selectedUser, this`isModalOpen
      ensures Valid()
      ensures selectedUser == Some(user) && isModalOpen
    {
      selectedUser, isModalOpen := Some(user), true;
    }

    /** `closeModal`: closes the detail view and clears the selection. */
    method CloseModal()
      requires Valid()
      modifies this`selectedUser, this`isModalOpen
      ensures Valid()
      ensures selectedUser == None && !isModalOpen
    {
      selectedUser, isModalOpen := None, false;
    }

    /** `setSearchTerm`, with the effect that saves it. */
    method SetSearchTerm(term: string)
      requires Valid()
      modifies this`searchTerm, this`storedSearchTerm
      ensures Valid()
      ensures searchTerm == term && storedSearchTerm == term
    {
      searchTerm := term;
      storedSearchTerm := term;
    }

    /** `setSortOption`, with the effect that saves it. */
    method SetSortOption(o: SortOption)
      requires Valid()
      modifies this`sortOption, this`storedSortOption
      ensures Valid()
      ensures sortOption == o && storedSortOption == o
    {
      sortOption := o;
      storedSortOption := o;
    }
  }

  /**
   * Deleting the last profiles one at a time leaves the last non-empty list in
   * storage; delete-all leaves the empty list there.
   */
  method DeleteOneByOneKeepsStorage(store: UserProfilesStore, u: User)
    requires store.Valid() && store.users == [u]
    modifies store
    ensures store.Valid()
    ensures store.users == [] && store.storedUsers == [u]
  {
    store.DeleteUser(u.uuid);
  }
}
