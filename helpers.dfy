/**
 * The pure list and string helpers of src/utils/helpers.ts: the full name,
 * the phone number format, the search filter, the four-mode stable sort, the
 * sort labels and the sort cycle.
 */
module Helpers {
  import opened JsText
  import opened UserTypes

  // ---------------------------------------------------------------------
  // formatFullName

  /** `${first} ${last}` */
  function FormatFullName(u: User): (r: string)
  {
    u.first + " " + u.last
  }

  /** The full name is the first name, one space, and the last name. */
  lemma FullNameParts(u: User)
    ensures |FormatFullName(u)| == |u.first| + 1 + |u.last|
    ensures var r := FormatFullName(u);
            r[..|u.first|] == u.first && r[|u.first|] == ' ' && r[|u.first| + 1..] == u.last
  {
  }

  /**
   * When first names hold no space, the full name determines both parts, so
   * two users tie in the name modes exactly when their names agree.
   */
  lemma {:induction false} FullNameDeterminesName(a: User, b: User)
    requires forall i :: 0 <= i < |a.first| ==> a.first[i] != ' '
    requires forall i :: 0 <= i < |b.first| ==> b.first[i] != ' '
    requires FormatFullName(a) == FormatFullName(b)
    ensures a.first == b.first && a.last == b.last
  {
    FullNameParts(a);
    FullNameParts(b);
  }

  // ---------------------------------------------------------------------
  // formatPhoneNumber

  /** `r` is `(ddd) ddd-dddd` built from the first ten of the digits `d`. */
  ghost predicate PhonePattern(r: string, d: string)
    requires |d| >= 10
  {
    && |r| == 14
    && r[0] == '(' && r[1..4] == d[..3]
    && r[4] == ')' && r[5] == ' ' && r[6..9] == d[3..6]
    && r[9] == '-' && r[10..14] == d[6..10]
  }

  /**
   * With at least ten digits in `phone`, the North-American pattern of the
   * first ten of them (the rest are dropped); otherwise `phone` itself.
   */
  function FormatPhoneNumber(phone: string): (r: string)
    ensures |Digits(phone)| >= 10 ==> PhonePattern(r, Digits(phone))
    ensures |Digits(phone)| < 10 ==> r == phone
  {
    var d := Digits(phone);
    if |d| >= 10 then "(" + d[..3] + ") " + d[3..6] + "-" + d[6..10] else phone
  }

  /** Putting non-digits `p` and digits `a` in front of `s` adds `a` in front of its digits. */
  lemma {:induction false} DigitsOfSegment(p: string, a: string, s: string)
    requires forall i :: 0 <= i < |p| ==> !IsDigit(p[i])
    requires forall i :: 0 <= i < |a| ==> IsDigit(a[i])
    ensures Digits(p + a + s) == a + Digits(s)
  {
    DigitsOfNonDigits(p);
    DigitsOfDigitString(a);
    DigitsAppend(p, a + s);
    DigitsAppend(a, s);
    assert p + a + s == p + (a + s);
  }

  lemma {:induction false} DigitsOfPattern(a: string, b: string, c: string)
    requires forall i :: 0 <= i < |a| ==> IsDigit(a[i])
    requires forall i :: 0 <= i < |b| ==> IsDigit(b[i])
    requires forall i :: 0 <= i < |c| ==> IsDigit(c[i])
    ensures Digits("(" + a + ") " + b + "-" + c) == a + b + c
  {
    var tail := "-" + c;
    DigitsOfSegment("-", c, []);
    assert "-" + c + [] == tail;
    var mid := ") " + b + tail;
    DigitsOfSegment(") ", b, tail);
    DigitsOfSegment("(", a, mid);
    assert "(" + a + ") " + b + "-" + c == "(" + a + mid;
  }

  /** The digits of a formatted number are exactly the first ten digits of the input. */
  lemma {:induction false} FormatPhoneKeepsTenDigits(phone: string)
    requires |Digits(phone)| >= 10
    ensures Digits(FormatPhoneNumber(phone)) == Digits(phone)[..10]
  {
    var d := Digits(phone);
    DigitsOfPattern(d[..3], d[3..6], d[6..10]);
    assert d[..3] + d[3..6] + d[6..10] == d[..10];
  }

  /** Formatting an already formatted number changes nothing. */
  lemma {:induction false} FormatPhoneIdempotent(phone: string)
    ensures FormatPhoneNumber(FormatPhoneNumber(phone)) == FormatPhoneNumber(phone)
  {
    var d := Digits(phone);
    if |d| >= 10 {
      FormatPhoneKeepsTenDigits(phone);
      var r := FormatPhoneNumber(phone);
      var e := Digits(r);
      assert e == d[..10];
      assert e[..3] == d[..3] && e[3..6] == d[3..6] && e[6..10] == d[6..10];
    }
  }

  // ---------------------------------------------------------------------
  // filterUsers

  /** `a` is `b` with some elements left out, the rest in their order. */
  ghost predicate IsSubsequence<T>(a: seq<T>, b: seq<T>)
    decreases |b|
  {
    || a == []
    || (b != [] && ((a[0] == b[0] && IsSubsequence(a[1..], b[1..])) || IsSubsequence(a, b[1..])))
  }

  /** Every element of a subsequence is an element of the whole. */
  lemma {:induction false} SubsequenceMembers<T>(a: seq<T>, b: seq<T>)
    requires IsSubsequence(a, b)
    ensures forall e :: e in a ==> e in b
    decreases |b|
  {
    if a != [] {
      if a[0] == b[0] && IsSubsequence(a[1..], b[1..]) {
        SubsequenceMembers(a[1..], b[1..]);
        forall e | e in a ensures e in b {
          if e != a[0] {
            assert e in a[1..];
            assert e in b[1..];
          }
        }
      } else {
        SubsequenceMembers(a, b[1..]);
        forall e | e in a ensures e in b {
          assert e in b[1..];
        }
      }
    }
  }

  /** The filter predicate, for a term already lowered. */
  predicate Matches(u: User, term: string)
  {
    || Includes(ToLower(u.first), term)
    || Includes(ToLower(u.last), term)
    || Includes(ToLower(u.country), term)
  }

  /** `users.filter(u => Matches(u, term))` */
  function KeepMatching(users: seq<User>, term: string): (r: seq<User>)
    ensures |r| <= |users|
    ensures IsSubsequence(r, users)
    ensures forall u :: multiset(r)[u] == if Matches(u, term) then multiset(users)[u] else 0
    ensures forall u :: u in r <==> u in users && Matches(u, term)
  {
    if users == [] then
      []
    else
      var rest := KeepMatching(users[1..], term);
      assert users == [users[0]] + users[1..];
      if Matches(users[0], term) then [users[0]] + rest else rest
  }

  /**
   * A blank term gives back the list itself; any other term keeps, in
   * order, exactly the users whose lowered first name, last name or country
   * contains the lowered (untrimmed) term.
   */
  function FilterUsers(users: seq<User>, searchTerm: string): (r: seq<User>)
    ensures IsBlank(searchTerm) ==> r == users
    ensures |r| <= |users|
    ensures !IsBlank(searchTerm) ==> IsSubsequence(r, users)
    ensures !IsBlank(searchTerm) ==>
      forall u :: multiset(r)[u] == if Matches(u, ToLower(searchTerm)) then multiset(users)[u] else 0
    ensures !IsBlank(searchTerm) ==> forall u :: u in r <==> u in users && Matches(u, ToLower(searchTerm))
  {
    if IsBlank(searchTerm) then users else KeepMatching(users, ToLower(searchTerm))
  }

  /** The term is lowered but not trimmed: " bob" finds no Bob Smith of USA. */
  lemma FilterTermNotTrimmed()
    ensures FilterUsers([User("a", "a", "Bob", "Smith", "USA")], " bob") == []
  {
    assert !IsBlank(" bob") by { assert !IsJsWhitespace(" bob"[1]); }
    assert ToLower(" bob") == " bob";
    NotIncludedWithoutFirstChar(ToLower("Smith"), " bob");
  }

  lemma {:induction false} KeepMatchingIdempotent(users: seq<User>, term: string)
    ensures KeepMatching(KeepMatching(users, term), term) == KeepMatching(users, term)
  {
    if users != [] {
      KeepMatchingIdempotent(users[1..], term);
    }
  }

  /** Filtering the filtered list again with the same term changes nothing. */
  lemma {:induction false} FilterUsersIdempotent(users: seq<User>, searchTerm: string)
    ensures FilterUsers(FilterUsers(users, searchTerm), searchTerm) == FilterUsers(users, searchTerm)
  {
    if !IsBlank(searchTerm) {
      KeepMatchingIdempotent(users, ToLower(searchTerm));
    }
  }

  // ---------------------------------------------------------------------
  // sortUsers

  /** The compared string: the full name for the name modes, the country otherwise. */
  function SortKey(u: User, o: SortOption): (key: string)
  {
    if o == NameAsc || o == NameDesc then FormatFullName(u) else u.country
  }

  predicate IsAscending(o: SortOption)
  {
    o == NameAsc || o == CountryAsc
  }

  /**
   * The comparator of mode `o` does not put `b` before `a` (`cmp(a, b) <= 0`):
   * `ka.localeCompare(kb)` for the ascending modes, `kb.localeCompare(ka)`
   * for the descending ones.
   */
  predicate InOrder(o: SortOption, a: User, b: User)
  {
    if IsAscending(o) then LexLe(SortKey(a, o), SortKey(b, o)) else LexLe(SortKey(b, o), SortKey(a, o))
  }

  lemma InOrderReflexive(o: SortOption, a: User)
    ensures InOrder(o, a, a)
  {
    LexLeReflexive(SortKey(a, o));
  }

  lemma InOrderTotal(o: SortOption, a: User, b: User)
    ensures InOrder(o, a, b) || InOrder(o, b, a)
  {
    LexLeTotal(SortKey(a, o), SortKey(b, o));
  }

  lemma InOrderTransitive(o: SortOption, a: User, b: User, c: User)
    requires InOrder(o, a, b) && InOrder(o, b, c)
    ensures InOrder(o, a, c)
  {
    if IsAscending(o) {
      LexLeTransitive(SortKey(a, o), SortKey(b, o), SortKey(c, o));
    } else {
      LexLeTransitive(SortKey(c, o), SortKey(b, o), SortKey(a, o));
    }
  }

  /** Every pair of `s` is in the order of mode `o`. */
  ghost predicate Sorted(o: SortOption, s: seq<User>)
  {
    forall i, j :: 0 <= i < j < |s| ==> InOrder(o, s[i], s[j])
  }

  /** Puts `x` before the first element it may precede, so ahead of every tie. */
  function Insert(o: SortOption, x: User, ys: seq<User>): (r: seq<User>)
    ensures multiset(r) == multiset(ys) + multiset{x}
  {
    if ys == [] then
      [x]
    else if InOrder(o, x, ys[0]) then
      [x] + ys
    else
      assert ys == [ys[0]] + ys[1..];
      [ys[0]] + Insert(o, x, ys[1..])
  }

  /**
   * `[...users].sort(cmp)` for the comparator of mode `o`: a stable sort,
   * here insertion sort; a permutation of its input.
   */
  function SortUsers(users: seq<User>, o: SortOption): (r: seq<User>)
    ensures multiset(r) == multiset(users)
  {
    if users == [] then
      []
    else
      assert users == [users[0]] + users[1..];
      Insert(o, users[0], SortUsers(users[1..], o))
  }

  /** `y` may precede every element of the sorted `ys` when it may precede the first. */
  lemma {:induction false} PrecedesSorted(o: SortOption, y: User, ys: seq<User>)
    requires Sorted(o, ys) && ys != [] && InOrder(o, y, ys[0])
    ensures forall j :: 0 <= j < |ys| ==> InOrder(o, y, ys[j])
  {
    forall j | 0 < j < |ys| ensures InOrder(o, y, ys[j]) {
      InOrderTransitive(o, y, ys[0], ys[j]);
    }
  }

  /** Prepending to a sorted list an element that may precede all of it keeps it sorted. */
  lemma {:induction false} SortedCons(o: SortOption, y: User, ys: seq<User>)
    requires Sorted(o, ys)
    requires forall j :: 0 <= j < |ys| ==> InOrder(o, y, ys[j])
    ensures Sorted(o, [y] + ys)
  {
    var r := [y] + ys;
    forall i, j | 0 <= i < j < |r| ensures InOrder(o, r[i], r[j]) {
      assert r[j] == ys[j - 1];
      if i == 0 {
        assert r[i] == y;
      } else {
        assert r[i] == ys[i - 1];
      }
    }
  }

  lemma {:induction false} InsertSorted(o: SortOption, x: User, ys: seq<User>)
    requires Sorted(o, ys)
    ensures Sorted(o, Insert(o, x, ys))
    decreases |ys|
  {
    if ys == [] {
    } else if InOrder(o, x, ys[0]) {
      PrecedesSorted(o, x, ys);
      SortedCons(o, x, ys);
    } else {
      InOrderTotal(o, x, ys[0]);
      var tail := ys[1..];
      assert Sorted(o, tail);
      InsertSorted(o, x, tail);
      var rest := Insert(o, x, tail);
      forall j | 0 <= j < |rest| ensures InOrder(o, ys[0], rest[j]) {
        var y := rest[j];
        assert y in multiset(rest);
        if y != x {
          assert y in multiset(tail);
          var k :| 0 <= k < |tail| && tail[k] == y;
          assert ys[k + 1] == y;
        }
      }
      SortedCons(o, ys[0], rest);
    }
  }

  /** The result of every mode is in that mode's order. */
  lemma {:induction false} SortUsersSorted(users: seq<User>, o: SortOption)
    ensures Sorted(o, SortUsers(users, o))
  {
    if users != [] {
      SortUsersSorted(users[1..], o);
      InsertSorted(o, users[0], SortUsers(users[1..], o));
    }
  }

  /** The users of `s` whose sort key in mode `o` is `k`, in their order in `s`. */
  function WithKey(s: seq<User>, o: SortOption, k: string): (r: seq<User>)
  {
    if s == [] then []
    else (if SortKey(s[0], o) == k then [s[0]] else []) + WithKey(s[1..], o, k)
  }

  lemma {:induction false} WithKeyCons(y: User, s: seq<User>, o: SortOption, k: string)
    ensures WithKey([y] + s, o, k) == (if SortKey(y, o) == k then [y] else []) + WithKey(s, o, k)
  {
    assert ([y] + s)[1..] == s;
  }

  lemma {:induction false} InsertWithKey(o: SortOption, x: User, ys: seq<User>, k: string)
    ensures WithKey(Insert(o, x, ys), o, k)
         == if SortKey(x, o) == k then [x] + WithKey(ys, o, k) else WithKey(ys, o, k)
    decreases |ys|
  {
    if ys == [] {
      WithKeyCons(x, [], o, k);
    } else if InOrder(o, x, ys[0]) {
      WithKeyCons(x, ys, o, k);
    } else {
      var rest := Insert(o, x, ys[1..]);
      assert Insert(o, x, ys) == [ys[0]] + rest;
      WithKeyCons(ys[0], rest, o, k);
      InsertWithKey(o, x, ys[1..], k);
      if SortKey(x, o) == k {
        LexLeReflexive(k);
        assert SortKey(ys[0], o) != k;
      }
    }
  }

  /**
   * Stability: for every key, the users carrying it appear in the result in
   * the order they had in the input.
   */
  lemma {:induction false} SortUsersStable(users: seq<User>, o: SortOption, k: string)
    ensures WithKey(SortUsers(users, o), o, k) == WithKey(users, o, k)
  {
    if users != [] {
      var x, sorted := users[0], SortUsers(users[1..], o);
      assert SortUsers(users, o) == Insert(o, x, sorted);
      assert WithKey(users, o, k) == (if SortKey(x, o) == k then [x] else []) + WithKey(users[1..], o, k);
      SortUsersStable(users[1..], o, k);
      InsertWithKey(o, x, sorted, k);
    }
  }

  /** A list already in the order of mode `o` is left as it is. */
  lemma {:induction false} SortUsersOfSorted(users: seq<User>, o: SortOption)
    requires Sorted(o, users)
    ensures SortUsers(users, o) == users
  {
    if users != [] {
      assert Sorted(o, users[1..]);
      SortUsersOfSorted(users[1..], o);
      if |users| > 1 {
        assert InOrder(o, users[0], users[1]);
      }
      assert [users[0]] + users[1..] == users;
    }
  }

  /** Sorting the sorted list again with the same mode changes nothing. */
  lemma {:induction false} SortUsersIdempotent(users: seq<User>, o: SortOption)
    ensures SortUsers(SortUsers(users, o), o) == SortUsers(users, o)
  {
    SortUsersSorted(users, o);
    SortUsersOfSorted(SortUsers(users, o), o);
  }

  // ---------------------------------------------------------------------
  // getSortOptionLabel, getNextSortOption

  function GetSortOptionLabel(o: SortOption): (r: string)
    ensures |r| > 0
  {
    match o
    case NameAsc => "Name (A-Z)"
    case NameDesc => "Name (Z-A)"
    case CountryAsc => "Country (A-Z)"
    case CountryDesc => "Country (Z-A)"
  }

  /** Each mode has its own label. */
  lemma SortOptionLabelsDistinct(a: SortOption, b: SortOption)
    requires a != b
    ensures GetSortOptionLabel(a) != GetSortOptionLabel(b)
  {
    var la, lb := GetSortOptionLabel(a), GetSortOptionLabel(b);
    if la[0] == lb[0] {
      assert la[6] != lb[6] || la[9] != lb[9];
    }
  }

  const SortCycle: seq<SortOption> := [NameAsc, NameDesc, CountryAsc, CountryDesc]

  /** `sortCycle.indexOf(o)`: the first position holding `o` (every mode is present). */
  function CycleIndex(o: SortOption): (i: nat)
    ensures i < |SortCycle| && SortCycle[i] == o
    ensures forall j :: 0 <= j < i ==> SortCycle[j] != o
  {
    match o
    case NameAsc => 0
    case NameDesc => 1
    case CountryAsc => 2
    case CountryDesc => 3
  }

  /** `sortCycle[(indexOf(o) + 1) % 4]`: nameAsc, nameDesc, countryAsc, countryDesc, nameAsc. */
  function GetNextSortOption(o: SortOption): (r: SortOption)
    ensures r != o
    ensures r == match o
                 case NameAsc => NameDesc
                 case NameDesc => CountryAsc
                 case CountryAsc => CountryDesc
                 case CountryDesc => NameAsc
  {
    SortCycle[(CycleIndex(o) + 1) % |SortCycle|]
  }

  /** Four steps of the cycle visit four different modes and come back to the start. */
  lemma NextSortOptionCycle(o: SortOption)
    ensures GetNextSortOption(GetNextSortOption(GetNextSortOption(GetNextSortOption(o)))) == o
    ensures |{o, GetNextSortOption(o), GetNextSortOption(GetNextSortOption(o)),
              GetNextSortOption(GetNextSortOption(GetNextSortOption(o)))}| == 4
  {
  }
}
