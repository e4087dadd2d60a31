/** The logic of frontend/src/components/DashboardPage.jsx: the entry gate and
    logout over the mock session store, the search filter, the storage
    percentage with its "available" text, and the page's own copy of
    formatBytes. Rendering, toasts and the routing library are not modelled;
    `navigate` becomes the last location the page asked for. */
module Dashboard {
  import opened Wrappers
  import opened Strings
  import opened Decimal
  import Api
  import opened MockAuth
  import opened MockData

  // ---------------------------------------------------------------------
  // The page's own formatBytes

  const LocalSizes: seq<string> := ["Bytes", "KB", "MB", "GB", "TB"]

  /** formatBytes as the page defines it again, with its own label table. */
  function FormatBytes(bytes: nat): string
  {
    if bytes == 0 then "0 Bytes"
    else
      var i := Api.UnitIndex(bytes);
      HundredthsText(Api.Hundredths(bytes)) + " " + (if i < |LocalSizes| then LocalSizes[i] else "undefined")
  }

  /** The copy computes the same function as the one in the API module. */
  lemma FormatBytesAgrees(bytes: nat)
    ensures FormatBytes(bytes) == Api.FormatBytes(bytes)
  {
  }

  // ---------------------------------------------------------------------
  // The search filter

  predicate StartsWith(s: string, t: string)
  {
    |t| <= |s| && s[..|t|] == t
  }

  /** `s.includes(t)`. */
  predicate Includes(s: string, t: string)
  {
    StartsWith(s, t) || (s != [] && Includes(s[1..], t))
  }

  /** `t` occurs in `s` starting at position i. */
  predicate OccursAt(s: string, t: string, i: nat)
  {
    i + |t| <= |s| && s[i..i + |t|] == t
  }

  /** `includes` holds exactly when `t` occurs at some position of `s`. */
  lemma {:induction false} IncludesMeaning(s: string, t: string)
    ensures Includes(s, t) <==> exists i: nat :: OccursAt(s, t, i)
  {
    if StartsWith(s, t) {
      assert OccursAt(s, t, 0);
    }
    if s != [] {
      IncludesMeaning(s[1..], t);
      if Includes(s[1..], t) {
        var i: nat :| OccursAt(s[1..], t, i);
        assert s[1..][i..i + |t|] == s[i + 1..i + 1 + |t|];
        assert OccursAt(s, t, i + 1);
      }
      if i: nat :| OccursAt(s, t, i) && i > 0 {
        assert s[1..][i - 1..i - 1 + |t|] == s[i..i + |t|];
        assert OccursAt(s[1..], t, i - 1);
      }
    }
  }

  /** Whatever `s` includes, its first character occurs in `s`. */
  lemma {:induction false} IncludesFirstChar(s: string, t: string)
    requires Includes(s, t) && t != []
    ensures t[0] in s
  {
    if !StartsWith(s, t) {
      IncludesFirstChar(s[1..], t);
    } else {
      assert s[0] == t[0];
    }
  }

  /** The filter's test: the lower-cased name includes the lower-cased query. */
  predicate NameMatches(f: MockFile, query: string)
  {
    Includes(Lower(f.name), Lower(query))
  }

  /** `files.filter(...)` with the page's search test. */
  function Filter(files: seq<MockFile>, query: string): seq<MockFile>
  {
    if files == [] then []
    else (if NameMatches(files[0], query) then [files[0]] else []) + Filter(files[1..], query)
  }

  /** The filter keeps exactly the files whose name matches, and no more of them. */
  lemma {:induction false} FilterMembers(files: seq<MockFile>, query: string)
    ensures |Filter(files, query)| <= |files|
    ensures forall f :: f in Filter(files, query) <==> f in files && NameMatches(f, query)
  {
    if files != [] {
      FilterMembers(files[1..], query);
      assert forall f :: f in files <==> f == files[0] || f in files[1..];
    }
  }

  /** Every matching file is kept as many times as it occurs, and no other. */
  lemma {:induction false} FilterCounts(files: seq<MockFile>, query: string)
    ensures forall f :: multiset(Filter(files, query))[f] ==
                          if NameMatches(f, query) then multiset(files)[f] else 0
  {
    if files != [] {
      FilterCounts(files[1..], query);
      assert files == [files[0]] + files[1..];
      assert multiset(files) == multiset{files[0]} + multiset(files[1..]);
      var head := if NameMatches(files[0], query) then [files[0]] else [];
      assert multiset(Filter(files, query)) == multiset(head) + multiset(Filter(files[1..], query));
    }
  }

  /** `a` is `b` with some elements left out, the rest in their order. */
  predicate SubsequenceOf<T(==)>(a: seq<T>, b: seq<T>)
    decreases |b|
  {
    if a == [] then true
    else if b == [] then false
    else if a[0] == b[0] then SubsequenceOf(a[1..], b[1..])
    else SubsequenceOf(a, b[1..])
  }

  lemma {:induction false} SubsequenceOfSelf<T>(a: seq<T>)
    ensures SubsequenceOf(a, a)
  {
    if a != [] {
      SubsequenceOfSelf(a[1..]);
    }
  }

  /** The filter keeps the files in their original order. */
  lemma {:induction false} FilterIsSubsequence(files: seq<MockFile>, query: string)
    ensures SubsequenceOf(Filter(files, query), files)
  {
    if files != [] {
      FilterIsSubsequence(files[1..], query);
      var r := Filter(files, query);
      if NameMatches(files[0], query) {
        assert r[0] == files[0] && r[1..] == Filter(files[1..], query);
      } else {
        assert r == Filter(files[1..], query);
        SubsequenceDropFirst(r, files);
      }
    }
  }

  lemma {:induction false} SubsequenceDropFirst<T>(a: seq<T>, b: seq<T>)
    requires b != [] && SubsequenceOf(a, b[1..])
    ensures SubsequenceOf(a, b)
    decreases |b|, 0
  {
    if a != [] && a[0] == b[0] {
      SubsequenceTail(a, b[1..]);
    }
  }

  lemma {:induction false} SubsequenceTail<T>(a: seq<T>, c: seq<T>)
    requires a != [] && SubsequenceOf(a, c)
    ensures SubsequenceOf(a[1..], c)
    decreases |c|, 1
  {
    if a[0] == c[0] {
      SubsequenceDropFirst(a[1..], c);
    } else {
      SubsequenceTail(a, c[1..]);
      SubsequenceDropFirst(a[1..], c);
    }
  }

  /** An empty search shows every file, in order. */
  lemma {:induction false} FilterEmptyQuery(files: seq<MockFile>)
    ensures Filter(files, "") == files
  {
    if files != [] {
      assert StartsWith(Lower(files[0].name), "");
      FilterEmptyQuery(files[1..]);
    }
  }

  /** Lower-casing leaves a string without capitals as it is. */
  lemma LowerKeeps(s: string)
    requires forall i :: 0 <= i < |s| ==> !('A' <= s[i] <= 'Z')
    ensures Lower(s) == s
  {
  }

  /** Lower-casing twice is lower-casing once. */
  lemma LowerIdempotent(s: string)
    ensures Lower(Lower(s)) == Lower(s)
  {
  }

  /** The search ignores the case of the query. */
  lemma NameMatchesIgnoresQueryCase(f: MockFile, query: string)
    ensures NameMatches(f, query) <==> NameMatches(f, Lower(query))
  {
    LowerIdempotent(query);
  }

  /** A name that starts with the query, letter for letter, matches it. */
  lemma PrefixMatches(f: MockFile, query: string)
    requires StartsWith(f.name, query)
    ensures NameMatches(f, query)
  {
    var n, q := Lower(f.name), Lower(query);
    assert n[..|q|] == q by {
      forall i | 0 <= i < |q|
        ensures n[i] == q[i]
      {
        assert f.name[i] == query[i];
      }
    }
  }

  /** A name none of whose letters is the query's first letter, in either
      case, does not match. */
  lemma MissingFirstLetter(f: MockFile, query: string)
    requires query != []
    requires forall i :: 0 <= i < |f.name| ==> LowerChar(f.name[i]) != LowerChar(query[0])
    ensures !NameMatches(f, query)
  {
    if NameMatches(f, query) {
      IncludesFirstChar(Lower(f.name), Lower(query));
      assert false;
    }
  }

  /** The filter of a list with a first file. */
  lemma FilterCons(f: MockFile, rest: seq<MockFile>, query: string)
    ensures Filter([f] + rest, query) == (if NameMatches(f, query) then [f] else []) + Filter(rest, query)
  {
    assert ([f] + rest)[1..] == rest;
  }

  /** The fixture file whose name starts with "Budget" matches the search
      "budget". */
  lemma BudgetFileMatches()
    ensures NameMatches(MockFiles[2], "budget")
  {
    var n := Lower(MockFiles[2].name);
    assert n[..6] == "budget";
    LowerKeeps("budget");
  }

  /** A name with no 'b' and no 'B' does not match "budget". */
  lemma NoLetterB(f: MockFile)
    requires forall i :: 0 <= i < |f.name| ==> f.name[i] != 'b' && f.name[i] != 'B'
    ensures !NameMatches(f, "budget")
  {
    var q := "budget";
    assert q[0] == 'b' && LowerChar(q[0]) == 'b';
    MissingFirstLetter(f, q);
  }

  /** None of the other five fixture names contains a 'b' or a 'B'. */
  lemma OtherFilesMiss(k: nat)
    requires k < |MockFiles| && k != 2
    ensures !NameMatches(MockFiles[k], "budget")
  {
    if k == 0 { PresentationMisses(); }
    else if k == 1 { PhotosMisses(); }
    else if k == 3 { RecordingMisses(); }
    else if k == 4 { DocumentsMisses(); }
    else { PictureMisses(); }
  }

  lemma PresentationMisses()
    ensures !NameMatches(MockFiles[0], "budget")
  {
    var n := MockFiles[0].name;
    forall i | 0 <= i < |n|
      ensures n[i] != 'b' && n[i] != 'B'
    {
    }
    NoLetterB(MockFiles[0]);
  }

  lemma PhotosMisses()
    ensures !NameMatches(MockFiles[1], "budget")
  {
    var n := MockFiles[1].name;
    forall i | 0 <= i < |n|
      ensures n[i] != 'b' && n[i] != 'B'
    {
    }
    NoLetterB(MockFiles[1]);
  }

  lemma RecordingMisses()
    ensures !NameMatches(MockFiles[3], "budget")
  {
    var n := MockFiles[3].name;
    forall i | 0 <= i < |n|
      ensures n[i] != 'b' && n[i] != 'B'
    {
    }
    NoLetterB(MockFiles[3]);
  }

  lemma DocumentsMisses()
    ensures !NameMatches(MockFiles[4], "budget")
  {
    var n := MockFiles[4].name;
    forall i | 0 <= i < |n|
      ensures n[i] != 'b' && n[i] != 'B'
    {
    }
    NoLetterB(MockFiles[4]);
  }

  lemma PictureMisses()
    ensures !NameMatches(MockFiles[5], "budget")
  {
    var n := MockFiles[5].name;
    forall i | 0 <= i < |n|
      ensures n[i] != 'b' && n[i] != 'B'
    {
    }
    NoLetterB(MockFiles[5]);
  }

  /** A list in which exactly the file at one position matches filters to that file. */
  lemma {:induction false} FilterSingleMatch(files: seq<MockFile>, query: string, j: nat)
    requires j < |files|
    requires forall k :: 0 <= k < |files| ==> (NameMatches(files[k], query) <==> k == j)
    ensures Filter(files, query) == [files[j]]
  {
    if j == 0 {
      NoMatchFilter(files[1..], query);
    } else {
      FilterSingleMatch(files[1..], query, j - 1);
    }
  }

  lemma {:induction false} NoMatchFilter(files: seq<MockFile>, query: string)
    requires forall k :: 0 <= k < |files| ==> !NameMatches(files[k], query)
    ensures Filter(files, query) == []
  {
    if files != [] {
      NoMatchFilter(files[1..], query);
    }
  }

  /** Searching the six fixture files for "budget" shows the spreadsheet alone. */
  lemma FilterBudget()
    ensures Filter(MockFiles, "budget") == [MockFiles[2]]
  {
    BudgetFileMatches();
    forall k | 0 <= k < |MockFiles| && k != 2
      ensures !NameMatches(MockFiles[k], "budget")
    {
      OtherFilesMiss(k);
    }
    FilterSingleMatch(MockFiles, "budget", 2);
  }

  // ---------------------------------------------------------------------
  // Numbers as JavaScript computes them, without rounding error

  /** A double, read as an exact real unless it is not finite. */
  datatype Number = Finite(value: real) | NaN | Infinity | NegInfinity

  /** `a / b` on two integers, with division by zero as in IEEE 754. */
  function Divide(a: int, b: int): (r: Number)
    ensures b != 0 ==> r == Finite(a as real / b as real)
    ensures b == 0 ==> (r == NaN <==> a == 0) && (r == Infinity <==> a > 0) && (r == NegInfinity <==> a < 0)
  {
    if b != 0 then Finite(a as real / b as real)
    else if a == 0 then NaN
    else if a > 0 then Infinity
    else NegInfinity
  }

  function Times100(x: Number): Number
  {
    match x
    case Finite(v) => Finite(v * 100.0)
    case _ => x
  }

  /** `100 - x`. */
  function FromHundred(x: Number): Number
  {
    match x
    case Finite(v) => Finite(100.0 - v)
    case NaN => NaN
    case Infinity => NegInfinity
    case NegInfinity => Infinity
  }

  /** `storagePercentage`: used over limit times 100, or 0 with no user; it is
      not clamped to [0, 100]. */
  function StoragePercentage(user: Option<StoredUser>): Number
  {
    match user
    case None => Finite(0.0)
    case Some(u) => Times100(Divide(u.storageUsed, u.storageLimit))
  }

  /** For v >= 0, the integer n closest to 10v, the larger one on a tie. */
  function Tenths(v: real): nat
    requires v >= 0.0
  {
    (10.0 * v + 0.5).Floor as nat
  }

  /** n tenths printed with exactly one decimal. */
  function TenthsText(n: nat): string
  {
    NatToString(n / 10) + "." + [DigitChar(n % 10)]
  }

  /** `x.toFixed(1)`: a sign for negative values, then the magnitude rounded
      to tenths and printed with one decimal. */
  function ToFixed1(x: Number): string
  {
    match x
    case NaN => "NaN"
    case Infinity => "Infinity"
    case NegInfinity => "-Infinity"
    case Finite(v) => if v < 0.0 then "-" + TenthsText(Tenths(-v)) else TenthsText(Tenths(v))
  }

  /** The text before "% available". */
  function AvailableText(user: Option<StoredUser>): string
  {
    ToFixed1(FromHundred(StoragePercentage(user)))
  }

  // ---------------------------------------------------------------------
  // Properties of the storage figures

  /** Within the limit the percentage lies in [0, 100] and the two figures add up to 100. */
  lemma PercentageWithinLimit(u: StoredUser)
    requires 0 <= u.storageUsed <= u.storageLimit && u.storageLimit > 0
    ensures var p := StoragePercentage(Some(u));
            && p.Finite? && 0.0 <= p.value <= 100.0
            && FromHundred(p).Finite? && FromHundred(p).value + p.value == 100.0
  {
    var used, limit := u.storageUsed as real, u.storageLimit as real;
    assert used / limit <= 1.0 by {
      assert used / limit * limit == used;
    }
  }

  /** Past the limit the percentage exceeds 100 and "available" turns negative. */
  lemma PercentageNotClamped(u: StoredUser)
    requires 0 < u.storageLimit < u.storageUsed
    ensures var p := StoragePercentage(Some(u));
            && p.Finite? && p.value > 100.0
            && AvailableText(Some(u))[0] == '-'
  {
    var used, limit := u.storageUsed as real, u.storageLimit as real;
    assert used / limit > 1.0 by {
      assert used / limit * limit == used;
    }
  }

  /** A zero limit gives a percentage that is not a number or infinite, as IEEE division does. */
  lemma PercentageZeroLimit(u: StoredUser)
    requires u.storageLimit == 0
    ensures u.storageUsed == 0 ==> StoragePercentage(Some(u)) == NaN && AvailableText(Some(u)) == "NaN"
    ensures u.storageUsed > 0 ==> StoragePercentage(Some(u)) == Infinity && AvailableText(Some(u)) == "-Infinity"
    ensures u.storageUsed < 0 ==> StoragePercentage(Some(u)) == NegInfinity && AvailableText(Some(u)) == "Infinity"
  {
  }

  /** Rounding to tenths picks the integer within half a unit of 10v, the larger on a tie. */
  lemma TenthsRounding(v: real)
    requires v >= 0.0
    ensures 10.0 * v - 0.5 < Tenths(v) as real <= 10.0 * v + 0.5
  {
  }

  /** The one-decimal text of a non-negative value reads back as its rounded tenths. */
  lemma ToFixed1ReadsBack(v: real)
    requires v >= 0.0
    ensures ParseHundredths(ToFixed1(Finite(v))) == Some(10 * Tenths(v))
  {
    var n := Tenths(v);
    var w := NatToString(n / 10);
    var f := [DigitChar(n % 10)];
    assert ToFixed1(Finite(v)) == w + ['.'] + f;
    SplitAtDot(w, f);
    NatToStringRoundTrip(n / 10);
  }

  /** The demo account: 48.828125 percent used, "51.2" percent available. */
  lemma DemoFigures()
    ensures StoragePercentage(Some(DemoUser)) == Finite(48.828125)
    ensures AvailableText(Some(DemoUser)) == "51.2"
  {
    assert 536870912000.0 / 1099511627776.0 == 0.48828125;
    assert Tenths(51.171875) == 512;
    assert NatToString(51) == "51";
  }

  /** With no user the percentage is 0 and everything is available. */
  lemma NoUserFigures()
    ensures StoragePercentage(None) == Finite(0.0)
    ensures AvailableText(None) == "100.0"
  {
    assert Tenths(100.0) == 1000;
    assert NatToString(100) == "100";
  }

  // ---------------------------------------------------------------------
  // The page

  class DashboardPage {
    var user: Option<StoredUser>
    var files: seq<MockFile>
    var stats: Option<MockStats>
    var searchQuery: string
    /** Where the page last navigated to, if anywhere. */
    var location: Option<string>

    constructor ()
      ensures user == None && files == [] && stats == None && searchQuery == "" && location == None
    {
      user := None;
      files := [];
      stats := None;
      searchQuery := "";
      location := None;
    }

    /** The entry effect: without a session go to "/login" and change nothing
        else; with one, take the current user (possibly none) and load the
        fixtures. */
    method Enter(store: SessionStore)
      requires store.Valid()
      modifies this
      ensures searchQuery == old(searchQuery)
      ensures !store.IsAuthenticated() ==>
                location == Some("/login") && user == old(user) && files == old(files) && stats == old(stats)
      ensures store.IsAuthenticated() ==>
                user == store.GetCurrentUser() && files == MockFiles && stats == Some(Stats)
                && location == old(location)
      ensures store.IsAuthenticated() ==> (IsLoading() <==> UserKey !in store.items)
    {
      if !store.IsAuthenticated() {
        location := Some("/login");
        return;
      }
      var currentUser := store.GetCurrentUser();
      user := currentUser;
      files := MockFiles;
      stats := Some(Stats);
    }

    /** The search box's change handler. */
    method SetSearchQuery(query: string)
      modifies this
      ensures searchQuery == query
      ensures user == old(user) && files == old(files) && stats == old(stats) && location == old(location)
    {
      searchQuery := query;
    }

    /** handleLogout: clear the session store, then go to "/". */
    method Logout(store: SessionStore)
      requires store.Valid()
      modifies this, store
      ensures store.Valid() && store.items == LoggedOut(old(store.items))
      ensures !store.IsAuthenticated() && store.GetCurrentUser() == None
      ensures location == Some("/")
      ensures user == old(user) && files == old(files) && stats == old(stats) && searchQuery == old(searchQuery)
    {
      store.MockLogout();
      LogoutClears(old(store.items));
      location := Some("/");
    }

    /** The page shows "Loading..." while it has no user. */
    function IsLoading(): bool
      reads this
    {
      user.None?
    }

    function FilteredFiles(): seq<MockFile>
      reads this
    {
      Filter(files, searchQuery)
    }

    function Percentage(): Number
      reads this
    {
      StoragePercentage(user)
    }
  }
}
