/** Migration file names: their numeric order, the timestamp rule for new names, and the listing the runner
    works through. */
module MigrationOrder {
  import opened Calendar
  import opened Text

  // ---- the prefix and the comparator ----

  predicate HasPrefix(file: string) {
    DigitRun(file) > 0
  }

  lemma PrefixedStartWithADigit(file: string)
    ensures HasPrefix(file) <==> file != "" && '0' <= file[0] <= '9'
  {
  }

  function Prefix(file: string): nat
    requires HasPrefix(file)
  {
    NumberOf(file[..DigitRun(file)])
  }

  function Compare(a: string, b: string): int
    requires HasPrefix(a) && HasPrefix(b)
  {
    if Prefix(a) < Prefix(b) then -1
    else if Prefix(a) > Prefix(b) then 1
    else if TextLess(a, b) then -1
    else if TextLess(b, a) then 1
    else 0
  }

  lemma {:induction false} TextLessAsymmetric(a: string, b: string)
    requires TextLess(a, b)
    ensures !TextLess(b, a)
  {
    if a != "" && a[0] == b[0] {
      TextLessAsymmetric(a[1..], b[1..]);
    }
  }

  lemma {:induction false} TextLessTotal(a: string, b: string)
    ensures TextLess(a, b) || TextLess(b, a) || a == b
  {
    if a != "" && b != "" && a[0] == b[0] {
      TextLessTotal(a[1..], b[1..]);
    }
  }

  lemma {:induction false} TextLessTransitive(a: string, b: string, c: string)
    requires TextLess(a, b) && TextLess(b, c)
    ensures TextLess(a, c)
  {
    if a != "" && a[0] == b[0] && b[0] == c[0] {
      TextLessTransitive(a[1..], b[1..], c[1..]);
    }
  }

  /** The comparator is a strict total order on prefixed names: 0 only on equal names, antisymmetric, transitive. */
  lemma CompareIsTotalOrder(a: string, b: string, c: string)
    requires HasPrefix(a) && HasPrefix(b) && HasPrefix(c)
    ensures Compare(a, b) == 0 <==> a == b
    ensures Compare(a, b) == -Compare(b, a)
    ensures Compare(a, b) < 0 && Compare(b, c) < 0 ==> Compare(a, c) < 0
  {
    if TextLess(a, b) { TextLessAsymmetric(a, b); }
    if TextLess(b, a) { TextLessAsymmetric(b, a); }
    TextLessTotal(a, b);
    if TextLess(a, b) && TextLess(b, c) { TextLessTransitive(a, b, c); }
  }

  // ---- sorting ----

  ghost predicate Prefixed(files: seq<string>) {
    forall i :: 0 <= i < |files| ==> HasPrefix(files[i])
  }

  ghost predicate Sorted(files: seq<string>) {
    Prefixed(files) && forall i, j :: 0 <= i < j < |files| ==> Compare(files[i], files[j]) <= 0
  }

  /** Whatever the order a directory lists its files in, and however the built-in sort works: there is only
      one sorted arrangement. */
  lemma {:induction false} SortIsUnique(a: seq<string>, b: seq<string>)
    requires Sorted(a) && Sorted(b) && multiset(a) == multiset(b)
    ensures a == b
  {
    if a == [] {
      assert |multiset(b)| == 0;
    } else {
      HeadsAgree(a, b);
      assert a == [a[0]] + a[1..] && b == [b[0]] + b[1..];
      assert multiset(a[1..]) == multiset(a) - multiset{a[0]};
      assert multiset(b[1..]) == multiset(b) - multiset{b[0]};
      SortedTail(a);
      SortedTail(b);
      hide Sorted;
      SortIsUnique(a[1..], b[1..]);
    }
  }

  lemma SortedTail(files: seq<string>)
    requires Sorted(files) && files != []
    ensures Sorted(files[1..])
  {
    hide Compare;
  }

  lemma HeadsAgree(a: seq<string>, b: seq<string>)
    requires Sorted(a) && Sorted(b) && a != [] && multiset(a) == multiset(b)
    ensures b != [] && a[0] == b[0]
  {
    assert |multiset(a)| == |multiset(b)|;
    assert a[0] in multiset(a) && b[0] in multiset(b);
    FirstIsLeast(a, b[0]);
    FirstIsLeast(b, a[0]);
    CompareIsTotalOrder(a[0], b[0], a[0]);
  }

  lemma FirstIsLeast(files: seq<string>, file: string)
    requires Sorted(files) && file in files
    ensures HasPrefix(file) && Compare(files[0], file) <= 0
  {
    CompareIsTotalOrder(files[0], files[0], files[0]);
  }

  function Insert(file: string, files: seq<string>): (r: seq<string>)
    requires HasPrefix(file) && Sorted(files)
    ensures Sorted(r) && multiset(r) == multiset(files) + multiset{file}
  {
    if files == [] then [file]
    else if Compare(file, files[0]) <= 0 then
      LeastGoesFirst(file, files);
      [file] + files
    else
      SortedTail(files);
      var rest := Insert(file, files[1..]);
      HeadAndTail(files);
      InsertKeepsFirst(file, files, rest);
      [files[0]] + rest
  }

  lemma HeadAndTail(files: seq<string>)
    requires files != []
    ensures multiset(files) == multiset{files[0]} + multiset(files[1..])
  {
    assert files == [files[0]] + files[1..];
  }

  lemma LeastGoesFirst(file: string, files: seq<string>)
    requires HasPrefix(file) && Sorted(files) && files != [] && Compare(file, files[0]) <= 0
    ensures Sorted([file] + files)
  {
    forall j | 0 <= j < |files|
      ensures Compare(file, files[j]) <= 0
    {
      FirstIsLeast(files, files[j]);
      CompareIsTotalOrder(file, files[0], files[j]);
      CompareIsTotalOrder(files[0], files[j], file);
    }
  }

  lemma InsertKeepsFirst(file: string, files: seq<string>, rest: seq<string>)
    requires HasPrefix(file) && Sorted(files) && files != [] && Compare(file, files[0]) > 0
    requires Sorted(rest) && multiset(rest) == multiset(files[1..]) + multiset{file}
    ensures Sorted([files[0]] + rest)
  {
    forall j | 0 <= j < |rest|
      ensures Compare(files[0], rest[j]) <= 0
    {
      assert rest[j] in multiset(rest);
      if rest[j] in files[1..] {
        FirstIsLeast(files, rest[j]);
      } else {
        CompareIsTotalOrder(file, files[0], file);
      }
    }
  }

  /** Stands for the built-in sort with the comparator; SortIsUnique says the choice of algorithm is immaterial. */
  function SortFiles(files: seq<string>): (r: seq<string>)
    requires Prefixed(files)
    ensures Sorted(r) && multiset(r) == multiset(files)
  {
    if files == [] then [] else
      assert files == [files[0]] + files[1..];
      Insert(files[0], SortFiles(files[1..]))
  }

  // ---- timestamps ----

  predicate IsNameChar(c: char) {
    'a' <= c <= 'z' || IsDigit(c) || c == '_'
  }

  /** Fourteen digits, an underscore, a name of lower-case letters, digits and underscores that does not start
      with an underscore, and `.sql`. */
  predicate TimestampShape(file: string) {
    var n := |file|;
    && n >= 20
    && AllDigits(file[..14]) && file[14] == '_'
    && file[n - 4..] == ".sql"
    && IsNameChar(file[15]) && file[15] != '_'
    && forall i :: 15 <= i < n - 4 ==> IsNameChar(file[i])
  }

  predicate IsNameStart(c: char) {
    'a' <= c <= 'z' || '0' <= c <= '9'
  }

  predicate IsSpelled(file: string, digits: string, name: string) {
    && file == digits + "_" + name + ".sql" && |digits| == 14 && name != "" && IsNameStart(name[0])
    && (forall i :: 0 <= i < 14 ==> '0' <= digits[i] <= '9')
    && (forall i :: 0 < i < |name| ==> IsNameStart(name[i]) || name[i] == '_')
  }

  lemma ShapeSplits(file: string)
    requires TimestampShape(file)
    ensures IsSpelled(file, file[..14], file[15..|file| - 4])
  {
    var n := |file|;
    var digits, name := file[..14], file[15..n - 4];
    assert file == file[..14] + file[14..15] + file[15..n - 4] + file[n - 4..];
    assert file[14..15] == "_";
    assert name[0] == file[15] && forall i :: 0 < i < |name| ==> name[i] == file[15 + i];
  }

  lemma SpelledIsShaped(file: string, digits: string, name: string)
    requires IsSpelled(file, digits, name)
    ensures TimestampShape(file)
  {
    var n := |file|;
    assert n == 19 + |name|;
    assert file[..14] == digits && file[14] == '_';
    assert file[n - 4..] == ".sql";
    forall i | 15 <= i < n - 4
      ensures file[i] == name[i - 15]
    {
    }
  }

  /** The shape as one writes it: fourteen digits, an underscore, a name, and the ending. */
  lemma ShapeSpelled(file: string)
    ensures TimestampShape(file) <==> exists digits, name :: IsSpelled(file, digits, name)
  {
    hide IsSpelled;
    if TimestampShape(file) {
      ShapeSplits(file);
      var digits, name := file[..14], file[15..|file| - 4];
      assert IsSpelled(file, digits, name);
    } else if exists digits, name :: IsSpelled(file, digits, name) {
      var digits, name :| IsSpelled(file, digits, name);
      SpelledIsShaped(file, digits, name);
    }
  }

  function Stamp(file: string): Civil
    requires TimestampShape(file)
  {
    Civil(NumberOf(file[0..4]), NumberOf(file[4..6]), NumberOf(file[6..8]),
          NumberOf(file[8..10]), NumberOf(file[10..12]), NumberOf(file[12..14]))
  }

  predicate IsValidTimestamp(file: string) {
    TimestampShape(file) && Fields(Utc(Stamp(file))) == Stamp(file) && Stamp(file).year >= 2026
  }

  /** EXACT. A well-shaped name is accepted exactly when its digits are a real date-time of 2026 or later. */
  lemma TimestampsAreRealDates(file: string)
    ensures IsValidTimestamp(file) <==> TimestampShape(file) && IsReal(Stamp(file)) && Stamp(file).year >= 2026
  {
    if TimestampShape(file) && Stamp(file).year >= 2026 {
      NormalizingDetectsReal(Stamp(file));
    }
  }

  lemma PrefixBeyondLegacy(file: string)
    requires IsValidTimestamp(file)
    ensures HasPrefix(file) && Prefix(file) > 99994
  {
    hide Fields, Utc, Power10;
    DigitsAreThePrefix(file);
    NumberJoins(file[0..4], file[4..14]);
    assert file[0..4] + file[4..14] == file[..14];
    TenDigits();
    assert NumberOf(file[0..4]) * 10000000000 >= 10000000000;
  }

  lemma TenDigits()
    ensures Power10(10) == 10000000000
  {
    assert Power10(5) == 100000;
    PowersMultiply(5, 5);
  }

  /** A valid timestamp name sorts after every name with a prefix up to 99994, so after all legacy files. */
  lemma TimestampSortsAfterLegacy(file: string, legacy: string)
    requires IsValidTimestamp(file) && HasPrefix(legacy) && Prefix(legacy) <= 99994
    ensures HasPrefix(file) && Compare(legacy, file) < 0 && Compare(file, legacy) > 0
  {
    PrefixBeyondLegacy(file);
  }

  lemma {:induction false} PowersMultiply(a: nat, b: nat)
    ensures Power10(a + b) == Power10(a) * Power10(b)
  {
    if b > 0 {
      PowersMultiply(a, b - 1);
      assert Power10(a) * Power10(b) == 10 * (Power10(a) * Power10(b - 1));
    }
  }

  lemma DigitsAreThePrefix(file: string)
    requires TimestampShape(file)
    ensures DigitRun(file) == 14
  {
    assert forall i :: 0 <= i < 14 ==> file[..14][i] == file[i];
  }

  // ---- the historical band ----

  lemma {:induction false} EqualLengthOrder(a: string, b: string)
    requires AllDigits(a) && AllDigits(b) && |a| == |b|
    ensures NumberOf(a) < NumberOf(b) <==> TextLess(a, b)
    ensures NumberOf(a) == NumberOf(b) <==> a == b
  {
    if a != "" {
      EqualLengthOrder(a[1..], b[1..]);
      NumberJoins(a[..1], a[1..]);
      NumberJoins(b[..1], b[1..]);
      assert a[..1] + a[1..] == a && b[..1] + b[1..] == b;
      NumberBelow(a[1..]);
      NumberBelow(b[1..]);
      SingleDigit(a[..1]);
      SingleDigit(b[..1]);
      LeadingDigitDecides(DigitValue(a[0]), DigitValue(b[0]), Power10(|a| - 1), NumberOf(a[1..]), NumberOf(b[1..]));
      assert a == [a[0]] + a[1..] && b == [b[0]] + b[1..];
    }
  }

  lemma LeadingDigitDecides(x: nat, y: nat, p: nat, u: nat, v: nat)
    requires u < p && v < p
    ensures x * p + u < y * p + v <==> x < y || (x == y && u < v)
    ensures x * p + u == y * p + v <==> x == y && u == v
  {
    if x < y { LaterMultiple(x, y, p); }
    if y < x { LaterMultiple(y, x, p); }
    Decide(x, y, p, u, v, x * p, y * p);
  }

  lemma LaterMultiple(x: nat, y: nat, p: nat)
    requires x < y
    ensures x * p + p <= y * p
  {
    var d := y - x - 1;
    assert y * p == (x + 1 + d) * p == x * p + p + d * p;
  }

  lemma Decide(x: nat, y: nat, p: nat, u: nat, v: nat, xp: nat, yp: nat)
    requires u < p && v < p
    requires (x < y ==> xp + p <= yp) && (y < x ==> yp + p <= xp) && (x == y ==> xp == yp)
    ensures xp + u < yp + v <==> x < y || (x == y && u < v)
    ensures xp + u == yp + v <==> x == y && u == v
  {
  }

  lemma SingleDigit(s: string)
    requires |s| == 1 && IsDigit(s[0])
    ensures NumberOf(s) == DigitValue(s[0])
  {
    assert s[..0] == "";
  }

  lemma {:induction false} TextOrderByHead(a: string, b: string, n: nat)
    requires n <= |a| && n <= |b|
    ensures a[..n] != b[..n] ==> (TextLess(a, b) <==> TextLess(a[..n], b[..n]))
    ensures a[..n] == b[..n] ==> (TextLess(a, b) <==> TextLess(a[n..], b[n..]))
  {
    if n > 0 {
      TextOrderByHead(a[1..], b[1..], n - 1);
      assert a[1..][..n - 1] == a[..n][1..] && b[1..][..n - 1] == b[..n][1..];
      assert a[1..][n - 1..] == a[n..] && b[1..][n - 1..] == b[n..];
      assert a[..n] == [a[0]] + a[..n][1..] && b[..n] == [b[0]] + b[..n][1..];
    }
  }

  /** The names from before the timestamp rule: three digits below 999, or five digits from 99900. */
  predicate Historical(file: string) {
    (DigitRun(file) == 3 && Prefix(file) < 999) || (DigitRun(file) == 5 && Prefix(file) >= 99900)
  }

  lemma FiveDigitHead(file: string)
    requires DigitRun(file) == 5 && Prefix(file) >= 99900
    ensures AllDigits(file[..3]) && NumberOf(file[..3]) == 999
  {
    NumberJoins(file[..3], file[3..5]);
    assert file[..3] + file[3..5] == file[..5];
    NumberBelow(file[3..5]);
    NumberBelow(file[..3]);
    assert Power10(2) == 100 && Power10(3) == 1000;
  }

  /** On the historical band the numeric order is exactly the old text order, so a fresh database replays
      history as it happened. */
  lemma HistoricalOrderIsTextOrder(a: string, b: string)
    requires Historical(a) && Historical(b)
    ensures Compare(a, b) < 0 <==> TextLess(a, b)
  {
    if TextLess(a, b) { TextLessAsymmetric(a, b); }
    if DigitRun(a) == DigitRun(b) {
      EqualLengthOrder(a[..DigitRun(a)], b[..DigitRun(a)]);
      TextOrderByHead(a, b, DigitRun(a));
    } else if DigitRun(a) == 3 {
      FiveDigitHead(b);
      EqualLengthOrder(a[..3], b[..3]);
      TextOrderByHead(a, b, 3);
      ThreeAgainstFive(a, b);
    } else {
      FiveDigitHead(a);
      EqualLengthOrder(b[..3], a[..3]);
      TextOrderByHead(b, a, 3);
      ThreeAgainstFive(b, a);
      TextLessTotal(a, b);
      if TextLess(b, a) { TextLessAsymmetric(b, a); }
    }
  }

  lemma ThreeAgainstFive(a: string, b: string)
    requires DigitRun(a) == 3 && DigitRun(b) == 5 && Prefix(b) >= 99900
    ensures Prefix(a) < Prefix(b)
  {
    NumberBelow(a[..3]);
    assert Power10(3) == 1000;
  }

  /** The band must stop at 998: from 999 on the two orders part exactly where the prefix is followed by a character
      that sorts after the digits, as `_` does. */
  lemma OrdersPartAt999(a: string, b: string)
    requires DigitRun(a) == 3 && Prefix(a) == 999
    requires DigitRun(b) == 5 && Prefix(b) >= 99900
    ensures Compare(a, b) < 0
    ensures TextLess(b, a) <==> |a| > 3 && a[3] > '9'
  {
    ThreeAgainstFive(a, b);
    FiveDigitHead(b);
    EqualLengthOrder(a[..3], b[..3]);
    TextOrderByHead(b, a, 3);
    assert b[3..][0] == b[3] && IsDigit(b[3]);
    if |a| > 3 { assert a[3..][0] == a[3] && !IsDigit(a[3]); }
  }

  // ---- the listing ----

  datatype Listing = Listed(files: seq<string>) | NoPrefix | NotATimestamp(file: string) | TooEarly(file: string)
    | UnknownBoundary(through: string)

  datatype Through = All | UpTo(file: string)

  predicate EndsInSql(file: string) {
    |file| >= 4 && file[|file| - 4..] == ".sql"
  }

  function SqlFiles(names: seq<string>): seq<string> {
    if names == [] then [] else (if EndsInSql(names[0]) then [names[0]] else []) + SqlFiles(names[1..])
  }

  /** The .sql files of a directory: its names that end so, in its order. */
  lemma {:induction false} SqlFilesAre(names: seq<string>)
    ensures forall f :: f in SqlFiles(names) <==> f in names && exists base :: f == base + ".sql"
    ensures (forall f :: f in names ==> EndsInSql(f)) ==> SqlFiles(names) == names
  {
    if names != [] {
      SqlFilesAre(names[1..]);
      var f := names[0];
      if EndsInSql(f) { assert f == f[..|f| - 4] + ".sql"; }
      if base :| f == base + ".sql" { assert f[|f| - 4..] == ".sql"; }
      assert names == [f] + names[1..];
    }
  }

  /** The guard before any migration runs: every file outside the frozen legacy set must be a timestamp
      migration that sorts after the legacy tail. The contract says the second refusal can never happen. */
  method ValidateMigrationFiles(files: seq<string>, legacy: set<string>) returns (r: Listing)
    ensures r == Listed(files) <==> forall f :: f in files && f !in legacy ==> IsValidTimestamp(f)
    ensures || r == Listed(files)
            || (r.NotATimestamp? && r.file in files && r.file !in legacy && !IsValidTimestamp(r.file))
  {
    for i := 0 to |files|
      invariant forall k :: 0 <= k < i && files[k] !in legacy ==> IsValidTimestamp(files[k])
    {
      var file := files[i];
      if file in legacy { continue; }
      if !IsValidTimestamp(file) { return NotATimestamp(file); }
      PrefixBeyondLegacy(file);
      if Prefix(file) <= 99994 { return TooEarly(file); }
    }
    return Listed(files);
  }

  method IndexOf(files: seq<string>, file: string) returns (i: nat)
    ensures i <= |files| && file !in files[..i]
    ensures i < |files| ==> files[i] == file
    ensures i == |files| ==> file !in files
  {
    i := 0;
    while i < |files| && files[i] != file
      invariant i <= |files| && file !in files[..i]
    {
      i := i + 1;
    }
    if i == |files| { assert files[..i] == files; }
  }

  lemma SameElements(a: seq<string>, b: seq<string>, f: string)
    requires multiset(a) == multiset(b)
    ensures f in a <==> f in b
  {
    assert f in a <==> f in multiset(a);
    assert f in b <==> f in multiset(b);
  }

  lemma SortedPrefix(files: seq<string>, n: nat)
    requires Sorted(files) && n <= |files|
    ensures Sorted(files[..n])
  {
    hide Compare;
  }

  ghost predicate AllAllowed(files: seq<string>, legacy: set<string>) {
    forall f :: f in files && f !in legacy ==> IsValidTimestamp(f)
  }

  lemma SameAllowed(a: seq<string>, b: seq<string>, legacy: set<string>)
    requires multiset(a) == multiset(b)
    ensures AllAllowed(a, legacy) <==> AllAllowed(b, legacy)
  {
    forall f { SameElements(a, b, f); }
  }

  /** The built-in sort, whose comparator refuses a name without a number as soon as there are two names. */
  method SortListing(files: seq<string>) returns (r: Listing)
    ensures |files| >= 2 && !Prefixed(files) ==> r == NoPrefix
    ensures |files| >= 2 && Prefixed(files) ==> r == Listed(SortFiles(files))
    ensures |files| < 2 ==> r == Listed(files)
  {
    if |files| < 2 { return Listed(files); }
    for i := 0 to |files|
      invariant forall k :: 0 <= k < i ==> HasPrefix(files[k])
    {
      if !HasPrefix(files[i]) { return NoPrefix; }
    }
    return Listed(SortFiles(files));
  }

  /** Sorted and checked: the whole listing, or a refusal exactly when some file is not allowed. */
  method SortAndCheck(sql: seq<string>, legacy: set<string>) returns (r: Listing)
    requires forall f :: f in legacy ==> HasPrefix(f)
    ensures r.Listed? <==> AllAllowed(sql, legacy)
    ensures r.Listed? ==> Prefixed(sql) && r.files == SortFiles(sql)
    ensures !r.UnknownBoundary?
  {
    hide IsValidTimestamp, Compare, HasPrefix, Sorted;
    AllowedArePrefixed(sql, legacy);
    var sorted := SortListing(sql);
    if sorted == NoPrefix { return sorted; }
    SingletonSort(sql);
    SameAllowed(sorted.files, sql, legacy);
    r := ValidateMigrationFiles(sorted.files, legacy);
  }

  /** The listing the runner works through: the directory's .sql files in order, up to and including a named
      boundary. Its order does not depend on the directory's. */
  method ListMigrationFiles(names: seq<string>, legacy: set<string>, through: Through) returns (r: Listing)
    requires forall f :: f in legacy ==> HasPrefix(f)
    ensures r.Listed? || r.UnknownBoundary? <==> AllAllowed(SqlFiles(names), legacy)
    ensures r.Listed? ==> Prefixed(SqlFiles(names)) && Sorted(r.files) && r.files <= SortFiles(SqlFiles(names))
    ensures r.Listed? && through.All? ==> multiset(r.files) == multiset(SqlFiles(names))
    ensures r.Listed? && through.UpTo? ==> r.files != [] && r.files[|r.files| - 1] == through.file
    ensures r.Listed? && through.UpTo? ==> through.file !in r.files[..|r.files| - 1]
    ensures r.UnknownBoundary? ==> through.UpTo? && through.file !in SqlFiles(names)
  {
    hide IsValidTimestamp, Compare, HasPrefix, Sorted, SqlFiles, AllAllowed, SortFiles, Prefixed, Insert;
    r := SortAndCheck(SqlFiles(names), legacy);
    if !r.Listed? || through.All? { return; }
    var files := r.files;
    var last := IndexOf(files, through.file);
    SameElements(files, SqlFiles(names), through.file);
    if last == |files| { return UnknownBoundary(through.file); }
    assert files[..last + 1][..last] == files[..last];
    SortedPrefix(files, last + 1);
    return Listed(files[..last + 1]);
  }

  lemma AllowedArePrefixed(files: seq<string>, legacy: set<string>)
    requires forall f :: f in legacy ==> HasPrefix(f)
    ensures AllAllowed(files, legacy) ==> Prefixed(files)
  {
    forall i | 0 <= i < |files| && IsValidTimestamp(files[i])
      ensures HasPrefix(files[i])
    {
      PrefixBeyondLegacy(files[i]);
    }
  }

  lemma SingletonSort(files: seq<string>)
    ensures |files| < 2 && Prefixed(files) ==> SortFiles(files) == files
  {
    if |files| == 1 && Prefixed(files) {
      assert files[1..] == [] && files == [files[0]];
    }
  }

  // ---- directory problems ----

  datatype Problem = Unprefixed(file: string) | Duplicate(prefix: nat, names: seq<string>)

  function NamesWith(files: seq<string>, prefix: nat): seq<string> {
    if files == [] then []
    else NamesWith(files[..|files| - 1], prefix)
         + (if HasPrefix(files[|files| - 1]) && Prefix(files[|files| - 1]) == prefix then [files[|files| - 1]] else [])
  }

  /** The names under a number are all the files with that number, each as often as it is listed. */
  lemma {:induction false} NamesWithAre(files: seq<string>, prefix: nat, file: string)
    ensures multiset(NamesWith(files, prefix))[file]
         == if HasPrefix(file) && Prefix(file) == prefix then multiset(files)[file] else 0
  {
    if files != [] {
      var n := |files| - 1;
      NamesWithAre(files[..n], prefix, file);
      assert files == files[..n] + [files[n]];
    }
  }

  ghost predicate Flagged(files: seq<string>, allowed: set<nat>, p: Problem) {
    match p
    case Unprefixed(file) => file in files && !HasPrefix(file)
    case Duplicate(prefix, names) => prefix !in allowed && names == NamesWith(files, prefix) && |names| > 1
  }

  /** The files grouped by number, in order of first appearance, and the files without one. */
  method GroupByPrefix(files: seq<string>)
    returns (problems: seq<Problem>, seen: map<nat, seq<string>>, order: seq<nat>)
    ensures forall p :: p in problems <==> p.Unprefixed? && p.file in files && !HasPrefix(p.file)
    ensures forall k :: k in seen <==> k in order
    ensures forall k :: k in seen ==> seen[k] == NamesWith(files, k)
    ensures forall k :: k !in seen ==> NamesWith(files, k) == []
  {
    hide HasPrefix, Prefix;
    problems, seen, order := [], map[], [];
    for i := 0 to |files|
      invariant forall p :: p in problems <==> p.Unprefixed? && p.file in files[..i] && !HasPrefix(p.file)
      invariant forall k :: k in seen <==> k in order
      invariant forall k :: k in seen ==> seen[k] == NamesWith(files[..i], k) && seen[k] != []
      invariant forall k :: k !in seen ==> NamesWith(files[..i], k) == []
    {
      assert files[..i + 1] == files[..i] + [files[i]];
      assert files[..i + 1][..i] == files[..i];
      if !HasPrefix(files[i]) {
        problems := problems + [Unprefixed(files[i])];
      } else {
        var prefix := Prefix(files[i]);
        if prefix !in seen {
          order := order + [prefix];
          seen := seen[prefix := []];
        }
        seen := seen[prefix := seen[prefix] + [files[i]]];
      }
    }
    assert files[..|files|] == files;
  }

  /** Every problem of a listing is reported, and only those: files without a number, and numbers shared by
      several files outside the frozen exceptions, with all the names that share them. */
  method ListOrderingProblems(files: seq<string>, allowed: set<nat>) returns (problems: seq<Problem>)
    ensures forall p :: p in problems <==> Flagged(files, allowed, p)
  {
    hide HasPrefix, Prefix;
    var seen, order;
    problems, seen, order := GroupByPrefix(files);
    for i := 0 to |order|
      invariant forall p :: p in problems <==>
        || (p.Unprefixed? && Flagged(files, allowed, p))
        || (p.Duplicate? && p.prefix in order[..i] && Flagged(files, allowed, p))
    {
      var prefix := order[i];
      assert order[..i + 1] == order[..i] + [prefix];
      assert prefix in order;
      if |seen[prefix]| > 1 && prefix !in allowed {
        problems := problems + [Duplicate(prefix, seen[prefix])];
      }
    }
    assert order[..|order|] == order;
  }
}
