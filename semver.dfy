/**
 * Semantic Versioning 2.0.0: which strings are versions (sections 2, 9 and 10)
 * and which of two versions takes precedence (section 11). The strict SemVer 2.0.0
 * grammar of `Parse` stands in for `semver.valid`, and `GreaterThan` for `semver.gt`.
 */
module SemVer {
  import opened Common

  /** A pre-release identifier (section 9): a number, or a string that is not all digits. */
  datatype Identifier = Numeric(n: nat) | Alphanumeric(s: string)

  /** `major.minor.patch[-pre][+build]`; build metadata plays no part in precedence (section 10). */
  datatype Version = Version(major: nat, minor: nat, patch: nat, pre: seq<Identifier>, build: seq<string>)

  predicate IsDigit(c: char) {
    '0' <= c <= '9'
  }

  /** Section 9: identifiers are made of `[0-9A-Za-z-]`. */
  predicate IsIdentifierChar(c: char) {
    IsDigit(c) || 'a' <= c <= 'z' || 'A' <= c <= 'Z' || c == '-'
  }

  predicate AllDigits(s: string) {
    forall i :: 0 <= i < |s| ==> IsDigit(s[i])
  }

  predicate AllIdentifierChars(s: string) {
    forall i :: 0 <= i < |s| ==> IsIdentifierChar(s[i])
  }

  /** Section 2: a non-negative integer written without leading zeroes. */
  predicate IsNumericIdentifier(s: string) {
    |s| > 0 && AllDigits(s) && (s[0] == '0' ==> |s| == 1)
  }

  /** Section 10: a build identifier is a non-empty run of identifier characters. */
  predicate IsBuildIdentifier(s: string) {
    |s| > 0 && AllIdentifierChars(s)
  }

  /** The versions that `Format` writes and `Parse` reads back. */
  predicate WellFormed(v: Version) {
    && (forall i :: 0 <= i < |v.pre| ==> WellFormedIdentifier(v.pre[i]))
    && (forall i :: 0 <= i < |v.build| ==> IsBuildIdentifier(v.build[i]))
  }

  predicate WellFormedIdentifier(id: Identifier) {
    id.Alphanumeric? ==> IsBuildIdentifier(id.s) && !AllDigits(id.s)
  }

  // ---------------------------------------------------------------- numbers

  function DigitValue(c: char): nat
    requires IsDigit(c)
  {
    c as int - '0' as int
  }

  function DigitChar(d: nat): (c: char)
    requires d < 10
    ensures IsDigit(c) && DigitValue(c) == d
  {
    ('0' as int + d) as char
  }

  /** The number a string of decimal digits denotes. */
  function ValueOf(s: string): nat
    requires AllDigits(s)
    decreases |s|
  {
    if |s| == 0 then 0 else ValueOf(s[..|s| - 1]) * 10 + DigitValue(s[|s| - 1])
  }

  /** The decimal numeral of `n`. */
  function NatToString(n: nat): string
    decreases n
  {
    if n < 10 then [DigitChar(n)] else NatToString(n / 10) + [DigitChar(n % 10)]
  }

  /** `NatToString` writes a numeric identifier that denotes `n`. */
  lemma {:induction false} NatToStringIsNumeric(n: nat)
    ensures IsNumericIdentifier(NatToString(n))
    ensures ValueOf(NatToString(n)) == n
    ensures NatToString(n)[0] != '0' || n == 0
    decreases n
  {
    if n >= 10 {
      var s := NatToString(n);
      NatToStringIsNumeric(n / 10);
      assert s[..|s| - 1] == NatToString(n / 10);
      assert s[0] == NatToString(n / 10)[0];
    }
  }

  lemma {:induction false} ValueOfPositive(s: string)
    requires AllDigits(s) && |s| > 0 && s[0] != '0'
    ensures ValueOf(s) > 0
    decreases |s|
  {
    if |s| > 1 {
      ValueOfPositive(s[..|s| - 1]);
    }
  }

  /** A numeric identifier is the numeral of the number it denotes. */
  lemma {:induction false} ValueOfRoundTrip(s: string)
    requires IsNumericIdentifier(s)
    ensures NatToString(ValueOf(s)) == s
    decreases |s|
  {
    if |s| > 1 {
      var p := s[..|s| - 1];
      ValueOfPositive(p);
      ValueOfRoundTrip(p);
      var v := ValueOf(s);
      assert v == ValueOf(p) * 10 + DigitValue(s[|s| - 1]);
      assert v / 10 == ValueOf(p) && v % 10 == DigitValue(s[|s| - 1]);
      assert s == p + [s[|s| - 1]];
    }
  }

  // ---------------------------------------------------------------- splitting

  /** `s.split(sep)`: the pieces between separators, empty pieces included. */
  function Split(s: string, sep: char): (parts: seq<string>)
    ensures |parts| > 0
    ensures forall i :: 0 <= i < |parts| ==> sep !in parts[i]
    decreases |s|
  {
    if |s| == 0 then [""]
    else
      var rest := Split(s[1..], sep);
      if s[0] == sep then [""] + rest else [[s[0]] + rest[0]] + rest[1..]
  }

  /** `parts.join(sep)`. */
  function Join(parts: seq<string>, sep: char): string
    requires |parts| > 0
    decreases |parts|
  {
    if |parts| == 1 then parts[0] else parts[0] + [sep] + Join(parts[1..], sep)
  }

  /** The text before the first `c`, and the text after it if there is one. */
  function SplitAtFirst(s: string, c: char): (r: (string, Option<string>))
    ensures c !in r.0
    decreases |s|
  {
    if |s| == 0 then ("", None)
    else if s[0] == c then ("", Some(s[1..]))
    else
      var rest := SplitAtFirst(s[1..], c);
      ([s[0]] + rest.0, rest.1)
  }

  lemma {:induction false} SplitNoSeparator(a: string, sep: char)
    requires sep !in a
    ensures Split(a, sep) == [a]
    decreases |a|
  {
    if |a| > 0 {
      SplitNoSeparator(a[1..], sep);
      assert [a[0]] + a[1..] == a;
    }
  }

  lemma {:induction false} SplitAfterSeparator(a: string, b: string, sep: char)
    requires sep !in a
    ensures Split(a + [sep] + b, sep) == [a] + Split(b, sep)
    decreases |a|
  {
    var s := a + [sep] + b;
    if |a| == 0 {
      assert s[0] == sep && s[1..] == b;
    } else {
      assert s[0] == a[0] && s[1..] == a[1..] + [sep] + b;
      SplitAfterSeparator(a[1..], b, sep);
      assert [a[0]] + a[1..] == a;
    }
  }

  /** Splitting what `Join` wrote gives back the pieces. */
  lemma {:induction false} SplitJoin(parts: seq<string>, sep: char)
    requires |parts| > 0
    requires forall i :: 0 <= i < |parts| ==> sep !in parts[i]
    ensures Split(Join(parts, sep), sep) == parts
    decreases |parts|
  {
    if |parts| == 1 {
      SplitNoSeparator(parts[0], sep);
    } else {
      SplitJoin(parts[1..], sep);
      SplitAfterSeparator(parts[0], Join(parts[1..], sep), sep);
      assert [parts[0]] + parts[1..] == parts;
    }
  }

  /** `Join` adds no character but the separator. */
  lemma {:induction false} JoinAvoids(parts: seq<string>, sep: char, c: char)
    requires |parts| > 0 && c != sep
    requires forall i :: 0 <= i < |parts| ==> c !in parts[i]
    ensures c !in Join(parts, sep)
    decreases |parts|
  {
    if |parts| > 1 {
      JoinAvoids(parts[1..], sep, c);
    }
  }

  lemma {:induction false} SplitAtFirstAbsent(a: string, c: char)
    requires c !in a
    ensures SplitAtFirst(a, c) == (a, None)
    decreases |a|
  {
    if |a| > 0 {
      SplitAtFirstAbsent(a[1..], c);
      assert [a[0]] + a[1..] == a;
    }
  }

  lemma {:induction false} SplitAtFirstPresent(a: string, b: string, c: char)
    requires c !in a
    ensures SplitAtFirst(a + [c] + b, c) == (a, Some(b))
    decreases |a|
  {
    var s := a + [c] + b;
    if |a| == 0 {
      assert s[0] == c && s[1..] == b;
    } else {
      assert s[0] == a[0] && s[1..] == a[1..] + [c] + b;
      SplitAtFirstPresent(a[1..], b, c);
      assert [a[0]] + a[1..] == a;
    }
  }

  // ---------------------------------------------------------------- parsing

  function ParseIdentifier(s: string): Option<Identifier> {
    if !IsBuildIdentifier(s) then None
    else if AllDigits(s) then (if IsNumericIdentifier(s) then Some(Numeric(ValueOf(s))) else None)
    else Some(Alphanumeric(s))
  }

  function ParseIdentifiers(parts: seq<string>): (r: Option<seq<Identifier>>)
    ensures r.Some? ==> |r.value| == |parts|
    decreases |parts|
  {
    if |parts| == 0 then Some([])
    else
      match (ParseIdentifier(parts[0]), ParseIdentifiers(parts[1..]))
      case (Some(id), Some(rest)) => Some([id] + rest)
      case _ => None
  }

  predicate AllBuildIdentifiers(parts: seq<string>) {
    forall i :: 0 <= i < |parts| ==> IsBuildIdentifier(parts[i])
  }

  /** The strict SemVer 2.0.0 grammar, standing in for `semver.valid`: the version a string denotes, if any. */
  function Parse(s: string): Option<Version> {
    var (main, buildText) := SplitAtFirst(s, '+');
    var (core, preText) := SplitAtFirst(main, '-');
    var build := if buildText.None? then [] else Split(buildText.value, '.');
    var numbers := Split(core, '.');
    var pre := if preText.None? then Some([]) else ParseIdentifiers(Split(preText.value, '.'));
    if |numbers| != 3 || !IsNumericIdentifier(numbers[0]) || !IsNumericIdentifier(numbers[1])
       || !IsNumericIdentifier(numbers[2]) || pre.None? || !AllBuildIdentifiers(build)
    then None
    else Some(Version(ValueOf(numbers[0]), ValueOf(numbers[1]), ValueOf(numbers[2]), pre.value, build))
  }

  predicate IsValid(s: string) {
    Parse(s).Some?
  }

  // ---------------------------------------------------------------- formatting

  function IdentifierToString(id: Identifier): string {
    match id
    case Numeric(n) => NatToString(n)
    case Alphanumeric(s) => s
  }

  function IdentifierStrings(ids: seq<Identifier>): (r: seq<string>)
    ensures |r| == |ids|
    ensures forall i :: 0 <= i < |ids| ==> r[i] == IdentifierToString(ids[i])
  {
    seq(|ids|, i requires 0 <= i < |ids| => IdentifierToString(ids[i]))
  }

  function CoreString(v: Version): string {
    NatToString(v.major) + "." + NatToString(v.minor) + "." + NatToString(v.patch)
  }

  function PreString(v: Version): string {
    if v.pre == [] then CoreString(v) else CoreString(v) + "-" + Join(IdentifierStrings(v.pre), '.')
  }

  /** The canonical text of a version. */
  function Format(v: Version): string {
    if v.build == [] then PreString(v) else PreString(v) + "+" + Join(v.build, '.')
  }

  lemma NumeralChars(n: nat)
    ensures AllDigits(NatToString(n)) && '.' !in NatToString(n) && '-' !in NatToString(n)
    ensures '+' !in NatToString(n) && AllIdentifierChars(NatToString(n))
  {
    NatToStringIsNumeric(n);
  }

  /** One well-formed identifier parses back from its text. */
  lemma ParseIdentifierRoundTrip(id: Identifier)
    requires WellFormedIdentifier(id)
    ensures ParseIdentifier(IdentifierToString(id)) == Some(id)
  {
    if id.Numeric? {
      NatToStringIsNumeric(id.n);
      NumeralChars(id.n);
    }
  }

  lemma {:induction false} ParseIdentifiersRoundTrip(ids: seq<Identifier>)
    requires forall i :: 0 <= i < |ids| ==> WellFormedIdentifier(ids[i])
    ensures ParseIdentifiers(IdentifierStrings(ids)) == Some(ids)
    decreases |ids|
  {
    if |ids| > 0 {
      var strs := IdentifierStrings(ids);
      assert strs[0] == IdentifierToString(ids[0]);
      ParseIdentifierRoundTrip(ids[0]);
      assert strs[1..] == IdentifierStrings(ids[1..]);
      ParseIdentifiersRoundTrip(ids[1..]);
      assert ParseIdentifiers(strs) == Some([ids[0]] + ids[1..]);
      assert [ids[0]] + ids[1..] == ids;
    }
  }

  lemma IdentifierStringsAvoid(ids: seq<Identifier>, c: char)
    requires c == '.' || c == '+'
    requires forall i :: 0 <= i < |ids| ==> WellFormedIdentifier(ids[i])
    ensures forall i :: 0 <= i < |ids| ==> c !in IdentifierStrings(ids)[i]
  {
    forall i | 0 <= i < |ids|
      ensures c !in IdentifierStrings(ids)[i]
    {
      match ids[i]
      case Numeric(n) => NumeralChars(n);
      case Alphanumeric(s) =>
        assert forall k :: 0 <= k < |s| ==> s[k] != c;
    }
  }

  lemma BuildAvoids(build: seq<string>, c: char)
    requires c == '.' || c == '+'
    requires AllBuildIdentifiers(build)
    ensures forall i :: 0 <= i < |build| ==> c !in build[i]
  {
    forall i | 0 <= i < |build|
      ensures c !in build[i]
    {
      assert forall k :: 0 <= k < |build[i]| ==> build[i][k] != c;
    }
  }

  lemma CoreAvoids(v: Version, c: char)
    requires c == '-' || c == '+'
    ensures c !in CoreString(v)
  {
    NumeralChars(v.major);
    NumeralChars(v.minor);
    NumeralChars(v.patch);
  }

  lemma CoreSplits(v: Version)
    ensures Split(CoreString(v), '.') == [NatToString(v.major), NatToString(v.minor), NatToString(v.patch)]
  {
    var a, b, c := NatToString(v.major), NatToString(v.minor), NatToString(v.patch);
    NumeralChars(v.major);
    NumeralChars(v.minor);
    NumeralChars(v.patch);
    assert CoreString(v) == a + ['.'] + (b + ['.'] + c);
    SplitAfterSeparator(a, b + ['.'] + c, '.');
    SplitAfterSeparator(b, c, '.');
    SplitNoSeparator(c, '.');
  }

  /** Semantic Versioning round trip: the canonical text of a well-formed version parses back to it. */
  lemma {:induction false} ParseFormat(v: Version)
    requires WellFormed(v)
    ensures Parse(Format(v)) == Some(v)
  {
    CoreAvoids(v, '+');
    CoreAvoids(v, '-');
    CoreSplits(v);
    NatToStringIsNumeric(v.major);
    NatToStringIsNumeric(v.minor);
    NatToStringIsNumeric(v.patch);
    var core := CoreString(v);
    var main := PreString(v);
    if v.pre != [] {
      var strs := IdentifierStrings(v.pre);
      IdentifierStringsAvoid(v.pre, '+');
      IdentifierStringsAvoid(v.pre, '.');
      JoinAvoids(strs, '.', '+');
      SplitAtFirstPresent(core, Join(strs, '.'), '-');
      SplitJoin(strs, '.');
      ParseIdentifiersRoundTrip(v.pre);
      assert main == core + ['-'] + Join(strs, '.');
      assert '+' !in main;
    } else {
      SplitAtFirstAbsent(core, '-');
    }
    if v.build != [] {
      BuildAvoids(v.build, '+');
      BuildAvoids(v.build, '.');
      SplitAtFirstPresent(main, Join(v.build, '.'), '+');
      SplitJoin(v.build, '.');
    } else {
      SplitAtFirstAbsent(main, '+');
    }
  }

  /** Joining the pieces of a split gives back the text. */
  lemma {:induction false} JoinSplit(s: string, sep: char)
    ensures Join(Split(s, sep), sep) == s
    decreases |s|
  {
    if |s| > 0 {
      var rest := Split(s[1..], sep);
      JoinSplit(s[1..], sep);
      var parts := Split(s, sep);
      if s[0] == sep {
        assert parts == [""] + rest && parts[1..] == rest;
      } else {
        assert parts == [[s[0]] + rest[0]] + rest[1..];
        if |rest| > 1 {
          assert parts[1..] == rest[1..];
        }
      }
    }
  }

  /** The text around the first `c` puts the whole text back together. */
  lemma {:induction false} SplitAtFirstParts(s: string, c: char)
    ensures SplitAtFirst(s, c).1.None? ==> SplitAtFirst(s, c).0 == s
    ensures SplitAtFirst(s, c).1.Some? ==> s == SplitAtFirst(s, c).0 + [c] + SplitAtFirst(s, c).1.value
    decreases |s|
  {
    if |s| > 0 && s[0] != c {
      SplitAtFirstParts(s[1..], c);
      assert s == [s[0]] + s[1..];
    }
  }

  /** Identifiers that parse are well formed and print as the text they came from. */
  lemma {:induction false} ParseIdentifiersInverse(parts: seq<string>)
    requires ParseIdentifiers(parts).Some?
    ensures var ids := ParseIdentifiers(parts).value;
      && (forall i :: 0 <= i < |ids| ==> WellFormedIdentifier(ids[i]))
      && IdentifierStrings(ids) == parts
    decreases |parts|
  {
    if |parts| > 0 {
      var ids := ParseIdentifiers(parts).value;
      var rest := ParseIdentifiers(parts[1..]).value;
      ParseIdentifiersInverse(parts[1..]);
      assert ids == [ids[0]] + rest && ids[1..] == rest;
      if AllDigits(parts[0]) {
        ValueOfRoundTrip(parts[0]);
      }
      assert IdentifierStrings(ids)[0] == parts[0];
      assert IdentifierStrings(ids)[1..] == IdentifierStrings(rest);
    }
  }

  /** Three numeric identifiers between dots are the core of the version they denote. */
  lemma CoreInverse(core: string, pre: seq<Identifier>, build: seq<string>)
    requires var n := Split(core, '.');
      |n| == 3 && IsNumericIdentifier(n[0]) && IsNumericIdentifier(n[1]) && IsNumericIdentifier(n[2])
    ensures var n := Split(core, '.');
      CoreString(Version(ValueOf(n[0]), ValueOf(n[1]), ValueOf(n[2]), pre, build)) == core
  {
    var n := Split(core, '.');
    ValueOfRoundTrip(n[0]);
    ValueOfRoundTrip(n[1]);
    ValueOfRoundTrip(n[2]);
    JoinSplit(core, '.');
    var tail := n[1..];
    assert tail[0] == n[1] && tail[1..] == [n[2]];
    assert Join(tail, '.') == n[1] + ['.'] + n[2];
    assert Join(n, '.') == n[0] + ['.'] + Join(tail, '.');
  }

  /** The other half of the round trip: only the canonical text of a well-formed version parses. */
  lemma FormatParse(s: string)
    requires Parse(s).Some?
    ensures WellFormed(Parse(s).value) && Format(Parse(s).value) == s
  {
    var v := Parse(s).value;
    var (main, buildText) := SplitAtFirst(s, '+');
    var (core, preText) := SplitAtFirst(main, '-');
    SplitAtFirstParts(s, '+');
    SplitAtFirstParts(main, '-');
    CoreInverse(core, v.pre, v.build);
    assert CoreString(v) == core;
    if preText.Some? {
      ParseIdentifiersInverse(Split(preText.value, '.'));
      JoinSplit(preText.value, '.');
    }
    assert PreString(v) == main;
    if buildText.Some? {
      JoinSplit(buildText.value, '.');
    }
  }

  // ---------------------------------------------------------------- precedence

  function CompareNat(a: nat, b: nat): int {
    if a < b then -1 else if a > b then 1 else 0
  }

  /** Section 11.4.2: ASCII order, a proper prefix first. */
  function CompareStrings(a: string, b: string): int
    decreases |a|
  {
    if |a| == 0 && |b| == 0 then 0
    else if |a| == 0 then -1
    else if |b| == 0 then 1
    else if a[0] < b[0] then -1
    else if a[0] > b[0] then 1
    else CompareStrings(a[1..], b[1..])
  }

  /** Section 11.4.1-11.4.3: numbers numerically, numbers before alphanumerics. */
  function CompareIdentifiers(a: Identifier, b: Identifier): int {
    match (a, b)
    case (Numeric(x), Numeric(y)) => CompareNat(x, y)
    case (Numeric(_), Alphanumeric(_)) => -1
    case (Alphanumeric(_), Numeric(_)) => 1
    case (Alphanumeric(x), Alphanumeric(y)) => CompareStrings(x, y)
  }

  /** Section 11.4: field by field, the shorter list first when all else is equal. */
  function CompareIdentifierLists(a: seq<Identifier>, b: seq<Identifier>): int
    decreases |a|
  {
    if |a| == 0 && |b| == 0 then 0
    else if |a| == 0 then -1
    else if |b| == 0 then 1
    else if CompareIdentifiers(a[0], b[0]) != 0 then CompareIdentifiers(a[0], b[0])
    else CompareIdentifierLists(a[1..], b[1..])
  }

  /** Section 11.3: a pre-release version has lower precedence than the normal version. */
  function ComparePrerelease(a: seq<Identifier>, b: seq<Identifier>): int {
    if a == [] && b == [] then 0
    else if a == [] then 1
    else if b == [] then -1
    else CompareIdentifierLists(a, b)
  }

  /** Section 11: -1, 0 or 1 as `a` has lower, equal or higher precedence than `b`. */
  function Compare(a: Version, b: Version): int {
    if CompareNat(a.major, b.major) != 0 then CompareNat(a.major, b.major)
    else if CompareNat(a.minor, b.minor) != 0 then CompareNat(a.minor, b.minor)
    else if CompareNat(a.patch, b.patch) != 0 then CompareNat(a.patch, b.patch)
    else ComparePrerelease(a.pre, b.pre)
  }

  /** `semver.gt(a, b)`. */
  predicate GreaterThan(a: Version, b: Version) {
    Compare(a, b) > 0
  }

  lemma {:induction false} CompareStringsAntisymmetric(a: string, b: string)
    ensures CompareStrings(a, b) == -CompareStrings(b, a)
    ensures CompareStrings(a, b) == 0 <==> a == b
    decreases |a|
  {
    if |a| > 0 && |b| > 0 && a[0] == b[0] {
      CompareStringsAntisymmetric(a[1..], b[1..]);
      assert a == [a[0]] + a[1..] && b == [b[0]] + b[1..];
    }
  }

  lemma {:induction false} CompareStringsTransitive(a: string, b: string, c: string)
    requires CompareStrings(a, b) > 0 && CompareStrings(b, c) > 0
    ensures CompareStrings(a, c) > 0
    decreases |a|
  {
    if |c| > 0 && a[0] == b[0] && b[0] == c[0] {
      CompareStringsTransitive(a[1..], b[1..], c[1..]);
    }
  }

  lemma CompareIdentifiersAntisymmetric(a: Identifier, b: Identifier)
    ensures CompareIdentifiers(a, b) == -CompareIdentifiers(b, a)
    ensures CompareIdentifiers(a, b) == 0 <==> a == b
  {
    if a.Alphanumeric? && b.Alphanumeric? {
      CompareStringsAntisymmetric(a.s, b.s);
    }
  }

  lemma CompareIdentifiersTransitive(a: Identifier, b: Identifier, c: Identifier)
    requires CompareIdentifiers(a, b) > 0 && CompareIdentifiers(b, c) > 0
    ensures CompareIdentifiers(a, c) > 0
  {
    if a.Alphanumeric? && b.Alphanumeric? && c.Alphanumeric? {
      CompareStringsTransitive(a.s, b.s, c.s);
    }
  }

  lemma {:induction false} CompareListsAntisymmetric(a: seq<Identifier>, b: seq<Identifier>)
    ensures CompareIdentifierLists(a, b) == -CompareIdentifierLists(b, a)
    ensures CompareIdentifierLists(a, b) == 0 <==> a == b
    decreases |a|
  {
    if |a| > 0 && |b| > 0 {
      CompareIdentifiersAntisymmetric(a[0], b[0]);
      if a[0] == b[0] {
        CompareListsAntisymmetric(a[1..], b[1..]);
        assert a == [a[0]] + a[1..] && b == [b[0]] + b[1..];
      }
    }
  }

  lemma {:induction false} CompareListsTransitive(a: seq<Identifier>, b: seq<Identifier>, c: seq<Identifier>)
    requires CompareIdentifierLists(a, b) > 0 && CompareIdentifierLists(b, c) > 0
    ensures CompareIdentifierLists(a, c) > 0
    decreases |a|
  {
    if |c| > 0 {
      CompareIdentifiersAntisymmetric(a[0], b[0]);
      CompareIdentifiersAntisymmetric(b[0], c[0]);
      if CompareIdentifiers(a[0], b[0]) == 0 && CompareIdentifiers(b[0], c[0]) == 0 {
        CompareListsTransitive(a[1..], b[1..], c[1..]);
      } else if CompareIdentifiers(a[0], b[0]) > 0 && CompareIdentifiers(b[0], c[0]) > 0 {
        CompareIdentifiersTransitive(a[0], b[0], c[0]);
      }
    }
  }

  /** Precedence is antisymmetric, and two versions tie exactly when they differ at most in build metadata. */
  lemma CompareAntisymmetric(a: Version, b: Version)
    ensures Compare(a, b) == -Compare(b, a)
    ensures Compare(a, b) == 0 <==> a.(build := []) == b.(build := [])
  {
    CompareListsAntisymmetric(a.pre, b.pre);
  }

  /** Precedence is transitive, so `GreaterThan` is a strict order. */
  lemma CompareTransitive(a: Version, b: Version, c: Version)
    requires GreaterThan(a, b) && GreaterThan(b, c)
    ensures GreaterThan(a, c)
  {
    if a.pre != [] && b.pre != [] && c.pre != [] {
      CompareListsAntisymmetric(a.pre, b.pre);
      CompareListsAntisymmetric(b.pre, c.pre);
      if CompareIdentifierLists(a.pre, b.pre) > 0 && CompareIdentifierLists(b.pre, c.pre) > 0 {
        CompareListsTransitive(a.pre, b.pre, c.pre);
      }
    }
  }

  /** Section 11.3's example: 1.0.0-alpha < 1.0.0. */
  lemma PrereleaseBeforeRelease(v: Version)
    requires v.pre != []
    ensures GreaterThan(v.(pre := [], build := []), v)
  {
  }

  /** The baseline `2.0.0` is a valid version with no pre-release part. */
  lemma {:induction false} BaselineParses()
    ensures Parse("2.0.0") == Some(Version(2, 0, 0, [], []))
  {
    var v := Version(2, 0, 0, [], []);
    assert NatToString(2) == "2" && NatToString(0) == "0";
    assert Format(v) == "2.0.0";
    ParseFormat(v);
  }
}
