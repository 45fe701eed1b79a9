/**
 * The part of the `semver` package the dispatcher relies on: versions as
 * (major, minor, patch) triples ordered lexicographically, the strict
 * `major.minor.patch` form `semver.gte` accepts for its second argument, and
 * `gte` itself, which throws `Invalid Version` on a string not of that form.
 */
module Semver {
  import opened Wrappers

  datatype Version = Version(major: nat, minor: nat, patch: nat)

  /** `a` precedes `b`: lexicographic on (major, minor, patch). */
  predicate Less(a: Version, b: Version)
  {
    || a.major < b.major
    || (a.major == b.major && a.minor < b.minor)
    || (a.major == b.major && a.minor == b.minor && a.patch < b.patch)
  }

  /** `semver.compare(a, b)`: -1, 0 or 1. */
  function Compare(a: Version, b: Version): (r: int)
    ensures r == -1 <==> Less(a, b)
    ensures r == 0 <==> a == b
    ensures r == 1 <==> Less(b, a)
  {
    if Less(a, b) then -1 else if a == b then 0 else 1
  }

  // Decimal digits.

  predicate IsDigit(c: char)
  {
    '0' <= c <= '9'
  }

  function DigitValue(c: char): (n: nat)
    requires IsDigit(c)
    ensures n < 10
  {
    (c - '0') as nat
  }

  function DigitChar(n: nat): (c: char)
    requires n < 10
    ensures IsDigit(c) && DigitValue(c) == n
  {
    (n + '0' as nat) as char
  }

  /** A numeric identifier: one or more digits, with no leading zero unless it is `0`. */
  predicate IsNumeric(s: string)
  {
    && |s| >= 1
    && (forall i :: 0 <= i < |s| ==> IsDigit(s[i]))
    && (s[0] == '0' ==> |s| == 1)
  }

  /** The value of a digit string. */
  function DigitsValue(s: string): nat
    requires forall i :: 0 <= i < |s| ==> IsDigit(s[i])
    decreases |s|
  {
    if s == [] then 0 else DigitsValue(s[..|s| - 1]) * 10 + DigitValue(s[|s| - 1])
  }

  /** `String(n)`: the decimal form of `n`. */
  function Show(n: nat): (s: string)
    ensures |s| >= 1 && forall i :: 0 <= i < |s| ==> IsDigit(s[i])
    decreases n
  {
    if n < 10 then [DigitChar(n)] else Show(n / 10) + [DigitChar(n % 10)]
  }

  lemma {:induction false} ShowLeading(n: nat)
    ensures n >= 1 ==> Show(n)[0] != '0'
    decreases n
  {
    if n >= 10 {
      ShowLeading(n / 10);
      assert Show(n)[0] == Show(n / 10)[0];
    }
  }

  /** The decimal form of a number is a numeric identifier with that value. */
  lemma {:induction false} ShowNumeric(n: nat)
    ensures IsNumeric(Show(n)) && DigitsValue(Show(n)) == n
    decreases n
  {
    ShowLeading(n);
    if n >= 10 {
      ShowNumeric(n / 10);
      var s := Show(n);
      assert s[..|s| - 1] == Show(n / 10);
    }
  }

  lemma {:induction false} LeadingValue(s: string)
    requires IsNumeric(s) && |s| > 1
    ensures DigitsValue(s) >= 10
    decreases |s|
  {
    var init := s[..|s| - 1];
    if |init| > 1 {
      assert IsNumeric(init);
      LeadingValue(init);
    } else {
      assert init[0] == s[0];
    }
  }

  /** A numeric identifier is the decimal form of its value. */
  lemma {:induction false} NumericShow(s: string)
    requires IsNumeric(s)
    ensures Show(DigitsValue(s)) == s
    decreases |s|
  {
    if |s| > 1 {
      var init := s[..|s| - 1];
      var last := s[|s| - 1];
      assert init[0] == s[0];
      assert IsNumeric(init);
      NumericShow(init);
      LeadingValue(s);
      assert DigitsValue(s) == DigitsValue(init) * 10 + DigitValue(last);
      ShowStep(DigitsValue(init), DigitValue(last));
      assert DigitChar(DigitValue(last)) == last;
      assert s == init + [last];
    } else {
      assert s[..0] == [];
      assert DigitsValue(s) == DigitValue(s[0]);
      assert DigitChar(DigitValue(s[0])) == s[0];
      assert s == [s[0]];
    }
  }

  /** Appending a digit to a decimal form of at least one digit's worth. */
  lemma ShowStep(x: nat, d: nat)
    requires d < 10 && x * 10 + d >= 10
    ensures Show(x * 10 + d) == Show(x) + [DigitChar(d)]
  {
    DivMod10(x, d);
  }

  lemma DivMod10(x: nat, d: nat)
    requires d < 10
    ensures (x * 10 + d) / 10 == x && (x * 10 + d) % 10 == d
  {
  }

  // Dot-separated parts.

  /** `s.split('.')`. */
  function Split(s: string): (r: seq<string>)
    ensures |r| >= 1
    decreases |s|
  {
    if s == [] then [[]]
    else if s[0] == '.' then [[]] + Split(s[1..])
    else
      var rest := Split(s[1..]);
      [[s[0]] + rest[0]] + rest[1..]
  }

  /** `parts.join('.')`. */
  function Join(parts: seq<string>): string
    requires |parts| >= 1
    decreases |parts|
  {
    if |parts| == 1 then parts[0] else parts[0] + "." + Join(parts[1..])
  }

  /** Splitting and joining again gives the string back. */
  lemma {:induction false} JoinSplit(s: string)
    ensures Join(Split(s)) == s
    decreases |s|
  {
    if s != [] {
      JoinSplit(s[1..]);
      if s[0] == '.' {
        JoinSplitDot(s);
      } else {
        JoinSplitChar(s);
      }
    }
  }

  lemma JoinSplitDot(s: string)
    requires s != [] && s[0] == '.' && Join(Split(s[1..])) == s[1..]
    ensures Join(Split(s)) == s
  {
    var rest := Split(s[1..]);
    assert Split(s) == [[]] + rest;
    assert ([[]] + rest)[1..] == rest;
    assert s == "." + s[1..];
  }

  lemma JoinSplitChar(s: string)
    requires s != [] && s[0] != '.' && Join(Split(s[1..])) == s[1..]
    ensures Join(Split(s)) == s
  {
    var rest := Split(s[1..]);
    var head := [s[0]] + rest[0];
    var tail := rest[1..];
    var r := Split(s);
    assert r == [head] + tail;
    if tail == [] {
      assert Join(rest) == rest[0];
      assert s == [s[0]] + s[1..];
    } else {
      assert r[1..] == tail;
      calc {
        Join(r);
        head + "." + Join(tail);
        { ConcatAssoc([s[0]], rest[0], "."); ConcatAssoc([s[0]], rest[0] + ".", Join(tail)); }
        [s[0]] + (rest[0] + "." + Join(tail));
        [s[0]] + Join(rest);
        [s[0]] + s[1..];
        s;
      }
    }
  }

  lemma ConcatAssoc<T>(a: seq<T>, b: seq<T>, c: seq<T>)
    ensures a + b + c == a + (b + c)
  {
  }

  /** A part without a dot, a dot, and the rest splits into that part and the rest's parts. */
  lemma {:induction false} SplitFirst(a: string, b: string)
    requires forall i :: 0 <= i < |a| ==> a[i] != '.'
    ensures Split(a + "." + b) == [a] + Split(b)
    decreases |a|
  {
    if a == [] {
      assert a + "." + b == "." + b;
      assert ("." + b)[1..] == b;
    } else {
      var s := a + "." + b;
      assert s[0] == a[0];
      assert s[1..] == a[1..] + "." + b;
      SplitFirst(a[1..], b);
      assert [a[0]] + a[1..] == a;
    }
  }

  lemma {:induction false} SplitNoDot(a: string)
    requires forall i :: 0 <= i < |a| ==> a[i] != '.'
    ensures Split(a) == [a]
    decreases |a|
  {
    if a != [] {
      SplitNoDot(a[1..]);
      assert [a[0]] + a[1..] == a;
    }
  }

  // Versions as strings.

  /** The strict `major.minor.patch` form: three numeric identifiers, nothing else. */
  function ParseVersion(s: string): (r: Option<Version>)
    ensures r.Some? <==> |Split(s)| == 3 && IsNumeric(Split(s)[0]) && IsNumeric(Split(s)[1]) && IsNumeric(Split(s)[2])
  {
    var parts := Split(s);
    if |parts| == 3 && IsNumeric(parts[0]) && IsNumeric(parts[1]) && IsNumeric(parts[2])
    then Some(Version(DigitsValue(parts[0]), DigitsValue(parts[1]), DigitsValue(parts[2])))
    else None
  }

  function FormatVersion(v: Version): string
  {
    Show(v.major) + "." + Show(v.minor) + "." + Show(v.patch)
  }

  lemma DigitsHaveNoDot(s: string)
    requires forall i :: 0 <= i < |s| ==> IsDigit(s[i])
    ensures forall i :: 0 <= i < |s| ==> s[i] != '.'
  {
  }

  /** Three dot-free parts joined by dots split back into those parts. */
  lemma SplitThree(a: string, b: string, c: string)
    requires forall i :: 0 <= i < |a| ==> a[i] != '.'
    requires forall i :: 0 <= i < |b| ==> b[i] != '.'
    requires forall i :: 0 <= i < |c| ==> c[i] != '.'
    ensures Split(a + "." + b + "." + c) == [a, b, c]
  {
    SplitNoDot(c);
    SplitFirst(b, c);
    assert a + "." + b + "." + c == a + "." + (b + "." + c);
    SplitFirst(a, b + "." + c);
  }

  lemma Join3(parts: seq<string>)
    requires |parts| == 3
    ensures Join(parts) == parts[0] + "." + parts[1] + "." + parts[2]
  {
    assert Join(parts[1..]) == parts[1] + "." + Join(parts[2..]);
    assert Join(parts[2..]) == parts[2];
  }

  /** Formatting a version and parsing it back gives the version. */
  lemma ParseFormat(v: Version)
    ensures ParseVersion(FormatVersion(v)) == Some(v)
  {
    var a, b, c := Show(v.major), Show(v.minor), Show(v.patch);
    ShowNumeric(v.major);
    ShowNumeric(v.minor);
    ShowNumeric(v.patch);
    DigitsHaveNoDot(a);
    DigitsHaveNoDot(b);
    DigitsHaveNoDot(c);
    SplitThree(a, b, c);
  }

  /** A string that parses is the formatted form of its version: the strict form is canonical. */
  lemma FormatParse(s: string)
    requires ParseVersion(s).Some?
    ensures FormatVersion(ParseVersion(s).value) == s
  {
    var parts := Split(s);
    var v := ParseVersion(s).value;
    NumericShow(parts[0]);
    NumericShow(parts[1]);
    NumericShow(parts[2]);
    assert Show(v.major) == parts[0] && Show(v.minor) == parts[1] && Show(v.patch) == parts[2];
    JoinSplit(s);
    Join3(parts);
  }

  /** `semver.gte(version, threshold)`: throws `Invalid Version` unless the threshold is strict. */
  function Gte(version: Version, threshold: string): (r: Result<bool, string>)
    ensures r.Failure? <==> ParseVersion(threshold).None?
    ensures r.Failure? ==> r.error == "Invalid Version: " + threshold
    ensures r.Success? ==> (r.value <==> !Less(version, ParseVersion(threshold).value))
  {
    match ParseVersion(threshold)
    case None => Failure("Invalid Version: " + threshold)
    case Some(t) => Success(Compare(version, t) >= 0)
  }
}
