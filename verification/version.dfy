/**
 * The version helpers: MAJOR.MINOR.PATCH strings parsed to triples of
 * naturals, bumped by one component, compared lexicographically, and the
 * shipped version with its "v" prefix.  A component is read as JavaScript's
 * Number() reads a string of decimal digits; any other component reads as 0,
 * as the NaN of Number() does after `|| 0`.
 */
module Version {
  const CURRENT_VERSION: string := "1.3.47"

  datatype Semver = Semver(major: nat, minor: nat, patch: nat)

  datatype Bump = Major | Minor | Patch

  // ---------------------------------------------------------------------
  // Decimal digits

  predicate IsDigit(c: char) { '0' <= c <= '9' }

  predicate AllDigits(s: string) { forall i :: 0 <= i < |s| ==> IsDigit(s[i]) }

  function DigitValue(c: char): nat
    requires IsDigit(c)
  {
    c as int - '0' as int
  }

  function DigitChar(d: nat): (c: char)
    requires d < 10
    ensures IsDigit(c) && DigitValue(c) == d
  {
    ('0' as int + d) as char
  }

  /** The value of a string of decimal digits, most significant first; the empty string is 0, like Number(""). */
  function DigitsValue(s: string): nat
    requires AllDigits(s)
  {
    if |s| == 0 then 0 else DigitsValue(s[..|s| - 1]) * 10 + DigitValue(s[|s| - 1])
  }

  /** `${n}` for a natural n: a nonempty digit string without a leading zero that reads back as n. */
  function NatToString(n: nat): (s: string)
    ensures |s| > 0 && AllDigits(s)
    ensures |s| == 1 || s[0] != '0'
    ensures DigitsValue(s) == n
    decreases n
  {
    if n < 10 then [DigitChar(n)]
    else
      var init := NatToString(n / 10);
      var s := init + [DigitChar(n % 10)];
      assert s[..|s| - 1] == init;
      assert s[0] == init[0];
      assert |init| == 1 ==> DigitsValue(init) == DigitValue(init[0]) by {
        if |init| == 1 { assert init[..0] == []; }
      }
      s
  }

  /** A digit string whose first digit is not 0 has a positive value. */
  lemma {:induction false} LeadingDigitPositive(s: string)
    requires |s| > 0 && AllDigits(s) && s[0] != '0'
    ensures DigitsValue(s) > 0
    decreases |s|
  {
    if |s| > 1 {
      var init := s[..|s| - 1];
      assert init[0] == s[0];
      LeadingDigitPositive(init);
    } else {
      assert s[..0] == [];
    }
  }

  /** The other direction of the digit round trip: a canonical digit string is what `${n}` prints for its value. */
  lemma {:induction false} CanonicalDigits(s: string)
    requires |s| > 0 && AllDigits(s) && (|s| == 1 || s[0] != '0')
    ensures NatToString(DigitsValue(s)) == s
    decreases |s|
  {
    var init := s[..|s| - 1];
    if |s| == 1 {
      assert init == [];
      assert DigitChar(DigitValue(s[0])) == s[0];
    } else {
      assert init[0] == s[0];
      LeadingDigitPositive(init);
      CanonicalDigits(init);
      var n := DigitsValue(s);
      assert n / 10 == DigitsValue(init) && n % 10 == DigitValue(s[|s| - 1]);
      assert DigitChar(DigitValue(s[|s| - 1])) == s[|s| - 1];
      assert s == init + [s[|s| - 1]];
    }
  }

  // ---------------------------------------------------------------------
  // String.prototype.split and its inverse

  /** Joins nonempty `parts` with `sep` between consecutive parts. */
  function Join(parts: seq<string>, sep: char): string
    requires |parts| > 0
  {
    if |parts| == 1 then parts[0] else parts[0] + [sep] + Join(parts[1..], sep)
  }

  /**
   * s.split(sep) for a one-character separator: the maximal pieces between
   * separators, so "" gives [""] and a trailing separator gives a trailing "".
   */
  function Split(s: string, sep: char): (parts: seq<string>)
    ensures |parts| > 0
    ensures forall i :: 0 <= i < |parts| ==> sep !in parts[i]
    decreases |s|
  {
    if |s| == 0 then [""]
    else
      var rest := Split(s[1..], sep);
      if s[0] == sep then [""] + rest
      else
        var parts := [[s[0]] + rest[0]] + rest[1..];
        assert forall i :: 1 <= i < |parts| ==> parts[i] == rest[i];
        parts
  }

  /** Joining the pieces of a split gives back the string. */
  lemma {:induction false} JoinSplit(s: string, sep: char)
    ensures Join(Split(s, sep), sep) == s
    decreases |s|
  {
    if |s| > 0 {
      var rest := Split(s[1..], sep);
      JoinSplit(s[1..], sep);
      if s[0] == sep {
        assert Split(s, sep)[1..] == rest;
      } else {
        var parts := Split(s, sep);
        assert parts[1..] == rest[1..];
        if |rest| > 1 {
          assert Join(rest, sep) == rest[0] + [sep] + Join(rest[1..], sep);
        }
        assert s == [s[0]] + s[1..];
      }
    }
  }

  /** Splitting a separator-free piece followed by a separator peels that piece off. */
  lemma {:induction false} SplitPiece(x: string, y: string, sep: char)
    requires sep !in x
    ensures Split(x + [sep] + y, sep) == [x] + Split(y, sep)
    decreases |x|
  {
    var s := x + [sep] + y;
    if |x| == 0 {
      assert s == [sep] + y && s[1..] == y;
    } else {
      assert s[0] == x[0] && s[1..] == x[1..] + [sep] + y;
      SplitPiece(x[1..], y, sep);
      assert [x[0]] + x[1..] == x;
    }
  }

  /** A separator-free string splits into itself alone. */
  lemma {:induction false} SplitWhole(x: string, sep: char)
    requires sep !in x
    ensures Split(x, sep) == [x]
    decreases |x|
  {
    if |x| > 0 {
      assert sep !in x[1..];
      SplitWhole(x[1..], sep);
      assert [x[0]] + x[1..] == x;
    }
  }

  /** Splitting a join of separator-free parts gives back the parts. */
  lemma {:induction false} SplitJoin(parts: seq<string>, sep: char)
    requires |parts| > 0
    requires forall i :: 0 <= i < |parts| ==> sep !in parts[i]
    ensures Split(Join(parts, sep), sep) == parts
    decreases |parts|
  {
    if |parts| == 1 {
      SplitWhole(parts[0], sep);
    } else {
      SplitJoin(parts[1..], sep);
      SplitPiece(parts[0], Join(parts[1..], sep), sep);
      assert parts == [parts[0]] + parts[1..];
    }
  }

  // ---------------------------------------------------------------------
  // parseVersion, incrementVersion, isNewerVersion

  /** version.replace(/^v/, ''): one leading lower-case v is dropped, no more. */
  function StripV(s: string): string
  {
    if |s| > 0 && s[0] == 'v' then s[1..] else s
  }

  /** Number(part) || 0, for the parts this model reads: digit strings by value, anything else 0. */
  function Component(part: string): nat
  {
    if AllDigits(part) then DigitsValue(part) else 0
  }

  /** The i-th component, 0 when the split produced fewer parts. */
  function ComponentAt(parts: seq<string>, i: nat): nat
  {
    if i < |parts| then Component(parts[i]) else 0
  }

  /** parseVersion: the first three dot-separated components of the version with one leading v dropped. */
  function ParseVersion(version: string): Semver
  {
    var parts := Split(StripV(version), '.');
    Semver(ComponentAt(parts, 0), ComponentAt(parts, 1), ComponentAt(parts, 2))
  }

  /** `${major}.${minor}.${patch}`. */
  function Format(v: Semver): string
  {
    NatToString(v.major) + "." + NatToString(v.minor) + "." + NatToString(v.patch)
  }

  /** The triple a bump of the given kind produces: lower components reset to 0. */
  function Bumped(v: Semver, kind: Bump): Semver
  {
    match kind
    case Major => Semver(v.major + 1, 0, 0)
    case Minor => Semver(v.major, v.minor + 1, 0)
    case Patch => Semver(v.major, v.minor, v.patch + 1)
  }

  /** incrementVersion: parse, bump the chosen component (Patch when none is given), print again. */
  function IncrementVersion(version: string, kind: Bump := Patch): (r: string)
    ensures ParseVersion(r) == Bumped(ParseVersion(version), kind)
    ensures r[0] != 'v'
  {
    var r := Format(Bumped(ParseVersion(version), kind));
    ParseFormat(Bumped(ParseVersion(version), kind));
    r
  }

  /** isNewerVersion's comparison on parsed triples: the first differing component decides. */
  predicate Newer(a: Semver, b: Semver)
  {
    if a.major != b.major then a.major > b.major
    else if a.minor != b.minor then a.minor > b.minor
    else a.patch > b.patch
  }

  /** isNewerVersion: is `current` newer than `compare`? */
  predicate IsNewerVersion(current: string, compare: string)
  {
    Newer(ParseVersion(current), ParseVersion(compare))
  }

  /** getVersion: the shipped version string. */
  function GetVersion(): (r: string)
    ensures ParseVersion(r) == Semver(1, 3, 47)
  {
    ParseFormat(Semver(1, 3, 47));
    assert Format(Semver(1, 3, 47)) == CURRENT_VERSION;
    CURRENT_VERSION
  }

  /** getFormattedVersion: the shipped version behind a "v". */
  function GetFormattedVersion(): (r: string)
    ensures |r| > 0 && r[0] == 'v' && r[1..] == GetVersion()
  {
    "v" + CURRENT_VERSION
  }

  // ---------------------------------------------------------------------
  // Properties

  /** Digit strings contain no dot, so they survive a split on '.' whole. */
  lemma NoDot(s: string)
    requires AllDigits(s)
    ensures '.' !in s
  {
    forall i | 0 <= i < |s|
      ensures s[i] != '.'
    {
      assert IsDigit(s[i]);
    }
  }

  /** Parsing a printed version gives back its triple. */
  lemma ParseFormat(v: Semver)
    ensures ParseVersion(Format(v)) == v
    ensures |Format(v)| > 0 && Format(v)[0] != 'v'
  {
    var a, b, c := NatToString(v.major), NatToString(v.minor), NatToString(v.patch);
    NoDot(a);
    NoDot(b);
    NoDot(c);
    var s := Format(v);
    assert [a, b, c][1..] == [b, c] && [b, c][1..] == [c];
    assert Join([b, c], '.') == b + ['.'] + c;
    assert s == Join([a, b, c], '.');
    SplitJoin([a, b, c], '.');
    assert s[0] == a[0] && IsDigit(a[0]);
  }

  /** A leading "v" is ignored: "v1.2.3" and "1.2.3" parse alike. */
  lemma LeadingVIgnored(s: string)
    requires |s| == 0 || s[0] != 'v'
    ensures ParseVersion("v" + s) == ParseVersion(s)
  {
    assert ("v" + s)[1..] == s;
  }

  /** Only one "v" is stripped: in "vv…" the first component still starts with v and reads as 0. */
  lemma OnlyOneVStripped(s: string)
    ensures ParseVersion("vv" + s).major == 0
  {
    var rest := ("vv" + s)[1..];
    assert rest == "v" + s;
    var parts := Split(rest, '.');
    assert parts[0][0] == 'v';
    assert !IsDigit(parts[0][0]);
  }

  /** Components beyond the third are ignored. */
  lemma ExtraComponentsIgnored(v: Semver, extra: string)
    ensures ParseVersion(Format(v) + "." + extra) == v
  {
    var a, b, c := NatToString(v.major), NatToString(v.minor), NatToString(v.patch);
    NoDot(a);
    NoDot(b);
    NoDot(c);
    var s := Format(v) + "." + extra;
    assert s == a + ['.'] + (b + ['.'] + (c + ['.'] + extra));
    SplitPiece(c, extra, '.');
    SplitPiece(b, c + ['.'] + extra, '.');
    SplitPiece(a, b + ['.'] + (c + ['.'] + extra), '.');
    assert s[0] == a[0] && IsDigit(a[0]);
  }

  /** Missing components read as 0: "M" is M.0.0 and "M.m" is M.m.0. */
  lemma MissingComponentsZero(major: nat, minor: nat)
    ensures ParseVersion(NatToString(major)) == Semver(major, 0, 0)
    ensures ParseVersion(NatToString(major) + "." + NatToString(minor)) == Semver(major, minor, 0)
  {
    var a, b := NatToString(major), NatToString(minor);
    NoDot(a);
    NoDot(b);
    SplitWhole(a, '.');
    assert a[0] != 'v' by { assert IsDigit(a[0]); }
    SplitWhole(b, '.');
    SplitPiece(a, b, '.');
    assert (a + "." + b) == a + ['.'] + b;
    assert (a + "." + b)[0] == a[0];
  }

  /** The increment is exactly the bump of each kind, printed in canonical form. */
  lemma IncrementShape(version: string, kind: Bump)
    ensures var p := ParseVersion(version);
            IncrementVersion(version, kind) ==
              match kind
              case Major => NatToString(p.major + 1) + ".0.0"
              case Minor => NatToString(p.major) + "." + NatToString(p.minor + 1) + ".0"
              case Patch => NatToString(p.major) + "." + NatToString(p.minor) + "." + NatToString(p.patch + 1)
  {
    assert NatToString(0) == "0";
  }

  /** An increment of any kind is newer than the version it came from. */
  lemma IncrementIsNewer(version: string, kind: Bump)
    ensures IsNewerVersion(IncrementVersion(version, kind), version)
  {
  }

  /** Without a kind, incrementVersion bumps the patch component: "1.3.47" becomes "1.3.48". */
  lemma DefaultBumpIsPatch(version: string)
    ensures ParseVersion(IncrementVersion(version)) == Semver(ParseVersion(version).major, ParseVersion(version).minor, ParseVersion(version).patch + 1)
    ensures IncrementVersion(CURRENT_VERSION) == "1.3.48"
  {
    var _ := GetVersion();
    assert Format(Semver(1, 3, 48)) == "1.3.48";
  }

  // ---------------------------------------------------------------------
  // isNewerVersion is a strict total order on parsed versions

  /** Reference order: lexicographic comparison of equally long lists of components. */
  predicate LexGreater(x: seq<nat>, y: seq<nat>)
    requires |x| == |y|
    decreases |x|
  {
    if |x| == 0 then false
    else if x[0] != y[0] then x[0] > y[0]
    else LexGreater(x[1..], y[1..])
  }

  function Components(v: Semver): (c: seq<nat>)
    ensures |c| == 3
  {
    [v.major, v.minor, v.patch]
  }

  /** isNewerVersion's if-chain is the lexicographic order on (major, minor, patch). */
  lemma NewerIsLex(a: Semver, b: Semver)
    ensures Newer(a, b) <==> LexGreater(Components(a), Components(b))
  {
    var x, y := Components(a), Components(b);
    assert x[1..] == [a.minor, a.patch] && y[1..] == [b.minor, b.patch];
    assert x[1..][1..] == [a.patch] && y[1..][1..] == [b.patch];
    assert !LexGreater(x[1..][1..][1..], y[1..][1..][1..]);
    assert LexGreater(x[1..][1..], y[1..][1..]) <==> a.patch > b.patch;
    assert LexGreater(x[1..], y[1..]) <==> (if a.minor != b.minor then a.minor > b.minor else a.patch > b.patch);
  }

  lemma {:induction false} LexIrreflexive(x: seq<nat>)
    ensures !LexGreater(x, x)
    decreases |x|
  {
    if |x| > 0 {
      LexIrreflexive(x[1..]);
    }
  }

  lemma {:induction false} LexAsymmetric(x: seq<nat>, y: seq<nat>)
    requires |x| == |y| && LexGreater(x, y)
    ensures !LexGreater(y, x)
    decreases |x|
  {
    if x[0] == y[0] {
      LexAsymmetric(x[1..], y[1..]);
    }
  }

  lemma {:induction false} LexTransitive(x: seq<nat>, y: seq<nat>, z: seq<nat>)
    requires |x| == |y| == |z| && LexGreater(x, y) && LexGreater(y, z)
    ensures LexGreater(x, z)
    decreases |x|
  {
    if x[0] == y[0] && y[0] == z[0] {
      LexTransitive(x[1..], y[1..], z[1..]);
    }
  }

  /** Two different lists of the same length are ordered one way or the other. */
  lemma {:induction false} LexTotal(x: seq<nat>, y: seq<nat>)
    requires |x| == |y| && x != y
    ensures LexGreater(x, y) || LexGreater(y, x)
    decreases |x|
  {
    if x[0] == y[0] {
      assert x == [x[0]] + x[1..] && y == [y[0]] + y[1..];
      LexTotal(x[1..], y[1..]);
    }
  }

  /** No version is newer than itself. */
  lemma NewerIrreflexive(v: string)
    ensures !IsNewerVersion(v, v)
  {
    var p := ParseVersion(v);
    NewerIsLex(p, p);
    LexIrreflexive(Components(p));
  }

  /** If a is newer than b, b is not newer than a. */
  lemma NewerAsymmetric(a: string, b: string)
    requires IsNewerVersion(a, b)
    ensures !IsNewerVersion(b, a)
  {
    var p, q := ParseVersion(a), ParseVersion(b);
    NewerIsLex(p, q);
    NewerIsLex(q, p);
    LexAsymmetric(Components(p), Components(q));
  }

  /** Newer-than chains. */
  lemma NewerTransitive(a: string, b: string, c: string)
    requires IsNewerVersion(a, b) && IsNewerVersion(b, c)
    ensures IsNewerVersion(a, c)
  {
    var p, q, r := ParseVersion(a), ParseVersion(b), ParseVersion(c);
    NewerIsLex(p, q);
    NewerIsLex(q, r);
    NewerIsLex(p, r);
    LexTransitive(Components(p), Components(q), Components(r));
  }

  /** Versions that parse differently are ordered one way or the other; equal parses are newer neither way. */
  lemma NewerTotal(a: string, b: string)
    ensures ParseVersion(a) != ParseVersion(b) <==> IsNewerVersion(a, b) || IsNewerVersion(b, a)
  {
    var p, q := ParseVersion(a), ParseVersion(b);
    NewerIsLex(p, q);
    NewerIsLex(q, p);
    if p != q {
      assert Components(p) != Components(q);
      LexTotal(Components(p), Components(q));
    } else {
      LexIrreflexive(Components(p));
    }
  }

  /** The formatted version parses as the shipped one, 1.3.47. */
  lemma FormattedParsesAsCurrent()
    ensures ParseVersion(GetFormattedVersion()) == ParseVersion(CURRENT_VERSION) == Semver(1, 3, 47)
  {
    var s := GetFormattedVersion();
    assert GetVersion() == CURRENT_VERSION;
    assert CURRENT_VERSION[0] == '1';
    LeadingVIgnored(CURRENT_VERSION);
    assert s == "v" + CURRENT_VERSION;
  }
}
