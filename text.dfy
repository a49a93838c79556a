/**
  String helpers the matching engine relies on: case-insensitive comparison of
  place names, joining explanation clauses with a separator (and splitting them
  back), and fixed-point formatting of numbers.
 */
module Text {

  // ---------------------------------------------------------------------------
  // Case folding (ASCII letters only)
  // ---------------------------------------------------------------------------

  predicate IsUpper(c: char) { 'A' <= c <= 'Z' }

  function LowerChar(c: char): char {
    if IsUpper(c) then (c as int + 32) as char else c
  }

  /** Lower-cases every ASCII capital and leaves every other character alone. */
  function Lower(s: string): (r: string)
    ensures |r| == |s|
    ensures forall i :: 0 <= i < |s| ==> !IsUpper(r[i])
    ensures forall i :: 0 <= i < |s| ==> if IsUpper(s[i]) then r[i] as int == s[i] as int + 32 else r[i] == s[i]
  {
    if s == [] then [] else [LowerChar(s[0])] + Lower(s[1..])
  }

  /** Lower-casing twice is lower-casing once. */
  lemma {:induction false} LowerIdempotent(s: string)
    ensures Lower(Lower(s)) == Lower(s)
  {
    if s != [] {
      LowerIdempotent(s[1..]);
    }
  }

  predicate EqualIgnoringCase(a: string, b: string) {
    Lower(a) == Lower(b)
  }

  /** Equality ignoring case is an equivalence relation that ignores the case of `a`'s letters. */
  lemma EqualIgnoringCaseIsEquivalence(a: string, b: string, c: string)
    ensures EqualIgnoringCase(a, a)
    ensures EqualIgnoringCase(a, b) ==> EqualIgnoringCase(b, a)
    ensures EqualIgnoringCase(a, b) && EqualIgnoringCase(b, c) ==> EqualIgnoringCase(a, c)
    ensures EqualIgnoringCase(Lower(a), a)
  {
    LowerIdempotent(a);
  }

  // ---------------------------------------------------------------------------
  // Joining and splitting on " | "
  // ---------------------------------------------------------------------------

  const Separator: string := " | "

  predicate NoPipe(s: string) {
    forall i :: 0 <= i < |s| ==> s[i] != '|'
  }

  /** Python's `sep.join(parts)`. */
  function Join(parts: seq<string>, sep: string): (r: string)
    ensures |parts| == 1 ==> r == parts[0]
  {
    if parts == [] then ""
    else if |parts| == 1 then parts[0]
    else parts[0] + sep + Join(parts[1..], sep)
  }

  /** Joined text begins with the first part and ends with the last. */
  lemma {:induction false} JoinEnds(parts: seq<string>, sep: string)
    requires |parts| >= 1
    ensures |Join(parts, sep)| >= |parts[0]| && Join(parts, sep)[..|parts[0]|] == parts[0]
    ensures |Join(parts, sep)| >= |parts[|parts| - 1]|
    ensures Join(parts, sep)[|Join(parts, sep)| - |parts[|parts| - 1]|..] == parts[|parts| - 1]
  {
    if |parts| > 1 {
      JoinEnds(parts[1..], sep);
      var rest := Join(parts[1..], sep);
      var last := parts[|parts| - 1];
      assert parts[1..][|parts[1..]| - 1] == last;
      var r := parts[0] + sep + rest;
      assert r[|r| - |last|..] == rest[|rest| - |last|..];
    }
  }

  /**
    Splits `s` at every occurrence of " | ", scanning left to right; `current`
    is the part collected so far.
   */
  function SplitFrom(s: string, current: string): (r: seq<string>)
    ensures |r| >= 1
    decreases |s|
  {
    if |s| == 0 then [current]
    else if |s| >= 3 && s[..3] == Separator then [current] + SplitFrom(s[3..], "")
    else SplitFrom(s[1..], current + [s[0]])
  }

  function Split(s: string): (r: seq<string>)
    ensures |r| >= 1
  {
    SplitFrom(s, "")
  }

  /** Scanning a part without '|' never finds a separator inside it. */
  lemma {:induction false} SplitSkipsPart(p: string, t: string, current: string)
    requires NoPipe(p)
    requires |t| == 0 || t[0] != '|'
    ensures SplitFrom(p + t, current) == SplitFrom(t, current + p)
    decreases |p|
  {
    if |p| > 0 {
      var s := p + t;
      assert s[0] == p[0];
      if |s| >= 3 {
        assert s[1] != '|' by {
          if |p| >= 2 { assert s[1] == p[1]; } else { assert s[1] == t[0]; }
        }
        assert s[..3] != Separator by { assert Separator[1] == '|'; }
      }
      assert s[1..] == p[1..] + t;
      SplitSkipsPart(p[1..], t, current + [p[0]]);
      assert current + [p[0]] + p[1..] == current + p;
    } else {
      assert p + t == t;
      assert current + p == current;
    }
  }

  /** Splitting undoes joining when no part contains '|'. */
  lemma {:induction false} SplitJoin(parts: seq<string>)
    requires |parts| >= 1
    requires forall i :: 0 <= i < |parts| ==> NoPipe(parts[i])
    ensures Split(Join(parts, Separator)) == parts
  {
    if |parts| == 1 {
      SplitSkipsPart(parts[0], "", "");
      assert parts[0] + "" == parts[0];
    } else {
      var rest := Join(parts[1..], Separator);
      var tail := Separator + rest;
      assert Join(parts, Separator) == parts[0] + tail;
      SplitSkipsPart(parts[0], tail, "");
      assert "" + parts[0] == parts[0];
      assert tail[..3] == Separator;
      assert tail[3..] == rest;
      SplitJoin(parts[1..]);
      assert parts == [parts[0]] + parts[1..];
    }
  }

  // ---------------------------------------------------------------------------
  // Number formatting
  // ---------------------------------------------------------------------------

  predicate IsNumeralChar(c: char) { '0' <= c <= '9' || c == '.' || c == '-' }

  predicate IsNumeral(s: string) {
    forall i :: 0 <= i < |s| ==> IsNumeralChar(s[i])
  }

  function Pow10(n: nat): (r: nat)
    ensures r >= 1
  {
    if n == 0 then 1 else 10 * Pow10(n - 1)
  }

  function DigitChar(d: nat): (c: char)
    requires d < 10
    ensures '0' <= c <= '9'
  {
    ('0' as int + d) as char
  }

  /** Decimal digits of `n`, without leading zeros ("0" for zero). */
  function NatToString(n: nat): (r: string)
    ensures |r| >= 1
    ensures forall i :: 0 <= i < |r| ==> '0' <= r[i] <= '9'
  {
    if n < 10 then [DigitChar(n)] else NatToString(n / 10) + [DigitChar(n % 10)]
  }

  /** Pads `s` with leading zeros to `width` characters. */
  function ZeroPad(s: string, width: nat): (r: string)
    ensures |r| == if |s| < width then width else |s|
    ensures forall i :: 0 <= i < |r| - |s| ==> r[i] == '0'
    ensures r[|r| - |s|..] == s
  {
    if |s| < width then seq(width - |s|, _ => '0') + s else s
  }

  /** Zero-padding a numeral gives a numeral. */
  lemma PaddedNumeral(s: string, width: nat)
    requires IsNumeral(s)
    ensures IsNumeral(ZeroPad(s, width))
  {
    var r := ZeroPad(s, width);
    var k := |r| - |s|;
    forall i | 0 <= i < |r| ensures IsNumeralChar(r[i]) {
      if i >= k {
        assert r[i] == r[k..][i - k];
      }
    }
  }

  /** `x` rounded half-up to `places` decimals, scaled by 10^places. */
  function ScaledRound(x: real, places: nat): (n: nat)
    requires x >= 0.0
  {
    var y := (x * Pow10(places) as real + 0.5).Floor;
    if y < 0 then 0 else y
  }

  lemma DigitsAreNumeral(s: string)
    requires forall i :: 0 <= i < |s| ==> '0' <= s[i] <= '9'
    ensures IsNumeral(s)
  {
  }

  lemma NumeralConcat(a: string, b: string)
    requires IsNumeral(a) && IsNumeral(b)
    ensures IsNumeral(a + b)
  {
    forall i | 0 <= i < |a + b| ensures IsNumeralChar((a + b)[i]) {
      if i < |a| {
        assert (a + b)[i] == a[i];
      } else {
        assert (a + b)[i] == b[i - |a|];
      }
    }
  }

  /** Euclidean quotient and remainder of naturals by a positive divisor, both natural. */
  function DivMod(n: nat, d: nat): (r: (nat, nat))
    requires d > 0
    ensures r.0 * d + r.1 == n && r.1 < d
  {
    (n / d, n % d)
  }

  /** The digits of `n / 10^places`, then for `places > 0` a point and the remaining `places` digits. */
  function FixedDigits(n: nat, places: nat): (r: string)
    ensures IsNumeral(r)
  {
    var qr := DivMod(n, Pow10(places));
    var whole := NatToString(qr.0);
    DigitsAreNumeral(whole);
    if places == 0 then whole
    else
      var digits := NatToString(qr.1);
      DigitsAreNumeral(digits);
      PaddedNumeral(digits, places);
      NumeralConcat(whole, ".");
      NumeralConcat(whole + ".", ZeroPad(digits, places));
      whole + "." + ZeroPad(digits, places)
  }

  /**
    Python's `f"{x:.Nf}"`: an optional minus sign, the integer part, and for
    `places > 0` a point followed by exactly `places` digits.
   */
  function FormatFixed(x: real, places: nat): (r: string)
    ensures IsNumeral(r)
  {
    if x < 0.0 then "-" + FixedDigits(ScaledRound(-x, places), places)
    else FixedDigits(ScaledRound(x, places), places)
  }

  /** A whole number of kilometres prints with a single trailing zero: 300 gives "300.0". */
  lemma FormatWholeNumber(d: nat)
    ensures FormatFixed(d as real, 1) == NatToString(d) + ".0"
  {
    assert Pow10(1) == 10;
    assert ScaledRound(d as real, 1) == 10 * d;
    var qr := DivMod(10 * d, 10);
    assert qr.0 == d && qr.1 == 0;
    assert NatToString(0) == "0";
    assert ZeroPad("0", 1) == "0";
  }

  /** A numeral contains no '|', so it never collides with the separator. */
  lemma NumeralHasNoPipe(s: string)
    requires IsNumeral(s)
    ensures NoPipe(s)
  {
  }
}
