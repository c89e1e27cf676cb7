/** Lux amounts as Dusk text with nine decimals. */
module Lux {
  import opened Collections

  const DECIMALS: nat := 9
  const SCALE_FACTOR: nat := 1_000_000_000

  // ------------------------------------------------------ decimal digits

  predicate IsDigit(c: char) { '0' <= c <= '9' }

  predicate AllDigits(s: string) { forall i | 0 <= i < |s| :: IsDigit(s[i]) }

  function DigitOf(n: nat): (c: char)
    requires n < 10
    ensures IsDigit(c)
  {
    ('0' as int + n) as char
  }

  function ValueOf(c: char): (n: nat)
    requires IsDigit(c)
    ensures n < 10 && DigitOf(n) == c
  {
    c as int - '0' as int
  }

  /** `BigInt.toString` */
  function ToDecimal(n: nat): (s: string)
    ensures s != [] && AllDigits(s)
  {
    if n < 10 then [DigitOf(n)] else ToDecimal(n / 10) + [DigitOf(n % 10)]
  }

  /** `BigInt(string)` on digits */
  function FromDecimal(s: string): nat
    requires AllDigits(s)
  {
    if s == [] then 0 else 10 * FromDecimal(s[..|s| - 1]) + ValueOf(s[|s| - 1])
  }

  function Zeros(n: nat): (s: string)
    ensures |s| == n && AllDigits(s) && forall i | 0 <= i < n :: s[i] == '0'
  {
    if n == 0 then "" else "0" + Zeros(n - 1)
  }

  function PadStart(s: string, n: nat): string {
    if |s| >= n then s else Zeros(n - |s|) + s
  }

  function PadEnd(s: string, n: nat): string {
    if |s| >= n then s else s + Zeros(n - |s|)
  }

  /** `replace(/0+$/, "")` */
  function StripTrailing(s: string): (r: string)
    ensures |r| <= |s| && r == s[..|r|]
    ensures forall i | |r| <= i < |s| :: s[i] == '0'
    ensures r != [] ==> r[|r| - 1] != '0'
  {
    if s != [] && s[|s| - 1] == '0' then StripTrailing(s[..|s| - 1]) else s
  }

  /** Leading zeros dropped, down to one digit. */
  function StripLeading(s: string): string {
    if |s| > 1 && s[0] == '0' then StripLeading(s[1..]) else s
  }

  // ------------------------------------------------------ the two functions

  /** `formatToDusk`; a negative amount is a range error. */
  function Format(lux: int): Option<string> {
    if lux < 0 then None
    else
      var unit, decimals := ToDecimal(lux / SCALE_FACTOR), lux % SCALE_FACTOR;
      if decimals > 0 then Some(unit + "." + StripTrailing(PadStart(ToDecimal(decimals), DECIMALS)))
      else Some(unit)
  }

  /** The text before the first dot, and the text after it if there is a dot. */
  function Split(s: string): (string, Option<string>) {
    if s == [] then ("", None)
    else if s[0] == '.' then ("", Some(s[1..]))
    else
      var (units, rest) := Split(s[1..]);
      ([s[0]] + units, rest)
  }

  /** `^\d+(\.\d+)?$` */
  predicate Matches(s: string) {
    var (units, decimals) := Split(s);
    units != "" && AllDigits(units)
    && (decimals.Some? ==> decimals.value != "" && AllDigits(decimals.value))
  }

  /** `parseFromDusk`; anything else than a plain decimal number is a type error. */
  function Parse(s: string): Option<nat> {
    if !Matches(s) then None
    else
      var (units, decimals) := Split(s);
      var digits := if decimals.Some? then decimals.value else "0";
      PadEndDigits(digits, DECIMALS);
      Some(FromDecimal(units) * SCALE_FACTOR + FromDecimal(PadEnd(digits, DECIMALS)))
  }

  lemma PadEndDigits(s: string, n: nat)
    requires AllDigits(s)
    ensures AllDigits(PadEnd(s, n))
  {
  }

  // ------------------------------------------------------------- lemmas

  function Pow10(n: nat): (p: nat)
    ensures p >= 1
  {
    if n == 0 then 1 else 10 * Pow10(n - 1)
  }

  lemma ScaleIsPow10()
    ensures Pow10(9) == SCALE_FACTOR
  {
    assert Pow10(3) == 10 * Pow10(2);
    assert Pow10(5) == 10 * Pow10(4);
    assert Pow10(7) == 10 * Pow10(6);
    assert Pow10(9) == 10 * Pow10(8);
  }

  lemma {:induction false} DecimalRoundTrip(n: nat)
    ensures FromDecimal(ToDecimal(n)) == n
  {
    if n >= 10 {
      DecimalRoundTrip(n / 10);
      assert ToDecimal(n)[..|ToDecimal(n)| - 1] == ToDecimal(n / 10);
    }
  }

  lemma {:induction false} DecimalBound(s: string)
    requires AllDigits(s)
    ensures FromDecimal(s) < Pow10(|s|)
  {
    if s != [] { DecimalBound(s[..|s| - 1]); }
  }

  lemma {:induction false} DecimalLength(n: nat, k: nat)
    requires n < Pow10(k) && k >= 1
    ensures |ToDecimal(n)| <= k
  {
    if n >= 10 {
      assert Pow10(k) == 10 * Pow10(k - 1) && Pow10(0) == 1;
      DecimalLength(n / 10, k - 1);
    }
  }

  /** A digit string is its value in decimal, padded to its length. */
  lemma {:induction false} PaddedDecimal(s: string)
    requires AllDigits(s) && s != []
    ensures PadStart(ToDecimal(FromDecimal(s)), |s|) == s
    ensures |ToDecimal(FromDecimal(s))| <= |s|
  {
    var init, last := s[..|s| - 1], s[|s| - 1];
    assert s == init + [last];
    var n := FromDecimal(s);
    DecimalBound(s);
    DecimalLength(n, |s|);
    if init == [] {
      assert FromDecimal(init) == 0 && ToDecimal(n) == [last];
    } else {
      PaddedDecimal(init);
      var m := FromDecimal(init);
      assert n / 10 == m && n % 10 == ValueOf(last);
      if m == 0 {
        assert ToDecimal(n) == [last] && ToDecimal(m) == "0";
        assert Zeros(|init| - 1) + "0" == init || |init| == 1;
        ZerosExtend(|init| - 1);
        assert PadStart(ToDecimal(n), |s|) == Zeros(|init|) + [last];
      } else {
        assert ToDecimal(n) == ToDecimal(m) + [last];
      }
    }
  }

  lemma ZerosExtend(n: nat)
    ensures Zeros(n) + "0" == Zeros(n + 1)
  {
  }

  lemma {:induction false} FromZerosPrefix(n: nat, s: string)
    requires AllDigits(s)
    ensures AllDigits(Zeros(n) + s) && FromDecimal(Zeros(n) + s) == FromDecimal(s)
    decreases |s|, n
  {
    var z := Zeros(n) + s;
    if s == [] {
      assert z == Zeros(n);
      if n > 0 {
        FromZerosPrefix(n - 1, []);
        assert z[..n - 1] == Zeros(n - 1) + [];
      }
    } else {
      FromZerosPrefix(n, s[..|s| - 1]);
      assert z[..|z| - 1] == Zeros(n) + s[..|s| - 1];
    }
  }

  lemma {:induction false} FromZerosSuffix(s: string, n: nat)
    requires AllDigits(s)
    ensures AllDigits(s + Zeros(n)) && FromDecimal(s + Zeros(n)) == FromDecimal(s) * Pow10(n)
  {
    hide FromDecimal;
    if n == 0 {
      assert s + Zeros(0) == s;
    } else {
      FromZerosSuffix(s, n - 1);
      ZerosExtend(n - 1);
      AppendZero(s + Zeros(n - 1));
      assert s + Zeros(n) == s + Zeros(n - 1) + "0";
      TimesTen(FromDecimal(s), Pow10(n - 1));
    }
  }

  lemma AppendZero(s: string)
    requires AllDigits(s)
    ensures AllDigits(s + "0") && FromDecimal(s + "0") == 10 * FromDecimal(s)
  {
    assert (s + "0")[..|s|] == s;
  }

  lemma TimesTen(a: nat, b: nat)
    ensures a * (10 * b) == 10 * (a * b)
  {
  }

  lemma {:induction false} SplitAtDot(units: string, decimals: string)
    requires AllDigits(units)
    ensures Split(units) == (units, None)
    ensures Split(units + "." + decimals) == (units, Some(decimals))
  {
    if units == [] {
      assert (units + "." + decimals)[1..] == decimals;
    } else {
      assert AllDigits(units[1..]);
      SplitAtDot(units[1..], decimals);
      assert (units + "." + decimals)[1..] == units[1..] + "." + decimals;
      assert units == [units[0]] + units[1..];
    }
  }

  /** Padding back what stripping took off. */
  lemma PadAfterStrip(s: string)
    ensures PadEnd(StripTrailing(s), |s|) == s
  {
  }

  lemma ParseParts(units: string, decimals: string)
    requires units != "" && AllDigits(units) && decimals != "" && AllDigits(decimals)
    ensures AllDigits(PadEnd(decimals, DECIMALS))
    ensures Parse(units + "." + decimals)
            == Some(FromDecimal(units) * SCALE_FACTOR + FromDecimal(PadEnd(decimals, DECIMALS)))
    ensures Parse(units) == Some(FromDecimal(units) * SCALE_FACTOR)
  {
    hide FromDecimal, Split, PadEnd;
    SplitAtDot(units, decimals);
    PadEndDigits(decimals, DECIMALS);
    PadEndDigits("0", DECIMALS);
    NoFraction();
  }

  lemma NoFraction()
    ensures AllDigits(PadEnd("0", DECIMALS)) && FromDecimal(PadEnd("0", DECIMALS)) == 0
  {
    FromZerosSuffix("0", 8);
    assert FromDecimal("0") == 0;
    assert PadEnd("0", DECIMALS) == "0" + Zeros(8);
  }

  /** Every amount survives being formatted and parsed. */
  lemma ParseOfFormat(lux: nat)
    ensures Format(lux).Some? && Parse(Format(lux).value) == Some(lux)
  {
    hide Parse, StripTrailing, FromDecimal, ToDecimal, Pow10;
    var unit, decimals := lux / SCALE_FACTOR, lux % SCALE_FACTOR;
    DecimalRoundTrip(unit);
    DecimalRoundTrip(decimals);
    if decimals == 0 {
      ParseParts(ToDecimal(unit), "0");
    } else {
      var d := ToDecimal(decimals);
      ScaleIsPow10();
      DecimalLength(decimals, 9);
      FromZerosPrefix(9 - |d|, d);
      var padded := PadStart(d, 9);
      assert |padded| == 9 && AllDigits(padded) && FromDecimal(padded) == decimals;
      PadAfterStrip(padded);
      var text := StripTrailing(padded);
      ZeroIffStripped(padded);
      ParseParts(ToDecimal(unit), text);
    }
  }

  /** The canonical text: no superfluous zeros, no empty fraction. */
  function Canonical(units: string, decimals: string): string {
    var fraction := StripTrailing(decimals);
    if fraction == "" then StripLeading(units) else StripLeading(units) + "." + fraction
  }

  lemma {:induction false} DecimalIsStripped(s: string)
    requires AllDigits(s) && s != []
    ensures ToDecimal(FromDecimal(s)) == StripLeading(s)
    decreases |s|
  {
    if |s| > 1 && s[0] == '0' {
      DecimalIsStripped(s[1..]);
      assert s == Zeros(1) + s[1..];
      FromZerosPrefix(1, s[1..]);
    } else {
      PaddedDecimal(s);
      var d := ToDecimal(FromDecimal(s));
      PadFirst(d, |s|);
    }
  }

  lemma PadFirst(d: string, n: nat)
    ensures |d| < n ==> |PadStart(d, n)| == n && PadStart(d, n)[0] == '0'
  {
  }

  lemma StripUnique(s: string, r: string)
    requires |r| <= |s| && r == s[..|r|] && (forall i | |r| <= i < |s| :: s[i] == '0')
    requires r != [] ==> r[|r| - 1] != '0'
    ensures StripTrailing(s) == r
  {
    var t := StripTrailing(s);
    assert r != [] ==> r[|r| - 1] == s[|r| - 1];
    assert t != [] ==> t[|t| - 1] == s[|t| - 1];
  }

  lemma StripAfterPad(s: string, n: nat)
    ensures StripTrailing(PadEnd(s, n)) == StripTrailing(s)
  {
    var r := StripTrailing(s);
    StripUnique(PadEnd(s, n), r);
  }

  lemma FormatOfParts(units: string, decimals: string)
    requires units != "" && AllDigits(units) && decimals != "" && AllDigits(decimals)
    requires |decimals| <= DECIMALS
    ensures Parse(units + "." + decimals).Some?
    ensures Format(Parse(units + "." + decimals).value) == Some(Canonical(units, decimals))
  {
    hide Parse, StripTrailing, FromDecimal, ToDecimal, Pow10, StripLeading;
    ParseParts(units, decimals);
    var padded := PadEnd(decimals, 9);
    assert |padded| == 9;
    DecimalBound(padded);
    ScaleIsPow10();
    var u, d := FromDecimal(units), FromDecimal(padded);
    var lux := u * SCALE_FACTOR + d;
    assert lux / SCALE_FACTOR == u && lux % SCALE_FACTOR == d;
    DecimalIsStripped(units);
    PaddedDecimal(padded);
    StripAfterPad(decimals, 9);
    ZeroIffStripped(padded);
  }

  lemma ZeroIffStripped(s: string)
    requires AllDigits(s)
    ensures FromDecimal(s) == 0 <==> StripTrailing(s) == ""
  {
    if FromDecimal(s) == 0 {
      AllZeros(s);
      StripUnique(s, "");
    }
    if StripTrailing(s) == "" {
      PadAfterStrip(s);
      assert s == Zeros(|s|) + [];
      FromZerosPrefix(|s|, []);
    }
  }

  lemma FormatOfUnits(units: string)
    requires units != "" && AllDigits(units)
    ensures Parse(units).Some? && Format(Parse(units).value) == Some(StripLeading(units))
  {
    hide Parse, StripTrailing, FromDecimal, ToDecimal, StripLeading;
    ParseParts(units, "0");
    DecimalIsStripped(units);
    var u := FromDecimal(units);
    assert u * SCALE_FACTOR / SCALE_FACTOR == u && u * SCALE_FACTOR % SCALE_FACTOR == 0;
  }

  lemma {:induction false} SplitJoins(s: string)
    ensures var (units, decimals) := Split(s);
            s == if decimals.Some? then units + "." + decimals.value else units
  {
    if s != [] && s[0] != '.' {
      SplitJoins(s[1..]);
    }
  }

  /** Parsing any accepted text of at most nine decimals and formatting the amount
      gives the text without superfluous zeros. */
  lemma FormatOfParse(s: string)
    requires Matches(s) && (Split(s).1.Some? ==> |Split(s).1.value| <= DECIMALS)
    ensures Parse(s).Some?
    ensures Format(Parse(s).value)
            == Some(Canonical(Split(s).0, if Split(s).1.Some? then Split(s).1.value else ""))
  {
    hide Parse, Format, StripLeading;
    SplitJoins(s);
    var (units, decimals) := Split(s);
    if decimals.Some? {
      FormatOfParts(units, decimals.value);
    } else {
      FormatOfUnits(units);
    }
  }

  lemma {:induction false} AllZeros(s: string)
    requires AllDigits(s) && FromDecimal(s) == 0
    ensures forall i | 0 <= i < |s| :: s[i] == '0'
  {
    if s != [] {
      AllZeros(s[..|s| - 1]);
      assert ValueOf(s[|s| - 1]) == 0;
    }
  }

  lemma {:induction false} Pow10Sum(a: nat, b: nat)
    ensures Pow10(a + b) == Pow10(a) * Pow10(b)
  {
    if a > 0 {
      Pow10Sum(a - 1, b);
      assert Pow10(a + b) == 10 * Pow10(a - 1 + b);
    }
  }

  /** The fraction counted in Lux is the one written, as a part of `SCALE_FACTOR`. */
  lemma FractionShort(decimals: string)
    requires AllDigits(decimals) && |decimals| <= DECIMALS
    ensures AllDigits(PadEnd(decimals, DECIMALS))
    ensures FromDecimal(PadEnd(decimals, DECIMALS)) == FromDecimal(decimals) * Pow10(DECIMALS - |decimals|)
    ensures Pow10(DECIMALS - |decimals|) * Pow10(|decimals|) == SCALE_FACTOR
  {
    hide Pow10, FromDecimal, Zeros, AllDigits;
    FromZerosSuffix(decimals, 9 - |decimals|);
    assert |decimals| == 9 ==> decimals + Zeros(0) == decimals;
    Pow10Sum(9 - |decimals|, |decimals|);
    ScaleIsPow10();
  }

  /** The amount parsed is the number written, at nine decimals, exactly when there
      are at most nine decimals or all of them are zero: further digits are not
      cut off but shift the fraction. */
  lemma ParseIsExact(units: string, decimals: string)
    requires units != "" && AllDigits(units) && decimals != "" && AllDigits(decimals)
    ensures Parse(units + "." + decimals).Some?
    ensures IsExact(Parse(units + "." + decimals).value, FromDecimal(units), FromDecimal(decimals),
                    Pow10(|decimals|))
            <==> |decimals| <= DECIMALS || FromDecimal(decimals) == 0
  {
    hide Parse, FromDecimal, Pow10, IsExact;
    ParseParts(units, decimals);
    var u, d, k := FromDecimal(units), FromDecimal(decimals), |decimals|;
    if k <= DECIMALS {
      FractionShort(decimals);
      ScaledUp(u, d, Pow10(9 - k), Pow10(k));
    } else {
      Pow10Larger(k);
      NotScaled(u, d, Pow10(k));
    }
  }

  /** `lux` Lux are `units` and `decimals / scale` Dusk. */
  ghost predicate IsExact(lux: nat, units: nat, decimals: nat, scale: nat) {
    lux * scale == (units * scale + decimals) * SCALE_FACTOR
  }

  lemma Pow10Larger(k: nat)
    requires k > 9
    ensures Pow10(k) > SCALE_FACTOR
  {
    ScaleIsPow10();
    Pow10Sum(k - 9, 9);
    assert Pow10(k - 9) == 10 * Pow10(k - 10);
  }

  lemma ScaledUp(u: nat, d: nat, p: nat, q: nat)
    requires p * q == SCALE_FACTOR
    ensures IsExact(u * SCALE_FACTOR + d * p, u, d, q)
  {
    assert d * p * q == d * (p * q);
    assert (u * SCALE_FACTOR + d * p) * q == u * SCALE_FACTOR * q + d * p * q;
    assert u * SCALE_FACTOR * q == u * q * SCALE_FACTOR;
  }

  lemma NotScaled(u: nat, d: nat, q: nat)
    requires q > SCALE_FACTOR
    ensures IsExact(u * SCALE_FACTOR + d, u, d, q) <==> d == 0
  {
    assert (u * SCALE_FACTOR + d) * q == u * SCALE_FACTOR * q + d * q;
    assert u * SCALE_FACTOR * q == u * q * SCALE_FACTOR;
    if d > 0 {
      assert d * (q - SCALE_FACTOR) > 0;
      assert d * (q - SCALE_FACTOR) == d * q - d * SCALE_FACTOR;
    }
  }
}
