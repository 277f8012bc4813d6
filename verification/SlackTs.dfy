/**
 Slack timestamps as the strings they are: decimal digits, a point, more digits
 (packages/adapter-slack/src/recovery.ts, `tsIsAfter`).
 */
module SlackTs {
  import opened Collections

  type Digit = d: int | 0 <= d <= 9

  /** "whole.frac"; a part that is missing is empty, and `BigInt("")` is zero. */
  datatype Ts = Ts(whole: seq<Digit>, frac: seq<Digit>)

  function BigInt(s: seq<Digit>): nat {
    if s == [] then 0 else 10 * BigInt(s[..|s| - 1]) + s[|s| - 1]
  }

  function PadEnd(s: seq<Digit>, n: nat): (r: seq<Digit>)
    ensures |r| == Max(|s|, n) && s <= r
    decreases n - |s|
  {
    if |s| >= n then s else PadEnd(s + [0], n)
  }

  /** JavaScript's `a > b` on strings of digits. */
  predicate StringAfter(a: seq<Digit>, b: seq<Digit>) {
    if b == [] then a != []
    else a != [] && (a[0] > b[0] || (a[0] == b[0] && StringAfter(a[1..], b[1..])))
  }

  predicate TsIsAfter(a: Ts, b: Ts) {
    if BigInt(a.whole) != BigInt(b.whole) then BigInt(a.whole) > BigInt(b.whole)
    else
      var n := Max(|a.frac|, |b.frac|);
      StringAfter(PadEnd(a.frac, n), PadEnd(b.frac, n))
  }

  // ----- What the string denotes -----

  ghost function Fraction(s: seq<Digit>): real {
    if s == [] then 0.0 else (s[0] as real + Fraction(s[1..])) / 10.0
  }

  ghost function Value(t: Ts): real {
    BigInt(t.whole) as real + Fraction(t.frac)
  }

  lemma {:induction false} FractionBelowOne(s: seq<Digit>)
    ensures 0.0 <= Fraction(s) < 1.0
  {
    if s != [] { FractionBelowOne(s[1..]); }
  }

  lemma {:induction false} FractionIgnoresZero(s: seq<Digit>)
    ensures Fraction(s + [0]) == Fraction(s)
  {
    if s == [] {
      assert (s + [0])[1..] == [];
    } else {
      assert (s + [0])[1..] == s[1..] + [0];
      FractionIgnoresZero(s[1..]);
    }
  }

  lemma {:induction false} PaddingKeepsFraction(s: seq<Digit>, n: nat)
    ensures Fraction(PadEnd(s, n)) == Fraction(s)
    decreases n - |s|
  {
    if |s| < n {
      PaddingKeepsFraction(s + [0], n);
      FractionIgnoresZero(s);
    }
  }

  lemma {:induction false} StringOrderIsFractionOrder(a: seq<Digit>, b: seq<Digit>)
    requires |a| == |b|
    ensures StringAfter(a, b) <==> Fraction(a) > Fraction(b)
  {
    if a != [] {
      StringOrderIsFractionOrder(a[1..], b[1..]);
      FractionBelowOne(a[1..]);
      FractionBelowOne(b[1..]);
    }
  }

  /**
   The comparison of two timestamp strings is the comparison of the two numbers they denote,
   for any number of digits on either side of the point.
   */
  lemma TsIsAfterIsValueOrder(a: Ts, b: Ts)
    ensures TsIsAfter(a, b) <==> Value(a) > Value(b)
  {
    var n := Max(|a.frac|, |b.frac|);
    PaddingKeepsFraction(a.frac, n);
    PaddingKeepsFraction(b.frac, n);
    StringOrderIsFractionOrder(PadEnd(a.frac, n), PadEnd(b.frac, n));
    FractionBelowOne(a.frac);
    FractionBelowOne(b.frac);
    if BigInt(a.whole) > BigInt(b.whole) {
      assert BigInt(a.whole) as real >= BigInt(b.whole) as real + 1.0;
    } else if BigInt(b.whole) > BigInt(a.whole) {
      assert BigInt(b.whole) as real >= BigInt(a.whole) as real + 1.0;
    }
  }

  /** A comparator built from it is therefore a strict weak order: sorting by it is well defined. */
  lemma TsIsAfterIsAStrictWeakOrder(a: Ts, b: Ts, c: Ts)
    ensures !(TsIsAfter(a, b) && TsIsAfter(b, a))
    ensures TsIsAfter(a, b) && TsIsAfter(b, c) ==> TsIsAfter(a, c)
    ensures TsIsAfter(a, c) ==> TsIsAfter(a, b) || TsIsAfter(b, c)
  {
    TsIsAfterIsValueOrder(a, b);
    TsIsAfterIsValueOrder(b, a);
    TsIsAfterIsValueOrder(b, c);
    TsIsAfterIsValueOrder(a, c);
  }

  // ----- Slack's own timestamps: six decimals -----

  /** The timestamp in microseconds. */
  ghost function Micros(t: Ts): nat {
    BigInt(t.whole + t.frac)
  }

  lemma FractionStep(f: seq<Digit>, i: nat)
    requires i < |f|
    ensures Fraction(f[i..]) == (f[i] as real + Fraction(f[i + 1..])) / 10.0
  {
    assert f[i..][1..] == f[i + 1..];
  }

  lemma BigIntStep(w: seq<Digit>, f: seq<Digit>, i: nat)
    requires i < |f|
    ensures BigInt(w + f[..i + 1]) == 10 * BigInt(w + f[..i]) + f[i]
  {
    var s := w + f[..i + 1];
    assert s[..|s| - 1] == w + f[..i];
  }

  /** For six decimals the order is that of microsecond counts, which is how the recovery model counts time. */
  lemma TsIsAfterIsMicrosOrder(a: Ts, b: Ts)
    requires |a.frac| == |b.frac| == 6
    ensures TsIsAfter(a, b) <==> Micros(a) > Micros(b)
  {
    TsIsAfterIsValueOrder(a, b);
    MicrosScale(a);
    MicrosScale(b);
  }

  /** The six decimals as a number. */
  ghost function Low(f: seq<Digit>): nat
    requires |f| == 6
  {
    var a: int, b: int, c: int, d: int, e: int, g: int := f[0], f[1], f[2], f[3], f[4], f[5];
    100000 * a + 10000 * b + 1000 * c + 100 * d + 10 * e + g
  }

  lemma SixDecimals(f: seq<Digit>) returns (fraction: real, low: nat)
    requires |f| == 6
    ensures fraction == Fraction(f) && low == Low(f) && fraction * 1000000.0 == low as real
  {
    fraction, low := Fraction(f), Low(f);
    FractionStep(f, 0); FractionStep(f, 1); FractionStep(f, 2);
    FractionStep(f, 3); FractionStep(f, 4); FractionStep(f, 5);
    assert f[0..] == f && f[6..] == [];
  }

  lemma ThreeMoreDigits(w: seq<Digit>, f: seq<Digit>) returns (low: nat)
    requires |f| == 3
    ensures BigInt(w + f) == 1000 * BigInt(w) + low
    ensures var a: int, b: int, c: int := f[0], f[1], f[2]; low == 100 * a + 10 * b + c
  {
    var a: int, b: int, c: int := f[0], f[1], f[2];
    low := 100 * a + 10 * b + c;
    BigIntStep(w, f, 0); BigIntStep(w, f, 1); BigIntStep(w, f, 2);
    assert w + f[..0] == w && f[..3] == f;
  }

  lemma SixMoreDigits(w: seq<Digit>, f: seq<Digit>) returns (whole: nat, low: nat)
    requires |f| == 6
    ensures whole == BigInt(w) && low == Low(f) && BigInt(w + f) == 1000000 * whole + low
  {
    whole, low := BigInt(w), Low(f);
    var upper := ThreeMoreDigits(w, f[..3]);
    var lower := ThreeMoreDigits(w + f[..3], f[3..]);
    assert w + f[..3] + f[3..] == w + f;
  }

  lemma MicrosScale(t: Ts)
    requires |t.frac| == 6
    ensures Value(t) * 1000000.0 == Micros(t) as real
  {
    var fraction, low := SixDecimals(t.frac);
    var whole, same := SixMoreDigits(t.whole, t.frac);
  }
}
