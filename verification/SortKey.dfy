/**
 * sys/src/cmd/sort.c, `dokey_gn`: the key of a numeric field (flags -n and -g), and why comparing two
 * such keys byte by byte with `kcmp` compares the numbers.
 */
module SortKeyValue {
  /** A decimal digit. */
  type Digit = d: int | 0 <= d < 10

  /** A number as it is written: sign, digits before and after the point, exponent. */
  datatype Number = Number(neg: bool, ip: seq<Digit>, fp: seq<Digit>, exp: int)

  // ----- moving the decimal point -----

  /** `x` times ten to the `k`. */
  ghost function Shift(x: real, k: int): real
    decreases if k < 0 then -k else k
  {
    if k == 0 then x else if k > 0 then 10.0 * Shift(x, k - 1) else Shift(x, k + 1) / 10.0
  }

  lemma {:induction false} ShiftStep(x: real, k: int)
    ensures Shift(x, k + 1) == 10.0 * Shift(x, k)
  {
  }

  lemma {:induction false} ShiftIn(x: real, k: int)
    ensures Shift(x / 10.0, k + 1) == Shift(x, k)
    decreases if k < 0 then -k else k
  {
    if k > 0 {
      ShiftIn(x, k - 1);
    } else if k < 0 {
      ShiftIn(x, k + 1);
      ShiftStep(x / 10.0, k + 1);
    }
  }

  lemma {:induction false} ShiftShift(x: real, j: int, k: int)
    ensures Shift(Shift(x, j), k) == Shift(x, j + k)
    decreases if k < 0 then -k else k
  {
    if k > 0 {
      ShiftShift(x, j, k - 1);
      ShiftStep(x, j + k - 1);
    } else if k < 0 {
      ShiftShift(x, j, k + 1);
      ShiftStep(x, j + k);
    }
  }

  lemma {:induction false} ShiftAdd(x: real, y: real, k: int)
    ensures Shift(x + y, k) == Shift(x, k) + Shift(y, k)
    decreases if k < 0 then -k else k
  {
    if k > 0 {
      ShiftAdd(x, y, k - 1);
    } else if k < 0 {
      ShiftAdd(x, y, k + 1);
    }
  }

  lemma {:induction false} ShiftLess(x: real, y: real, k: int)
    requires x < y
    ensures Shift(x, k) < Shift(y, k)
    decreases if k < 0 then -k else k
  {
    if k > 0 {
      ShiftLess(x, y, k - 1);
    } else if k < 0 {
      ShiftLess(x, y, k + 1);
    }
  }

  lemma {:induction false} ShiftZero(k: int)
    ensures Shift(0.0, k) == 0.0
    decreases if k < 0 then -k else k
  {
    if k > 0 {
      ShiftZero(k - 1);
    } else if k < 0 {
      ShiftZero(k + 1);
    }
  }

  /** What is at least one tenth, shifted further, exceeds what is below one. */
  lemma {:induction false} ShiftOrder(f: real, j: int, g: real, k: int)
    requires f < 1.0 && 0.1 <= g && j < k
    ensures Shift(f, j) < Shift(g, k)
    decreases k - j
  {
    if k == j + 1 {
      ShiftIn(10.0 * g, j);
      ShiftLess(f, 10.0 * g, j);
    } else {
      ShiftOrder(f, j, g, k - 1);
      ShiftStep(g, k - 1);
      ShiftZero(k - 1);
      ShiftLess(0.0, g, k - 1);
    }
  }

  // ----- what a number is worth -----

  /** The integer written by `ds`. */
  ghost function Int(ds: seq<Digit>): real {
    if ds == [] then 0.0 else Shift(ds[0] as real, |ds| - 1) + Int(ds[1..])
  }

  ghost function Magnitude(n: Number): real { Shift(Int(n.ip + n.fp), n.exp - |n.fp|) }

  ghost function Value(n: Number): real { if n.neg then -Magnitude(n) else Magnitude(n) }

  /** The digits read after a decimal point. */
  ghost function Frac(ds: seq<Digit>): real {
    if ds == [] then 0.0 else (ds[0] as real + Frac(ds[1..])) / 10.0
  }

  lemma {:induction false} IntIsFrac(ds: seq<Digit>)
    ensures Int(ds) == Shift(Frac(ds), |ds|)
  {
    if ds != [] {
      IntIsFrac(ds[1..]);
      ShiftIn(ds[0] as real + Frac(ds[1..]), |ds| - 1);
      ShiftAdd(ds[0] as real, Frac(ds[1..]), |ds| - 1);
    }
  }

  lemma {:induction false} FracBounds(ds: seq<Digit>)
    ensures 0.0 <= Frac(ds) < 1.0
  {
    if ds != [] {
      FracBounds(ds[1..]);
    }
  }

  /** Leading zeros. */
  function Lead(ds: seq<Digit>): (k: nat)
    ensures k <= |ds|
  {
    if ds == [] || ds[0] != 0 then 0 else 1 + Lead(ds[1..])
  }

  lemma {:induction false} LeadStops(ds: seq<Digit>)
    requires Lead(ds) < |ds|
    ensures ds[Lead(ds)] != 0
  {
    if ds[0] == 0 {
      LeadStops(ds[1..]);
    }
  }

  /** Trailing zeros. */
  function Trail(ds: seq<Digit>): (k: nat)
    ensures k <= |ds|
  {
    if ds == [] || ds[|ds| - 1] != 0 then 0 else 1 + Trail(ds[..|ds| - 1])
  }

  function Strip(ds: seq<Digit>): seq<Digit> { ds[..|ds| - Trail(ds)] }

  predicate Zero(ds: seq<Digit>) { Lead(ds) == |ds| }

  /** The significant digits: no zero at either end. */
  function Significant(ds: seq<Digit>): seq<Digit> { Strip(ds[Lead(ds)..]) }

  lemma {:induction false} LeadFrac(ds: seq<Digit>)
    ensures Shift(Frac(ds), Lead(ds)) == Frac(ds[Lead(ds)..])
  {
    if ds == [] || ds[0] != 0 {
      assert ds[0..] == ds;
    } else {
      var k := Lead(ds[1..]);
      LeadFrac(ds[1..]);
      assert ds[1..][k..] == ds[1 + k..];
      ShiftIn(Frac(ds[1..]), k);
    }
  }

  lemma {:induction false} FracAppendZero(ds: seq<Digit>)
    ensures Frac(ds + [0]) == Frac(ds)
  {
    if ds == [] {
      assert ([] + [0])[1..] == [];
    } else {
      assert (ds + [0])[1..] == ds[1..] + [0];
      FracAppendZero(ds[1..]);
    }
  }

  lemma {:induction false} StripFrac(ds: seq<Digit>)
    ensures Frac(Strip(ds)) == Frac(ds)
  {
    var n := |ds| - 1;
    if ds != [] && ds[n] == 0 {
      StripFrac(ds[..n]);
      assert ds == ds[..n] + [0] && Strip(ds) == Strip(ds[..n]);
      FracAppendZero(ds[..n]);
    } else {
      assert Strip(ds) == ds;
    }
  }

  /** Where the point goes: the magnitude is `0.` followed by the significant digits, times ten to this. */
  function Scale(n: Number): int { |n.ip| - Lead(n.ip + n.fp) + n.exp }

  lemma {:induction false} Scientific(n: Number)
    ensures Magnitude(n) == Shift(Frac(Significant(n.ip + n.fp)), Scale(n))
  {
    var ds := n.ip + n.fp;
    var f, k := Frac(ds), Lead(ds);
    IntIsFrac(ds);
    ShiftShift(f, |ds|, n.exp - |n.fp|);
    LeadFrac(ds);
    StripFrac(ds[k..]);
    ShiftShift(f, k, Scale(n));
  }

  // ----- comparing digits -----

  /** `a` comes before `b`, digit by digit, an end before any digit. */
  ghost predicate DigitsLess(a: seq<Digit>, b: seq<Digit>) {
    b != [] && (a == [] || a[0] < b[0] || (a[0] == b[0] && DigitsLess(a[1..], b[1..])))
  }

  lemma {:induction false} DigitsTotal(a: seq<Digit>, b: seq<Digit>)
    ensures DigitsLess(a, b) || DigitsLess(b, a) || a == b
  {
    if a != [] && b != [] && a[0] == b[0] {
      DigitsTotal(a[1..], b[1..]);
    }
  }

  /** Digits without a zero at the end. */
  ghost predicate Trimmed(ds: seq<Digit>) { ds == [] || ds[|ds| - 1] != 0 }

  lemma {:induction false} TrimmedPositive(ds: seq<Digit>)
    requires Trimmed(ds) && ds != []
    ensures Frac(ds) > 0.0
  {
    if |ds| > 1 {
      assert ds[1..][|ds| - 2] == ds[|ds| - 1];
      TrimmedPositive(ds[1..]);
    }
  }

  lemma {:induction false} DigitsOrder(a: seq<Digit>, b: seq<Digit>)
    requires DigitsLess(a, b) && Trimmed(b)
    ensures Frac(a) < Frac(b)
  {
    if a == [] {
      TrimmedPositive(b);
    } else if a[0] < b[0] {
      FracBounds(a[1..]);
      FracBounds(b[1..]);
    } else {
      assert |b| > 1 ==> b[1..][|b| - 2] == b[|b| - 1];
      DigitsOrder(a[1..], b[1..]);
    }
  }

  /** Significant digits start with one that is not zero. */
  lemma {:induction false} LeadingTenth(ds: seq<Digit>)
    requires ds != [] && ds[0] != 0
    ensures 0.1 <= Frac(ds)
  {
    FracBounds(ds[1..]);
  }

  lemma {:induction false} StripShape(ds: seq<Digit>)
    ensures Trimmed(Strip(ds))
    ensures ds != [] && ds[0] != 0 ==> Strip(ds) != [] && Strip(ds)[0] == ds[0]
  {
    var n := |ds| - 1;
    if ds != [] && ds[n] == 0 {
      StripShape(ds[..n]);
      assert Strip(ds) == Strip(ds[..n]);
    }
  }

  lemma {:induction false} SignificantShape(ds: seq<Digit>)
    requires !Zero(ds)
    ensures Significant(ds) != [] && Significant(ds)[0] != 0 && Trimmed(Significant(ds))
  {
    LeadStops(ds);
    StripShape(ds[Lead(ds)..]);
  }

  lemma {:induction false} ZeroMagnitude(n: Number)
    ensures Zero(n.ip + n.fp) <==> Magnitude(n) == 0.0
    ensures Magnitude(n) >= 0.0
  {
    var ds := n.ip + n.fp;
    Scientific(n);
    ShiftZero(Scale(n));
    if Zero(ds) {
      assert ds[Lead(ds)..] == [];
    } else {
      SignificantShape(ds);
      TrimmedPositive(Significant(ds));
      ShiftLess(0.0, Frac(Significant(ds)), Scale(n));
    }
  }

  /** The order of magnitudes is the order of (scale, significant digits). */
  lemma {:induction false} MagnitudeOrder(m: Number, n: Number)
    requires !Zero(m.ip + m.fp) && !Zero(n.ip + n.fp)
    requires Scale(m) < Scale(n) || (Scale(m) == Scale(n) && DigitsLess(Significant(m.ip + m.fp), Significant(n.ip + n.fp)))
    ensures Magnitude(m) < Magnitude(n)
  {
    var a, b := Significant(m.ip + m.fp), Significant(n.ip + n.fp);
    Scientific(m);
    Scientific(n);
    SignificantShape(n.ip + n.fp);
    FracBounds(a);
    if Scale(m) < Scale(n) {
      LeadingTenth(b);
      ShiftOrder(Frac(a), Scale(m), Frac(b), Scale(n));
    } else {
      DigitsOrder(a, b);
      ShiftLess(Frac(a), Frac(b), Scale(m));
    }
  }
}

/** The bytes of a numeric key and their order. */
module SortKey {
  import opened Options
  import opened SortKeyValue
  import opened SortRadix

  const POINT := 0x4040

  function Low(x: int): Byte { x % 256 }

  function Complement(flip: bool, c: Byte): Byte { if flip then 255 - c else c }

  /** The digits and the end mark, complemented for a number that sorts the other way. */
  function Body(flip: bool, ds: seq<Digit>): (b: seq<Byte>)
    ensures |b| == |ds| + 1
  {
    if ds == [] then [Complement(flip, 0)] else [Complement(flip, 48 + (ds[0] as int))] + Body(flip, ds[1..])
  }

  /** Sign and exponent. */
  function Header(flip: bool, dp: int): seq<Byte> {
    var p := if flip then -dp - 1 else dp;
    [if flip then 0x10 else 0x30, Low(p / 256), Low(p)]
  }

  function Encode(flip: bool, dp: int, ds: seq<Digit>): seq<Byte> { Header(flip, dp) + Body(flip, ds) }

  /** The key of a number, with or without the -r flag. */
  function KeyOf(n: Number, r: bool): seq<Byte> {
    if Zero(n.ip + n.fp) then [0x20, 0] else Encode(n.neg != r, POINT + Scale(n), Significant(n.ip + n.fp))
  }

  /** The scaled exponent fits its two bytes. */
  ghost predicate Fits(n: Number) { Zero(n.ip + n.fp) || 0 <= POINT + Scale(n) < 0x10000 }

  /** `x` sorts before `y`, or after it when `flip`. */
  ghost predicate Sorts(flip: bool, x: seq<Byte>, y: seq<Byte>) { if flip then Kcmp(x, y) > 0 else Kcmp(x, y) < 0 }

  lemma {:induction false} BodyOrder(flip: bool, a: seq<Digit>, b: seq<Digit>)
    requires DigitsLess(a, b)
    ensures Sorts(flip, Body(flip, a), Body(flip, b))
  {
    if a != [] && a[0] == b[0] {
      BodyOrder(flip, a[1..], b[1..]);
      assert Body(flip, a)[1..] == Body(flip, a[1..]) && Body(flip, b)[1..] == Body(flip, b[1..]);
    }
  }

  lemma KcmpCons(c: Byte, x: seq<Byte>, d: Byte, y: seq<Byte>)
    ensures Kcmp([c] + x, [d] + y) == if c != d then c as int - d as int else Kcmp(x, y)
  {
    assert ([c] + x)[1..] == x && ([d] + y)[1..] == y;
  }

  lemma {:induction false} EncodeOrder(flip: bool, dp: int, a: seq<Digit>, dq: int, b: seq<Digit>)
    requires 0 <= dp < 0x10000 && 0 <= dq < 0x10000
    requires dp < dq || (dp == dq && DigitsLess(a, b))
    ensures Sorts(flip, Encode(flip, dp, a), Encode(flip, dq, b))
  {
    var p, q := if flip then -dp - 1 else dp, if flip then -dq - 1 else dq;
    var s: Byte := if flip then 0x10 else 0x30;
    var x, y := Body(flip, a), Body(flip, b);
    assert Encode(flip, dp, a) == [s] + ([Low(p / 256)] + ([Low(p)] + x));
    assert Encode(flip, dq, b) == [s] + ([Low(q / 256)] + ([Low(q)] + y));
    KcmpCons(s, [Low(p / 256)] + ([Low(p)] + x), s, [Low(q / 256)] + ([Low(q)] + y));
    KcmpCons(Low(p / 256), [Low(p)] + x, Low(q / 256), [Low(q)] + y);
    KcmpCons(Low(p), x, Low(q), y);
    if dp < dq {
      TwoBytes(dp, dq);
      TwoBytes(-dq - 1, -dp - 1);
    } else {
      BodyOrder(flip, a, b);
    }
  }

  /** Two bytes keep the order of the numbers they hold. */
  lemma TwoBytes(p: int, q: int)
    requires p < q && ((0 <= p && q < 0x10000) || (-0x10000 <= p && q < 0))
    ensures Low(p / 256) < Low(q / 256) || (Low(p / 256) == Low(q / 256) && Low(p) < Low(q))
  {
  }

  lemma {:induction false} SameMagnitude(m: Number, n: Number)
    requires !Zero(m.ip + m.fp) && !Zero(n.ip + n.fp) && Magnitude(m) == Magnitude(n)
    ensures Scale(m) == Scale(n) && Significant(m.ip + m.fp) == Significant(n.ip + n.fp)
  {
    DigitsTotal(Significant(m.ip + m.fp), Significant(n.ip + n.fp));
    if Scale(m) < Scale(n) || (Scale(m) == Scale(n) && DigitsLess(Significant(m.ip + m.fp), Significant(n.ip + n.fp))) {
      MagnitudeOrder(m, n);
    } else if Scale(n) < Scale(m) || DigitsLess(Significant(n.ip + n.fp), Significant(m.ip + m.fp)) {
      MagnitudeOrder(n, m);
    }
  }

  /** The smaller of two numbers of the same sign is first by scale and digits, the other way round if negative. */
  lemma {:induction false} SameSignOrder(m: Number, n: Number, r: bool)
    requires !Zero(m.ip + m.fp) && !Zero(n.ip + n.fp) && Fits(m) && Fits(n) && m.neg == n.neg && Magnitude(m) < Magnitude(n)
    ensures Sorts(m.neg != r, KeyOf(m, r), KeyOf(n, r))
  {
    var a, b := Significant(m.ip + m.fp), Significant(n.ip + n.fp);
    DigitsTotal(a, b);
    if Scale(n) < Scale(m) || (Scale(m) == Scale(n) && DigitsLess(b, a)) {
      MagnitudeOrder(n, m);
    } else if Scale(m) == Scale(n) && a == b {
      Scientific(m);
      Scientific(n);
    } else {
      EncodeOrder(m.neg != r, POINT + Scale(m), a, POINT + Scale(n), b);
    }
  }

  /** Numbers of different sign differ in the first byte. */
  lemma {:induction false} SignOrder(m: Number, n: Number, r: bool)
    requires Value(m) < Value(n) && (Zero(m.ip + m.fp) || Zero(n.ip + n.fp) || m.neg != n.neg)
    ensures Sorts(r, KeyOf(m, r), KeyOf(n, r))
  {
    ZeroMagnitude(m);
    ZeroMagnitude(n);
  }

  /** Comparing keys compares values, and -r turns the order round. */
  lemma {:induction false} KeyOrder(m: Number, n: Number, r: bool)
    requires Fits(m) && Fits(n) && Value(m) < Value(n)
    ensures Sorts(r, KeyOf(m, r), KeyOf(n, r))
  {
    ZeroMagnitude(m);
    ZeroMagnitude(n);
    if Zero(m.ip + m.fp) || Zero(n.ip + n.fp) || m.neg != n.neg {
      SignOrder(m, n, r);
    } else if m.neg {
      SameSignOrder(n, m, r);
      KcmpSwap(KeyOf(n, r), KeyOf(m, r));
    } else {
      SameSignOrder(m, n, r);
    }
  }

  lemma {:induction false} KcmpSwap(x: seq<Byte>, y: seq<Byte>)
    ensures Kcmp(x, y) == -Kcmp(y, x)
  {
    if x != [] && y != [] {
      KcmpSwap(x[1..], y[1..]);
    }
  }

  /** However a value is written, its key is the same. */
  lemma {:induction false} EqualValuesEqualKeys(m: Number, n: Number, r: bool)
    requires Value(m) == Value(n)
    ensures KeyOf(m, r) == KeyOf(n, r)
  {
    ZeroMagnitude(m);
    ZeroMagnitude(n);
    if !Zero(m.ip + m.fp) && !Zero(n.ip + n.fp) {
      SameMagnitude(m, n);
    }
  }

  ghost predicate SameSign(c: int, d: real) { (c < 0 <==> d < 0.0) && (c > 0 <==> d > 0.0) }

  /** The sign of `kcmp` on two keys is the sign of the difference of the values, turned round by -r. */
  lemma {:induction false} KcmpComparesValues(m: Number, n: Number, r: bool)
    requires Fits(m) && Fits(n)
    ensures SameSign(if r then -Kcmp(KeyOf(m, r), KeyOf(n, r)) else Kcmp(KeyOf(m, r), KeyOf(n, r)), Value(m) - Value(n))
    ensures Value(m) == Value(n) <==> KeyOf(m, r) == KeyOf(n, r)
  {
    KcmpSwap(KeyOf(m, r), KeyOf(n, r));
    KcmpSwap(KeyOf(m, r), KeyOf(m, r));
    if Value(m) < Value(n) {
      KeyOrder(m, n, r);
    } else if Value(m) > Value(n) {
      KeyOrder(n, m, r);
    } else {
      EqualValuesEqualKeys(m, n, r);
    }
  }

  lemma {:induction false} BodyPrefixFree(flip: bool, a: seq<Digit>, b: seq<Digit>)
    ensures !ProperPrefix(Body(flip, a), Body(flip, b))
  {
    var x, y := Body(flip, a), Body(flip, b);
    if ProperPrefix(x, y) {
      assert x[0] == y[..|x|][0];
      if a != [] {
        assert x[1..] == Body(flip, a[1..]) && y[1..] == Body(flip, b[1..]);
        assert y[1..][..|x| - 1] == y[..|x|][1..];
        BodyPrefixFree(flip, a[1..], b[1..]);
      }
    }
  }

  /** No numeric key begins another, as the radix sort requires. */
  lemma {:induction false} KeysPrefixFree(m: Number, n: Number, r: bool)
    ensures !ProperPrefix(KeyOf(m, r), KeyOf(n, r))
  {
    var x, y := KeyOf(m, r), KeyOf(n, r);
    if ProperPrefix(x, y) {
      assert x[0] == y[..|x|][0];
      if !Zero(m.ip + m.fp) {
        assert x[3..] == Body(m.neg != r, Significant(m.ip + m.fp)) && y[3..] == Body(m.neg != r, Significant(n.ip + n.fp));
        assert y[3..][..|x| - 3] == y[..|x|][3..];
        BodyPrefixFree(m.neg != r, Significant(m.ip + m.fp), Significant(n.ip + n.fp));
      }
    }
  }

  /** Comparing the key of `n` with that of any number that fits compares the values. */
  ghost predicate ComparesRight(n: Number, r: bool) {
    forall m: Number {:trigger KeyOf(m, r)} :: Fits(m) ==>
      && SameSign(if r then -Kcmp(KeyOf(m, r), KeyOf(n, r)) else Kcmp(KeyOf(m, r), KeyOf(n, r)), Value(m) - Value(n))
      && (Value(m) == Value(n) <==> KeyOf(m, r) == KeyOf(n, r))
  }

  /** The number that fits and has the key of `n`: its exponent is cut to two bytes. */
  function Folded(n: Number): Number { n.(exp := n.exp + (POINT + Scale(n)) % 0x10000 - (POINT + Scale(n))) }

  lemma LowPeriod(x: int, k: int)
    ensures Low(x + 256 * k) == Low(x)
  {
  }

  lemma HighPeriod(x: int, k: int)
    ensures (x + 0x10000 * k) / 256 == x / 256 + 256 * k
  {
  }

  lemma {:induction false} SameBytes(x: int, k: int)
    ensures Low((x + 0x10000 * k) / 256) == Low(x / 256) && Low(x + 0x10000 * k) == Low(x)
  {
    HighPeriod(x, k);
    LowPeriod(x / 256, k);
    LowPeriod(x, 256 * k);
  }

  lemma {:induction false} SameHeader(flip: bool, q: int, k: int)
    ensures Header(flip, q + 0x10000 * k) == Header(flip, q)
  {
    SameBytes(q, k);
    SameBytes(-q - 1, -k);
  }

  lemma {:induction false} FoldedKey(n: Number, r: bool)
    requires !Zero(n.ip + n.fp)
    ensures Fits(Folded(n)) && KeyOf(Folded(n), r) == KeyOf(n, r)
  {
    var p := POINT + Scale(n);
    assert p == p % 0x10000 + 0x10000 * (p / 0x10000);
    SameHeader(n.neg != r, p % 0x10000, p / 0x10000);
  }

  lemma {:induction false} FoldedValue(n: Number)
    requires !Fits(n)
    ensures Value(Folded(n)) != Value(n)
  {
    if Scale(Folded(n)) < Scale(n) {
      MagnitudeOrder(Folded(n), n);
    } else {
      MagnitudeOrder(n, Folded(n));
    }
  }

  /** The key of a number compares right with the keys of all that fit exactly if it fits itself; otherwise it has
      the key of another value. */
  lemma {:induction false} FitsExactly(n: Number, r: bool)
    ensures Fits(n) <==> ComparesRight(n, r)
  {
    if Fits(n) {
      forall m: Number | Fits(m)
        ensures SameSign(if r then -Kcmp(KeyOf(m, r), KeyOf(n, r)) else Kcmp(KeyOf(m, r), KeyOf(n, r)), Value(m) - Value(n))
        ensures Value(m) == Value(n) <==> KeyOf(m, r) == KeyOf(n, r)
      {
        KcmpComparesValues(m, n, r);
      }
    } else {
      FoldedKey(n, r);
      FoldedValue(n);
    }
  }

  // ----- what a field says -----

  predicate IsBlank(c: Byte) { c == 32 || c == 9 }
  predicate IsSign(c: Byte) { c == 43 || c == 45 }
  predicate IsDigit(c: Byte) { 48 <= c <= 57 }
  predicate IsPoint(c: Byte) { c == 46 }
  predicate IsE(c: Byte) { c == 101 || c == 69 }

  predicate StartsBlank(s: seq<Byte>) { s != [] && IsBlank(s[0]) }
  predicate StartsSign(s: seq<Byte>) { s != [] && IsSign(s[0]) }
  predicate StartsDigit(s: seq<Byte>) { s != [] && IsDigit(s[0]) }
  predicate StartsPoint(s: seq<Byte>) { s != [] && IsPoint(s[0]) }
  predicate StartsE(s: seq<Byte>) { s != [] && IsE(s[0]) }

  function SkipBlanks(s: seq<Byte>): seq<Byte> { if StartsBlank(s) then SkipBlanks(s[1..]) else s }

  /** The digits at the front. */
  function Span(s: seq<Byte>): (ds: seq<Digit>)
    ensures |ds| <= |s|
  {
    if StartsDigit(s) then [(s[0] as int) - 48] + Span(s[1..]) else []
  }

  function NatFrom(e: nat, ds: seq<Digit>): nat
    decreases |ds|
  {
    if ds == [] then e else NatFrom(10 * e + ds[0], ds[1..])
  }

  function Signed(neg: bool, e: nat): int { if neg then -(e as int) else e }

  /** An optional sign and digits. */
  function Exponent(s: seq<Byte>): int {
    if StartsSign(s) then Signed(s[0] == 45, NatFrom(0, Span(s[1..]))) else NatFrom(0, Span(s))
  }

  /** After the mantissa: with -g, and unless it is zero, an exponent may follow. */
  function AtExponent(neg: bool, ip: seq<Digit>, fp: seq<Digit>, s: seq<Byte>, g: bool): Number {
    Number(neg, ip, fp, if g && !SortKeyValue.Zero(ip + fp) && StartsE(s) then Exponent(s[1..]) else 0)
  }

  /** After the point: the rest of the digits. */
  function InFraction(neg: bool, ip: seq<Digit>, fp: seq<Digit>, s: seq<Byte>, g: bool): Number {
    AtExponent(neg, ip, fp + Span(s), s[|Span(s)|..], g)
  }

  /** Before the point: the rest of the digits, then perhaps a point. */
  function InInteger(neg: bool, ip: seq<Digit>, s: seq<Byte>, g: bool): Number {
    var t := s[|Span(s)|..];
    if StartsPoint(t) then InFraction(neg, ip + Span(s), [], t[1..], g) else AtExponent(neg, ip + Span(s), [], t, g)
  }

  /** The number at the front of a field: blanks, a sign, blanks, digits with a point, an exponent. */
  function Parse(s: seq<Byte>, g: bool): Number {
    var t := SkipBlanks(s);
    if StartsSign(t) then InInteger(t[0] == 45, [], SkipBlanks(t[1..]), g) else InInteger(false, [], t, g)
  }

  /** The powers of ten that fit their keys: from 10 to the -16449 up to 10 to the 49086. */
  lemma {:induction false} PowersThatFit(neg: bool, e: int)
    ensures Fits(Number(neg, [1], [], e)) <==> -16449 <= e <= 49086
  {
    var n := Number(neg, [1], [], e);
    assert (n.ip + n.fp)[0] == 1;
  }

  /** Where two bytes do not suffice: with -g the fields 1 and 1e49087 sort the wrong way round. */
  lemma {:induction false} WideExponentWraps()
    ensures var m, n := Parse([49], true), Parse([49, 101, 52, 57, 48, 56, 55], true);
      n == Number(false, [1], [], 49087) && !Fits(n) && Value(m) < Value(n) && Kcmp(KeyOf(m, false), KeyOf(n, false)) > 0
  {
    ParseOne();
    ParseWide();
    WideOrder();
  }

  lemma WideOrder()
    ensures var m, n := Number(false, [1], [], 0), Number(false, [1], [], 49087);
      !Fits(n) && Value(m) < Value(n) && Kcmp(KeyOf(m, false), KeyOf(n, false)) > 0
  {
    var m, n := Number(false, [1], [], 0), Number(false, [1], [], 49087);
    assert (m.ip + m.fp)[0] == 1 && (n.ip + n.fp)[0] == 1;
    MagnitudeOrder(m, n);
  }

  lemma {:induction false} ParseOne()
    ensures Parse([49], true) == Number(false, [1], [], 0)
  {
    var s: seq<Byte>, one: seq<Digit> := [49], [1];
    assert s[1..] == [] && Span(s) == one && [] + one == one;
  }

  lemma {:induction false} ParseOneE(s: seq<Byte>)
    requires |s| >= 2 && s[0] == 49 && s[1] == 101
    ensures Parse(s, true) == Number(false, [1], [], Exponent(s[2..]))
  {
    var one: seq<Digit> := [1];
    var t := s[1..];
    assert Span(t) == [] && Span(s) == one && [] + one == one;
    assert (one + [])[0] == 1;
    assert t[1..] == s[2..];
  }

  lemma {:induction false} ParseWide()
    ensures Parse([49, 101, 52, 57, 48, 56, 55], true) == Number(false, [1], [], 49087)
  {
    var s: seq<Byte> := [49, 101, 52, 57, 48, 56, 55];
    ParseOneE(s);
    assert s[2..] == [52, 57, 48, 56, 55];
    SpanFive();
  }

  lemma {:induction false} SpanFive()
    ensures Span([52, 57, 48, 56, 55]) == [4, 9, 0, 8, 7] && NatFrom(0, [4, 9, 0, 8, 7]) == 49087
  {
    var s: seq<Byte>, d: seq<Digit> := [52, 57, 48, 56, 55], [4, 9, 0, 8, 7];
    assert s[1..] == [57, 48, 56, 55] && s[1..][1..] == [48, 56, 55] && s[1..][1..][1..] == [56, 55] && s[1..][1..][1..][1..] == [55];
    assert Span([55]) == [7] && Span([56, 55]) == [8] + Span([55]);
    assert Span([48, 56, 55]) == [0] + Span([56, 55]) && Span([57, 48, 56, 55]) == [9] + Span([48, 56, 55]);
    assert d[1..] == [9, 0, 8, 7] && d[1..][1..] == [0, 8, 7] && d[1..][1..][1..] == [8, 7] && d[1..][1..][1..][1..] == [7];
    assert NatFrom(4908, [7]) == 49087 && NatFrom(490, [8, 7]) == NatFrom(4908, [7]);
    assert NatFrom(49, [0, 8, 7]) == NatFrom(490, [8, 7]) && NatFrom(4, [9, 0, 8, 7]) == NatFrom(49, [0, 8, 7]);
  }

  // ----- the state machine -----

  datatype State = NSstart | NSsign | NSzero | NSdigit | NSpoint | NSfract | NSzerofract | NSexp | NSexpsign | NSexpdigit

  /** The variables of the loop: the digits written, how many zeros end them, where the point is, the exponent, the sign. */
  datatype Scan = Scan(state: State, kp: seq<Byte>, nzero: nat, dp: int, exp: int, expsign: bool, flip: bool)

  /** What a 32-bit int holds of `x`. */
  function Wrap(x: int): int { (x + 0x8000_0000) % 0x1_0000_0000 - 0x8000_0000 }

  function OnSign(m: Scan, c: Byte): Option<Scan> {
    match m.state
    case NSstart => Some(m.(state := NSsign, flip := m.flip != (c == 45)))
    case NSexp => Some(m.(state := NSexpsign, expsign := c == 45))
    case _ => None
  }

  function OnDigit(m: Scan, c: Byte): Scan
    requires IsDigit(c)
  {
    var zeros := if c == 48 then m.nzero + 1 else 0;
    match m.state
    case NSdigit => m.(kp := m.kp + [Complement(m.flip, c)], nzero := zeros, dp := m.dp + 1)
    case NSfract => m.(kp := m.kp + [Complement(m.flip, c)], nzero := zeros)
    case NSstart => OnFirst(m, c)
    case NSsign => OnFirst(m, c)
    case NSzero => OnFirst(m, c)
    case NSzerofract => OnFirstFraction(m, c)
    case NSpoint => OnFirstFraction(m, c)
    case _ => m.(exp := Wrap(10 * m.exp + ((c as int) - 48)), state := NSexpdigit)
  }

  function OnFirst(m: Scan, c: Byte): Scan {
    if c == 48 then m.(state := NSzero)
    else m.(kp := m.kp + [Complement(m.flip, c)], nzero := 0, dp := m.dp + 1, state := NSdigit)
  }

  function OnFirstFraction(m: Scan, c: Byte): Scan {
    if c == 48 then m.(dp := m.dp - 1, state := NSzerofract)
    else m.(kp := m.kp + [Complement(m.flip, c)], nzero := 0, state := NSfract)
  }

  function OnPoint(m: Scan): Option<Scan> {
    match m.state
    case NSstart => Some(m.(state := NSpoint))
    case NSsign => Some(m.(state := NSpoint))
    case NSzero => Some(m.(state := NSzerofract))
    case NSdigit => Some(m.(state := NSfract))
    case _ => None
  }

  /** One character: go on, or stop. */
  function Next(m: Scan, c: Byte, g: bool): Option<Scan> {
    if IsBlank(c) then if m.state.NSstart? || m.state.NSsign? then Some(m) else None
    else if IsSign(c) then OnSign(m, c)
    else if IsDigit(c) then Some(OnDigit(m, c))
    else if IsPoint(c) then OnPoint(m)
    else if g && IsE(c) && (m.state.NSdigit? || m.state.NSfract?) then Some(m.(state := NSexp))
    else None
  }

  /** What has been read so far. */
  datatype Read = Read(neg: bool, ip: seq<Digit>, fp: seq<Digit>, exp: nat)

  /** The number the field holds, given what has been read and what is left. */
  ghost function Means(m: Scan, p: Read, rest: seq<Byte>, g: bool): Number {
    match m.state
    case NSstart => Parse(rest, g)
    case NSsign => InInteger(p.neg, [], SkipBlanks(rest), g)
    case NSzero => InInteger(p.neg, p.ip, rest, g)
    case NSdigit => InInteger(p.neg, p.ip, rest, g)
    case NSpoint => InFraction(p.neg, p.ip, p.fp, rest, g)
    case NSzerofract => InFraction(p.neg, p.ip, p.fp, rest, g)
    case NSfract => InFraction(p.neg, p.ip, p.fp, rest, g)
    case NSexp => Number(p.neg, p.ip, p.fp, Exponent(rest))
    case _ => Number(p.neg, p.ip, p.fp, Signed(m.expsign, NatFrom(p.exp, Span(rest))))
  }

  function Codes(flip: bool, ds: seq<Digit>): (r: seq<Byte>)
    ensures |r| == |ds|
  {
    if ds == [] then [] else Codes(flip, ds[..|ds| - 1]) + [Complement(flip, 48 + (ds[|ds| - 1] as int))]
  }

  lemma {:induction false} CodesStrip(flip: bool, ds: seq<Digit>)
    ensures Codes(flip, ds)[..|ds| - Trail(ds)] == Codes(flip, Strip(ds))
  {
    var n := |ds| - 1;
    if ds != [] && ds[n] == 0 {
      CodesStrip(flip, ds[..n]);
      assert Strip(ds) == Strip(ds[..n]);
      assert Codes(flip, ds)[..n] == Codes(flip, ds[..n]);
    } else {
      assert Strip(ds) == ds;
    }
  }

  /** What each state says of what has been read. */
  ghost predicate Shaped(m: Scan, p: Read) {
    && (m.state.NSstart? ==> !p.neg)
    && (m.state.NSstart? || m.state.NSsign? || m.state.NSpoint? ==> p.ip == [])
    && (m.state.NSstart? || m.state.NSsign? || m.state.NSpoint? || m.state.NSzero? || m.state.NSdigit? ==> p.fp == [])
    && (!m.state.NSexpsign? && !m.state.NSexpdigit? ==> p.exp == 0)
    && (!m.state.NSexpsign? && !m.state.NSexpdigit? ==> !m.expsign)
    && (m.state.NSexpsign? ==> p.exp == 0)
    && (Nothing(m.state) <==> SortKeyValue.Zero(p.ip + p.fp))
  }

  /** The states in which no digit but zero has been seen. */
  predicate Nothing(st: State) { st.NSstart? || st.NSsign? || st.NSzero? || st.NSpoint? || st.NSzerofract? }

  /** The variables agree with what has been read. */
  ghost predicate Tracks(m: Scan, p: Read, r: bool) {
    && m.flip == (p.neg != r) && Shaped(m, p) && m.exp == Wrap(p.exp)
    && if Nothing(m.state) then m.dp == POINT - |p.fp| && m.kp == [] else Placed(m.dp, p) && Wrote(m.flip, m.kp, m.nzero, p.ip + p.fp)
  }

  ghost predicate Placed(dp: int, p: Read) { dp == POINT + |p.ip| - Lead(p.ip + p.fp) }

  /** The bytes written are the digits after the leading zeros, and `nzero` of them are zeros at the end. */
  ghost predicate Wrote(flip: bool, kp: seq<Byte>, nzero: nat, ds: seq<Digit>) {
    kp == Codes(flip, ds[Lead(ds)..]) && nzero == Trail(ds[Lead(ds)..])
  }

  ghost function Advance(m: Scan, p: Read, c: Byte): Read {
    if IsSign(c) && m.state.NSstart? then p.(neg := c == 45)
    else if IsDigit(c) && (m.state.NSstart? || m.state.NSsign? || m.state.NSzero? || m.state.NSdigit?) then p.(ip := p.ip + [(c as int) - 48])
    else if IsDigit(c) && (m.state.NSpoint? || m.state.NSzerofract? || m.state.NSfract?) then p.(fp := p.fp + [(c as int) - 48])
    else if IsDigit(c) then p.(exp := 10 * p.exp + ((c as int) - 48))
    else p
  }

  lemma {:induction false} SpanStep(s: seq<Byte>)
    requires StartsDigit(s)
    ensures Span(s) == [(s[0] as int) - 48] + Span(s[1..]) && s[|Span(s)|..] == s[1..][|Span(s[1..])|..]
  {
  }

  lemma {:induction false} IntegerStep(neg: bool, ip: seq<Digit>, s: seq<Byte>, g: bool)
    requires StartsDigit(s)
    ensures InInteger(neg, ip, s, g) == InInteger(neg, ip + [(s[0] as int) - 48], s[1..], g)
  {
    SpanStep(s);
    assert ip + Span(s) == ip + [(s[0] as int) - 48] + Span(s[1..]);
  }

  lemma {:induction false} FractionStep(neg: bool, ip: seq<Digit>, fp: seq<Digit>, s: seq<Byte>, g: bool)
    requires StartsDigit(s)
    ensures InFraction(neg, ip, fp, s, g) == InFraction(neg, ip, fp + [(s[0] as int) - 48], s[1..], g)
  {
    SpanStep(s);
    assert fp + Span(s) == fp + [(s[0] as int) - 48] + Span(s[1..]);
  }

  lemma {:induction false} IntegerMeans(m: Scan, p: Read, rest: seq<Byte>, g: bool)
    requires StartsDigit(rest) && Shaped(m, p) && Whole(m.state)
    ensures Means(OnDigit(m, rest[0]), Advance(m, p, rest[0]), rest[1..], g) == Means(m, p, rest, g)
  {
    IntegerStep(p.neg, p.ip, rest, g);
  }

  lemma {:induction false} FractionMeans(m: Scan, p: Read, rest: seq<Byte>, g: bool)
    requires StartsDigit(rest) && Shaped(m, p) && (m.state.NSpoint? || m.state.NSzerofract? || m.state.NSfract?)
    ensures Means(OnDigit(m, rest[0]), Advance(m, p, rest[0]), rest[1..], g) == Means(m, p, rest, g)
  {
    FractionStep(p.neg, p.ip, p.fp, rest, g);
  }

  lemma {:induction false} DigitMeans(m: Scan, p: Read, rest: seq<Byte>, g: bool)
    requires StartsDigit(rest) && Shaped(m, p)
    ensures Means(OnDigit(m, rest[0]), Advance(m, p, rest[0]), rest[1..], g) == Means(m, p, rest, g)
  {
    if Whole(m.state) {
      IntegerMeans(m, p, rest, g);
    } else if m.state.NSpoint? || m.state.NSzerofract? || m.state.NSfract? {
      FractionMeans(m, p, rest, g);
    } else {
      SpanStep(rest);
    }
  }

  lemma NoDigits(ip: seq<Digit>, s: seq<Byte>)
    requires !StartsDigit(s)
    ensures Span(s) == [] && s[|Span(s)|..] == s && ip + Span(s) == ip
  {
  }

  lemma {:induction false} OtherMeans(m: Scan, p: Read, rest: seq<Byte>, g: bool)
    requires rest != [] && !StartsDigit(rest) && Shaped(m, p) && Next(m, rest[0], g).Some?
    ensures Means(Next(m, rest[0], g).value, Advance(m, p, rest[0]), rest[1..], g) == Means(m, p, rest, g)
  {
    NoDigits(p.ip, rest);
    NoDigits(p.fp, rest);
    NoDigits([], rest);
  }

  /** Each step leaves the meaning of the whole field alone. */
  lemma {:induction false} StepMeans(m: Scan, p: Read, rest: seq<Byte>, g: bool)
    requires rest != [] && Shaped(m, p) && Next(m, rest[0], g).Some?
    ensures Means(Next(m, rest[0], g).value, Advance(m, p, rest[0]), rest[1..], g) == Means(m, p, rest, g)
  {
    if StartsDigit(rest) {
      DigitMeans(m, p, rest, g);
    } else {
      OtherMeans(m, p, rest, g);
    }
  }

  lemma {:induction false} LeadAppend(ds: seq<Digit>, d: Digit)
    ensures Lead(ds + [d]) == if SortKeyValue.Zero(ds) && d == 0 then |ds| + 1 else Lead(ds)
  {
    if ds != [] && ds[0] == 0 {
      assert (ds + [d])[1..] == ds[1..] + [d];
      LeadAppend(ds[1..], d);
    } else {
      assert ds == [] ==> (ds + [d])[1..] == [];
    }
  }

  lemma TrailAppend(x: seq<Digit>, d: Digit)
    ensures Trail(x + [d]) == if d == 0 then Trail(x) + 1 else 0
  {
    assert (x + [d])[..|x|] == x;
  }

  lemma CodesAppend(flip: bool, x: seq<Digit>, d: Digit)
    ensures Codes(flip, x + [d]) == Codes(flip, x) + [Complement(flip, 48 + (d as int))]
  {
    assert (x + [d])[..|x|] == x;
  }

  /** The first digit that is not zero. */
  lemma {:induction false} FirstDigit(flip: bool, ds: seq<Digit>, d: Digit)
    requires SortKeyValue.Zero(ds) && d != 0
    ensures Wrote(flip, [Complement(flip, 48 + (d as int))], 0, ds + [d]) && Lead(ds + [d]) == |ds|
  {
    LeadAppend(ds, d);
    assert (ds + [d])[|ds|..] == [] + [d];
    CodesAppend(flip, [], d);
    TrailAppend([], d);
  }

  /** A digit after that. */
  lemma {:induction false} NextDigit(flip: bool, kp: seq<Byte>, nzero: nat, ds: seq<Digit>, d: Digit)
    requires !SortKeyValue.Zero(ds) && Wrote(flip, kp, nzero, ds)
    ensures Wrote(flip, kp + [Complement(flip, 48 + (d as int))], if d == 0 then nzero + 1 else 0, ds + [d]) && Lead(ds + [d]) == Lead(ds)
  {
    LeadAppend(ds, d);
    assert (ds + [d])[Lead(ds)..] == ds[Lead(ds)..] + [d];
    CodesAppend(flip, ds[Lead(ds)..], d);
    TrailAppend(ds[Lead(ds)..], d);
  }

  /** Whether a character adds a digit to the mantissa. */
  predicate Adds(m: Scan, c: Byte) { IsDigit(c) && !m.state.NSexp? && !m.state.NSexpsign? && !m.state.NSexpdigit? }

  lemma {:induction false} AddsDigit(m: Scan, p: Read, c: Byte)
    requires Adds(m, c) && Shaped(m, p)
    ensures var q := Advance(m, p, c); q.ip + q.fp == p.ip + p.fp + [(c as int) - 48] && q.neg == p.neg
  {
  }

  lemma {:induction false} StepShaped(m: Scan, p: Read, c: Byte, g: bool)
    requires Shaped(m, p) && Next(m, c, g).Some?
    ensures Shaped(Next(m, c, g).value, Advance(m, p, c))
  {
    if Adds(m, c) {
      AddsDigit(m, p, c);
      LeadAppend(p.ip + p.fp, (c as int) - 48);
    }
  }

  /** Each step keeps the variables in agreement with what has been read. */
  lemma {:induction false} StepTracks(m: Scan, p: Read, c: Byte, g: bool, r: bool)
    requires Tracks(m, p, r) && Next(m, c, g).Some?
    ensures Tracks(Next(m, c, g).value, Advance(m, p, c), r)
  {
    StepShaped(m, p, c, g);
    if Adds(m, c) {
      DigitTracks(m, p, c, r);
    } else {
      OtherTracks(m, p, c, g, r);
    }
  }

  lemma {:induction false} WrapDigit(e: int, d: int)
    ensures Wrap(10 * Wrap(e) + d) == Wrap(10 * e + d)
  {
    var k := Turns(e);
    WrapTurns(10 * e + d, 10 * k);
  }

  /** How many times `Wrap` goes round. */
  lemma Turns(x: int) returns (k: int)
    ensures Wrap(x) == x + 0x1_0000_0000 * k
  {
    k := -((x + 0x8000_0000) / 0x1_0000_0000);
  }

  lemma WrapTurns(x: int, k: int)
    ensures Wrap(x + 0x1_0000_0000 * k) == Wrap(x)
  {
  }

  lemma OtherFields(m: Scan, p: Read, c: Byte, g: bool)
    requires Next(m, c, g).Some? && !Adds(m, c)
    ensures var n := Next(m, c, g).value; n.kp == m.kp && n.nzero == m.nzero && n.dp == m.dp && Nothing(n.state) == Nothing(m.state)
    ensures var n, q := Next(m, c, g).value, Advance(m, p, c);
      if IsDigit(c) then n.exp == Wrap(10 * m.exp + ((c as int) - 48)) && q.exp == 10 * p.exp + ((c as int) - 48) else n.exp == m.exp && q.exp == p.exp
    ensures var n, q := Next(m, c, g).value, Advance(m, p, c); q.ip == p.ip && q.fp == p.fp && (n.flip != m.flip <==> IsSign(c) && c == 45 && m.state.NSstart?)
  {
  }

  /** Nothing was written, and the sign changed only before the first digit. */
  lemma SameTracks(m: Scan, n: Scan, p: Read, q: Read, r: bool)
    requires Tracks(m, p, r) && Shaped(n, q) && n.kp == m.kp && n.nzero == m.nzero && n.dp == m.dp && Nothing(n.state) == Nothing(m.state)
    requires q.ip == p.ip && q.fp == p.fp && n.exp == Wrap(q.exp) && n.flip == (q.neg != r) && (q.neg == p.neg || Nothing(n.state))
    ensures Tracks(n, q, r)
  {
  }

  lemma {:induction false} OtherTracks(m: Scan, p: Read, c: Byte, g: bool, r: bool)
    requires Tracks(m, p, r) && Next(m, c, g).Some? && !Adds(m, c) && Shaped(Next(m, c, g).value, Advance(m, p, c))
    ensures Tracks(Next(m, c, g).value, Advance(m, p, c), r)
  {
    OtherFields(m, p, c, g);
    if IsDigit(c) {
      WrapDigit(p.exp, (c as int) - 48);
    }
    SameTracks(m, Next(m, c, g).value, p, Advance(m, p, c), r);
  }

  /** What a digit of the mantissa does to the variables. */
  ghost predicate DigitFields(m: Scan, n: Scan, d: Digit, whole: bool) {
    && n.flip == m.flip && n.exp == m.exp && n.expsign == m.expsign && (Nothing(n.state) <==> Nothing(m.state) && d == 0)
    && if Nothing(n.state) then n.kp == m.kp && n.dp == m.dp - (if whole then 0 else 1)
       else
         && n.kp == m.kp + [Complement(m.flip, 48 + (d as int))] && n.dp == m.dp + (if whole then 1 else 0)
         && n.nzero == (if d != 0 then 0 else m.nzero + 1)
  }

  /** Whether a digit comes before the point. */
  predicate Whole(st: State) { st.NSstart? || st.NSsign? || st.NSzero? || st.NSdigit? }

  lemma OnDigitFields(m: Scan, c: Byte)
    requires Adds(m, c)
    ensures DigitFields(m, OnDigit(m, c), (c as int) - 48, Whole(m.state))
  {
  }

  lemma {:induction false} FieldsTrack(m: Scan, n: Scan, p: Read, q: Read, d: Digit, whole: bool, r: bool)
    requires Tracks(m, p, r) && DigitFields(m, n, d, whole) && Shaped(n, q) && q.neg == p.neg && q.exp == p.exp
    requires |q.ip| == |p.ip| + (if whole then 1 else 0) && |q.fp| == |p.fp| + (if whole then 0 else 1) && q.ip + q.fp == p.ip + p.fp + [d]
    requires whole && Nothing(m.state) ==> p.fp == []
    ensures Tracks(n, q, r)
  {
    var ds := p.ip + p.fp;
    if !Nothing(m.state) {
      NextDigit(m.flip, m.kp, m.nzero, ds, d);
    } else if d != 0 {
      FirstDigit(m.flip, ds, d);
      assert m.kp + [Complement(m.flip, 48 + (d as int))] == [Complement(m.flip, 48 + (d as int))];
    }
  }

  lemma {:induction false} DigitTracks(m: Scan, p: Read, c: Byte, r: bool)
    requires Tracks(m, p, r) && Adds(m, c) && Shaped(OnDigit(m, c), Advance(m, p, c))
    ensures Tracks(OnDigit(m, c), Advance(m, p, c), r)
  {
    AddsDigit(m, p, c);
    OnDigitFields(m, c);
    FieldsTrack(m, OnDigit(m, c), p, Advance(m, p, c), (c as int) - 48, Whole(m.state), r);
  }

  /** The number read when the loop ends. */
  ghost function Result(m: Scan, p: Read): Number { Number(p.neg, p.ip, p.fp, Signed(m.expsign, p.exp)) }

  lemma {:induction false} StopMeans(m: Scan, p: Read, rest: seq<Byte>, g: bool)
    requires Shaped(m, p) && (rest == [] || Next(m, rest[0], g).None?)
    ensures Means(m, p, rest, g) == Result(m, p)
  {
    StopsBefore(m, rest, g);
    NoDigits(p.ip, rest);
    NoDigits(p.fp, rest);
    NoDigits([], rest);
  }

  /** What can follow when the loop stops. */
  lemma StopsBefore(m: Scan, rest: seq<Byte>, g: bool)
    requires rest == [] || Next(m, rest[0], g).None?
    ensures !StartsDigit(rest)
    ensures m.state.NSstart? || m.state.NSsign? ==> !StartsBlank(rest)
    ensures m.state.NSstart? || m.state.NSexp? ==> !StartsSign(rest)
    ensures Whole(m.state) ==> !StartsPoint(rest)
    ensures g && (m.state.NSdigit? || m.state.NSfract?) ==> !StartsE(rest)
  {
  }

  lemma {:induction false} BodyAppend(flip: bool, ds: seq<Digit>, d: Digit)
    ensures Body(flip, ds + [d]) == Body(flip, ds)[..|ds|] + [Complement(flip, 48 + (d as int)), Complement(flip, 0)]
  {
    if ds == [] {
      assert ([d] + [])[1..] == [] && ds + [d] == [d];
    } else {
      BodyAppend(flip, ds[1..], d);
      assert (ds + [d])[1..] == ds[1..] + [d];
      var h, b := Complement(flip, 48 + (ds[0] as int)), Body(flip, ds[1..]);
      assert Body(flip, ds) == [h] + b && Body(flip, ds + [d]) == [h] + Body(flip, ds[1..] + [d]);
      assert ([h] + b)[..|ds|] == [h] + b[..|ds| - 1];
    }
  }

  lemma {:induction false} CodesBody(flip: bool, ds: seq<Digit>)
    ensures Codes(flip, ds) + [Complement(flip, 0)] == Body(flip, ds)
  {
    if ds != [] {
      var n := |ds| - 1;
      CodesBody(flip, ds[..n]);
      BodyAppend(flip, ds[..n], ds[n]);
      assert ds == ds[..n] + [ds[n]];
      assert Body(flip, ds[..n])[..n] == Codes(flip, ds[..n]);
    }
  }

  /** The bytes assembled after the loop are the key of the number read. */
  lemma {:induction false} Assembled(flip: bool, kp: seq<Byte>, nzero: nat, ds: seq<Digit>)
    requires Wrote(flip, kp, nzero, ds)
    ensures nzero <= |kp| && kp[..|kp| - nzero] + [Complement(flip, 0)] == Body(flip, Significant(ds))
  {
    var x := ds[Lead(ds)..];
    CodesStrip(flip, x);
    CodesBody(flip, Strip(x));
  }

  /** The exponent with its sign, negated in 32 bits. */
  function SignedExp(m: Scan): int { if m.expsign then Wrap(-m.exp) else m.exp }

  /** The two bytes of the exponent do not tell a wrapped sum from the true one. */
  lemma {:induction false} WrapHeader(m: Scan, e: nat)
    requires m.exp == Wrap(e)
    ensures Header(m.flip, Wrap(m.dp + SignedExp(m))) == Header(m.flip, m.dp + Signed(m.expsign, e))
  {
    var j := Turns(e);
    var k := Turns(-m.exp);
    var l := Turns(m.dp + SignedExp(m));
    var n := if m.expsign then l + k - j else l + j;
    SameHeader(m.flip, m.dp + Signed(m.expsign, e), 0x10000 * n);
  }

  /** The key `k` in terms of the variables at the end of the loop. */
  ghost predicate Finishes(m: Scan, k: seq<Byte>) {
    if Nothing(m.state) then k == [0x20, 0]
    else m.nzero <= |m.kp| && k == Header(m.flip, Wrap(m.dp + SignedExp(m))) + (m.kp[..|m.kp| - m.nzero] + [Complement(m.flip, 0)])
  }

  lemma {:induction false} KeyFromScan(m: Scan, p: Read, r: bool)
    requires Tracks(m, p, r)
    ensures Finishes(m, KeyOf(Result(m, p), r))
  {
    if !Nothing(m.state) {
      Assembled(m.flip, m.kp, m.nzero, p.ip + p.fp);
      WrapHeader(m, p.exp);
    }
  }

  /** Where the loop is: the variables agree with what has been read, and the number is what it was. */
  ghost predicate Scanning(m: Scan, p: Read, rest: seq<Byte>, g: bool, r: bool, whole: Number) {
    Tracks(m, p, r) && Means(m, p, rest, g) == whole
  }

  lemma {:induction false} ScanStep(m: Scan, p: Read, rest: seq<Byte>, g: bool, r: bool, whole: Number)
    requires Scanning(m, p, rest, g, r, whole) && rest != [] && Next(m, rest[0], g).Some?
    ensures Scanning(Next(m, rest[0], g).value, Advance(m, p, rest[0]), rest[1..], g, r, whole)
  {
    StepMeans(m, p, rest, g);
    StepTracks(m, p, rest[0], g, r);
  }

  lemma {:induction false} ScanEnd(m: Scan, p: Read, rest: seq<Byte>, g: bool, r: bool, whole: Number)
    requires Scanning(m, p, rest, g, r, whole) && (rest == [] || Next(m, rest[0], g).None?)
    ensures Finishes(m, KeyOf(whole, r))
  {
    StopMeans(m, p, rest, g);
    KeyFromScan(m, p, r);
  }

  lemma ScanStart(m: Scan, text: seq<Byte>, g: bool, r: bool)
    requires m == Scan(NSstart, [], 0, POINT, 0, false, r)
    ensures Scanning(m, Read(false, [], [], 0), text, g, r, Parse(text, g))
  {
  }

  /** The loop of `dokey_gn`. */
  method ScanField(text: seq<Byte>, g: bool, r: bool) returns (m: Scan)
    ensures Finishes(m, KeyOf(Parse(text, g), r))
  {
    m := Scan(NSstart, [], 0, POINT, 0, false, r);
    ghost var p := Read(false, [], [], 0);
    ghost var whole, rest := Parse(text, g), text;
    ScanStart(m, text, g, r);
    var lp := 0;
    while lp < |text|
      invariant 0 <= lp <= |text| && rest == text[lp..] && Scanning(m, p, rest, g, r, whole)
    {
      var next := Next(m, text[lp], g);
      if next.None? {
        break;
      }
      ScanStep(m, p, rest, g, r, whole);
      p, rest := Advance(m, p, text[lp]), rest[1..];
      m := next.value;
      lp := lp + 1;
    }
    ScanEnd(m, p, rest, g, r, whole);
  }

  /** `dokey_gn`: append the key of the number in a field to the key built so far. */
  method DokeyGn(key: seq<Byte>, text: seq<Byte>, g: bool, r: bool) returns (k: seq<Byte>)
    ensures k == key + KeyOf(Parse(text, g), r)
  {
    var m := ScanField(text, g, r);
    if Nothing(m.state) {
      return key + [0x20, 0];
    }
    var dp := Wrap(m.dp + SignedExp(m));
    var kp := m.kp[..|m.kp| - m.nzero] + [Complement(m.flip, 0)];
    k := key + (Header(m.flip, dp) + kp);
  }
}
