/**
 * sys/src/cmd/sort.c: how a number is written in a field.  Every field is blanks, a sign, blanks, digits with a point, an
 * exponent, and a rest that cannot continue the number, and the number read is the one written.
 */
module SortWritten {
  import opened SortKeyValue
  import opened SortKey
  import opened SortRadix

  /** The parts of a field in order, as bytes and digits. */
  datatype Form = Form(lead: seq<Byte>, sign: seq<Byte>, gap: seq<Byte>, ip: seq<Digit>, point: bool, fp: seq<Digit>,
                       mark: seq<Byte>, esign: seq<Byte>, ed: seq<Digit>, rest: seq<Byte>)

  /** Digits as characters. */
  function Ascii(ds: seq<Digit>): (r: seq<Byte>)
    ensures |r| == |ds| && forall i :: 0 <= i < |ds| ==> r[i] == 48 + (ds[i] as int)
  {
    seq(|ds|, i requires 0 <= i < |ds| => 48 + (ds[i] as int))
  }

  function Point(b: bool): seq<Byte> { if b then [46] else [] }

  function ExpText(f: Form): seq<Byte> { f.mark + (f.esign + (Ascii(f.ed) + f.rest)) }
  function FractText(f: Form): seq<Byte> { Ascii(f.fp) + ExpText(f) }
  function PointText(f: Form): seq<Byte> { Point(f.point) + FractText(f) }
  function DigitText(f: Form): seq<Byte> { Ascii(f.ip) + PointText(f) }
  function SignText(f: Form): seq<Byte> { f.sign + (f.gap + DigitText(f)) }

  /** The whole field. */
  function Text(f: Form): seq<Byte> { f.lead + SignText(f) }

  ghost predicate Blanks(s: seq<Byte>) { forall i :: 0 <= i < |s| ==> s[i] == 32 || s[i] == 9 }

  predicate Plus(s: seq<Byte>) { s == [] || s == [43] || s == [45] }

  ghost predicate NonZero(ds: seq<Digit>) { exists i :: 0 <= i < |ds| && ds[i] != 0 }

  ghost predicate Starts(s: seq<Byte>, c: Byte) { s != [] && s[0] == c }

  ghost predicate StartsNumeral(s: seq<Byte>) { s != [] && 48 <= s[0] <= 57 }

  /** Nothing in the rest could still belong to the number. */
  ghost predicate Ends(f: Form, g: bool) {
    && !StartsNumeral(f.rest)
    && (f.mark == [] && !f.point ==> !Starts(f.rest, 46))
    && (f.mark == [] && g && NonZero(f.ip + f.fp) ==> !Starts(f.rest, 101) && !Starts(f.rest, 69))
    && (f.mark == [] && !f.point && f.ip == [] ==> !Starts(f.rest, 32) && !Starts(f.rest, 9))
    && (f.mark == [] && !f.point && f.ip == [] && f.sign == [] ==> !Starts(f.rest, 43) && !Starts(f.rest, 45))
    && (f.mark != [] && f.esign == [] && f.ed == [] ==> !Starts(f.rest, 43) && !Starts(f.rest, 45))
  }

  /** A field written by the rules; there is an exponent only with -g and if the digits before it are not all zero. */
  ghost predicate ByTheRules(f: Form, g: bool) {
    && Blanks(f.lead) && Plus(f.sign) && Blanks(f.gap) && (f.sign == [] ==> f.gap == [])
    && (!f.point ==> f.fp == [])
    && (f.mark == [] || f.mark == [101] || f.mark == [69]) && (f.mark == [] ==> f.esign == [] && f.ed == [])
    && (f.mark != [] ==> g && NonZero(f.ip + f.fp)) && Plus(f.esign)
    && Ends(f, g)
  }

  /** The value of a string of digits. */
  function Decimal(ds: seq<Digit>): nat {
    if ds == [] then 0 else 10 * Decimal(ds[..|ds| - 1]) + ds[|ds| - 1]
  }

  /** The number written. */
  function NumberOf(f: Form): Number {
    Number(f.sign == [45], f.ip, f.fp, if f.esign == [45] then -(Decimal(f.ed) as int) else Decimal(f.ed))
  }

  // ----- reading what is written -----

  lemma {:induction false} SkipLead(b: seq<Byte>, t: seq<Byte>)
    requires Blanks(b) && !Starts(t, 32) && !Starts(t, 9)
    ensures SkipBlanks(b + t) == t
  {
    if b == [] {
      assert b + t == t;
    } else {
      assert (b + t)[1..] == b[1..] + t;
      SkipLead(b[1..], t);
    }
  }

  lemma {:induction false} SpanAscii(ds: seq<Digit>, t: seq<Byte>)
    requires !StartsNumeral(t)
    ensures Span(Ascii(ds) + t) == ds && (Ascii(ds) + t)[|ds|..] == t
  {
    if ds == [] {
      assert Ascii(ds) + t == t;
    } else {
      var s := Ascii(ds) + t;
      assert s[1..] == Ascii(ds[1..]) + t;
      SpanAscii(ds[1..], t);
      assert [ds[0]] + ds[1..] == ds;
    }
  }

  lemma {:induction false} NatFromAppend(e: nat, ds: seq<Digit>, d: Digit)
    ensures NatFrom(e, ds + [d]) == 10 * NatFrom(e, ds) + d
    decreases |ds|
  {
    if ds == [] {
      assert ds + [d] == [d] && [d][1..] == [];
    } else {
      assert (ds + [d])[1..] == ds[1..] + [d];
      NatFromAppend(10 * e + ds[0], ds[1..], d);
    }
  }

  lemma {:induction false} DecimalIsNat(ds: seq<Digit>)
    ensures NatFrom(0, ds) == Decimal(ds)
  {
    if ds != [] {
      var n := |ds| - 1;
      DecimalIsNat(ds[..n]);
      NatFromAppend(0, ds[..n], ds[n]);
      assert ds == ds[..n] + [ds[n]];
    }
  }

  lemma {:induction false} NonZeroIsNotZero(ds: seq<Digit>)
    ensures NonZero(ds) <==> !SortKeyValue.Zero(ds)
  {
    if ds != [] {
      NonZeroIsNotZero(ds[1..]);
      if NonZero(ds) && ds[0] == 0 {
        var i :| 0 <= i < |ds| && ds[i] != 0;
        assert ds[1..][i - 1] != 0;
      }
      if NonZero(ds[1..]) {
        var i :| 0 <= i < |ds[1..]| && ds[1..][i] != 0;
        assert ds[i + 1] != 0;
      }
    }
  }

  lemma {:induction false} ExponentWritten(f: Form, g: bool)
    requires ByTheRules(f, g) && f.mark != []
    ensures Exponent(f.esign + (Ascii(f.ed) + f.rest)) == NumberOf(f).exp
  {
    var t := Ascii(f.ed) + f.rest;
    SpanAscii(f.ed, f.rest);
    DecimalIsNat(f.ed);
    if f.esign == [] {
      assert f.esign + t == t;
    } else {
      assert (f.esign + t)[1..] == t;
    }
  }

  lemma {:induction false} MarkWritten(f: Form, neg: bool, g: bool)
    requires ByTheRules(f, g)
    ensures AtExponent(neg, f.ip, f.fp, ExpText(f), g) == NumberOf(f).(neg := neg)
  {
    NonZeroIsNotZero(f.ip + f.fp);
    if f.mark == [] {
      assert Ascii(f.ed) == [] && ExpText(f) == f.rest;
    } else {
      assert ExpText(f)[1..] == f.esign + (Ascii(f.ed) + f.rest);
      ExponentWritten(f, g);
    }
  }

  lemma {:induction false} NoNumeralAfter(f: Form, g: bool)
    requires ByTheRules(f, g)
    ensures !StartsNumeral(ExpText(f)) && (!f.point ==> PointText(f) == ExpText(f)) && !StartsNumeral(PointText(f))
    ensures !f.point ==> !Starts(ExpText(f), 46)
  {
    if f.mark == [] {
      assert Ascii(f.ed) == [] && ExpText(f) == f.rest;
    }
    if !f.point {
      assert Ascii(f.fp) == [] && PointText(f) == ExpText(f);
    }
  }

  lemma {:induction false} FractionWritten(f: Form, neg: bool, g: bool)
    requires ByTheRules(f, g) && f.point
    ensures InFraction(neg, f.ip, [], FractText(f), g) == NumberOf(f).(neg := neg)
  {
    NoNumeralAfter(f, g);
    SpanAscii(f.fp, ExpText(f));
    assert [] + f.fp == f.fp;
    MarkWritten(f, neg, g);
  }

  /** A point after the digits is taken, any other byte ends them. */
  lemma {:induction false} AfterDigits(neg: bool, ip: seq<Digit>, t: seq<Byte>, g: bool)
    requires !StartsNumeral(t)
    ensures InInteger(neg, [], Ascii(ip) + t, g) == if Starts(t, 46) then InFraction(neg, ip, [], t[1..], g) else AtExponent(neg, ip, [], t, g)
  {
    SpanAscii(ip, t);
    assert [] + ip == ip;
  }

  lemma {:induction false} DigitsWritten(f: Form, neg: bool, g: bool)
    requires ByTheRules(f, g)
    ensures InInteger(neg, [], DigitText(f), g) == NumberOf(f).(neg := neg)
  {
    NoNumeralAfter(f, g);
    AfterDigits(neg, f.ip, PointText(f), g);
    if f.point {
      assert PointText(f)[1..] == FractText(f);
      FractionWritten(f, neg, g);
    } else {
      MarkWritten(f, neg, g);
    }
  }

  /** Where the digits begin there is no blank, nor without a sign a sign. */
  lemma {:induction false} DigitsBegin(f: Form, g: bool)
    requires ByTheRules(f, g)
    ensures !Starts(DigitText(f), 32) && !Starts(DigitText(f), 9)
    ensures f.sign == [] ==> !Starts(DigitText(f), 43) && !Starts(DigitText(f), 45)
  {
    NoNumeralAfter(f, g);
    if f.ip == [] {
      assert Ascii(f.ip) == [] && DigitText(f) == PointText(f);
      if !f.point {
        NonZeroHasDigit(f.ip + f.fp);
        assert ExpText(f) == f.rest by {
          assert Ascii(f.ed) == [];
        }
      }
    }
  }

  lemma NonZeroHasDigit(ds: seq<Digit>)
    ensures ds == [] ==> !NonZero(ds)
  {
  }

  lemma {:induction false} Unsigned(lead: seq<Byte>, t: seq<Byte>, g: bool)
    requires Blanks(lead) && !Starts(t, 32) && !Starts(t, 9) && !Starts(t, 43) && !Starts(t, 45)
    ensures Parse(lead + t, g) == InInteger(false, [], t, g)
  {
    SkipLead(lead, t);
  }

  lemma {:induction false} SignedField(lead: seq<Byte>, c: Byte, gap: seq<Byte>, t: seq<Byte>, g: bool)
    requires Blanks(lead) && Blanks(gap) && (c == 43 || c == 45) && !Starts(t, 32) && !Starts(t, 9)
    ensures Parse(lead + ([c] + (gap + t)), g) == InInteger(c == 45, [], t, g)
  {
    var u := [c] + (gap + t);
    SkipLead(lead, u);
    assert u[1..] == gap + t;
    SkipLead(gap, t);
  }

  /** The number read from a field is the number written there. */
  lemma {:induction false} ReadsWritten(f: Form, g: bool)
    requires ByTheRules(f, g)
    ensures Parse(Text(f), g) == NumberOf(f)
  {
    DigitsBegin(f, g);
    DigitsWritten(f, f.sign == [45], g);
    if f.sign == [] {
      assert SignText(f) == DigitText(f);
      Unsigned(f.lead, DigitText(f), g);
    } else {
      SignedField(f.lead, f.sign[0], f.gap, DigitText(f), g);
    }
  }

  // ----- every field is written so -----

  lemma {:induction false} TakeBlanks(s: seq<Byte>) returns (b: seq<Byte>, t: seq<Byte>)
    ensures s == b + t && Blanks(b) && !Starts(t, 32) && !Starts(t, 9)
  {
    if Starts(s, 32) || Starts(s, 9) {
      b, t := TakeBlanks(s[1..]);
      assert s == [s[0]] + s[1..];
      b := [s[0]] + b;
    } else {
      b, t := [], s;
    }
  }

  lemma {:induction false} TakeDigits(s: seq<Byte>) returns (ds: seq<Digit>, t: seq<Byte>)
    ensures s == Ascii(ds) + t && !StartsNumeral(t)
  {
    if StartsNumeral(s) {
      var es: seq<Digit>;
      es, t := TakeDigits(s[1..]);
      var d: Digit := (s[0] as int) - 48;
      ds := [d] + es;
      assert Ascii(ds) == [s[0]] + Ascii(es);
      assert s == [s[0]] + s[1..];
    } else {
      ds, t := [], s;
      assert Ascii(ds) == [];
    }
  }

  /** One of two bytes at the front, or nothing. */
  lemma {:induction false} TakeOne(s: seq<Byte>, c: Byte, d: Byte) returns (b: seq<Byte>, t: seq<Byte>)
    ensures s == b + t && (b == [] || b == [c] || b == [d]) && (b == [] ==> t == s && !Starts(t, c) && !Starts(t, d))
  {
    if Starts(s, c) || Starts(s, d) {
      b, t := [s[0]], s[1..];
    } else {
      b, t := [], s;
    }
  }

  /** The part of a field from the digits on. */
  lemma {:induction false} TakeNumber(s: seq<Byte>, lead: seq<Byte>, sign: seq<Byte>, gap: seq<Byte>, g: bool) returns (f: Form)
    requires Blanks(lead) && Plus(sign) && Blanks(gap) && (sign == [] ==> gap == [])
    requires !Starts(s, 32) && !Starts(s, 9) && (sign == [] ==> !Starts(s, 43) && !Starts(s, 45))
    ensures ByTheRules(f, g) && DigitText(f) == s && f.lead == lead && f.sign == sign && f.gap == gap
  {
    var ip, t := TakeDigits(s);
    var dot, u := TakeOne(t, 46, 46);
    var fp: seq<Digit> := [];
    if dot != [] {
      fp, u := TakeDigits(u);
    }
    var form := Form(lead, sign, gap, ip, dot != [], fp, [], [], [], u);
    assert Ascii(form.ed) == [] && ExpText(form) == u;
    if dot == [] {
      assert Ascii(fp) == [];
      assert ip == [] ==> s == u;
    }
    assert PointText(form) == t;
    f := TakeExponent(form, g);
  }

  lemma {:induction false} TakeExponent(form: Form, g: bool) returns (f: Form)
    requires Blanks(form.lead) && Plus(form.sign) && Blanks(form.gap) && (form.sign == [] ==> form.gap == []) && (!form.point ==> form.fp == [])
    requires form.mark == [] && form.esign == [] && form.ed == []
    requires !StartsNumeral(form.rest) && (!form.point ==> !Starts(form.rest, 46))
    requires !form.point && form.ip == [] ==> !Starts(form.rest, 32) && !Starts(form.rest, 9)
    requires !form.point && form.ip == [] && form.sign == [] ==> !Starts(form.rest, 43) && !Starts(form.rest, 45)
    ensures ByTheRules(f, g) && ExpText(f) == form.rest
    ensures f == form.(mark := f.mark, esign := f.esign, ed := f.ed, rest := f.rest)
  {
    f := form;
    assert Ascii(f.ed) == [] && ExpText(f) == f.rest;
    if g && NonZero(form.ip + form.fp) {
      var mark, t := TakeOne(form.rest, 101, 69);
      if mark != [] {
        var esign, u := TakeOne(t, 43, 45);
        var ed, rest := TakeDigits(u);
        f := form.(mark := mark, esign := esign, ed := ed, rest := rest);
        assert esign == [] && ed == [] ==> rest == t;
      }
    }
  }

  /** Every string of bytes is a field written by the rules. */
  lemma {:induction false} EveryFieldIsWritten(s: seq<Byte>, g: bool) returns (f: Form)
    ensures ByTheRules(f, g) && Text(f) == s
  {
    var lead, t := TakeBlanks(s);
    var sign, u := TakeOne(t, 43, 45);
    var gap: seq<Byte> := [];
    if sign != [] {
      gap, u := TakeBlanks(u);
    }
    f := TakeNumber(u, lead, sign, gap, g);
    assert SignText(f) == t;
  }
}
