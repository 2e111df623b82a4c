/**
 * sys/src/libaml/aml.c: reading and writing bit fields of a buffer through access units.
 *
 * Bytes and the 64-bit words of the source are sequences of bits, least significant first.
 */
module AmlField {
  type Byte = b: seq<bool> | |b| == 8 witness [false, false, false, false, false, false, false, false]
  type Word = w: seq<bool> | |w| == 64 witness seq(64, _ => false)

  const ZERO_BYTE: Byte := [false, false, false, false, false, false, false, false]
  const ZERO: Word := seq(64, _ => false)
  const ONES: Word := seq(64, _ => true)

  /** The bits of a buffer, in order. */
  function Bits(b: seq<Byte>): (r: seq<bool>)
    ensures |r| == 8 * |b|
  {
    if b == [] then [] else Bits(b[..|b| - 1]) + b[|b| - 1]
  }

  lemma {:induction false} BitOf(b: seq<Byte>, j: nat, i: nat)
    requires j < |b| && i < 8
    ensures Bits(b)[8 * j + i] == b[j][i]
  {
    var n := |b| - 1;
    if j < n {
      BitOf(b[..n], j, i);
    }
  }

  lemma BitAt(b: seq<Byte>, k: nat)
    requires k < 8 * |b|
    ensures Bits(b)[k] == b[k / 8][k % 8]
  {
    BitOf(b, k / 8, k % 8);
  }

  // ----- what reading and writing mean -----

  function ReadBits(mem: seq<bool>, off: nat, len: nat): (r: seq<bool>)
    requires off + len <= |mem|
    ensures |r| == len
  {
    mem[off..off + len]
  }

  ghost predicate WroteAt(m: seq<bool>, n: seq<bool>, off: nat, src: seq<bool>, k: int)
    requires 0 <= k < |m| == |n|
  {
    n[k] == if off <= k < off + |src| then src[k - off] else m[k]
  }

  /** `n` is `m` with `src` written at `off`. */
  ghost predicate Wrote(m: seq<bool>, n: seq<bool>, off: nat, src: seq<bool>) {
    && off + |src| <= |m| == |n|
    && forall k {:trigger WroteAt(m, n, off, src, k)} :: 0 <= k < |m| ==> WroteAt(m, n, off, src, k)
  }

  lemma {:induction false} WroteThen(m: seq<bool>, n: seq<bool>, p: seq<bool>, off: nat, s: seq<bool>, t: seq<bool>)
    requires Wrote(m, n, off, s) && Wrote(n, p, off + |s|, t)
    ensures Wrote(m, p, off, s + t)
  {
    forall k | 0 <= k < |m| ensures WroteAt(m, p, off, s + t, k) {
      assert WroteAt(m, n, off, s, k) && WroteAt(n, p, off + |s|, t, k);
    }
  }

  lemma WroteNothing(m: seq<bool>, off: nat)
    requires off <= |m|
    ensures Wrote(m, m, off, [])
  {
  }

  // ----- words -----

  function Or(a: Word, b: Word): Word { seq(64, i requires 0 <= i < 64 => a[i] || b[i]) }
  function AndNot(a: Word, m: Word): Word { seq(64, i requires 0 <= i < 64 => a[i] && !m[i]) }
  function Shl(w: Word, n: nat): Word { seq(64, i requires 0 <= i < 64 => i >= n && w[i - n]) }
  function Shr(w: Word, n: nat): Word { seq(64, i requires 0 <= i < 64 => i + n < 64 && w[i + n]) }

  /** One less than one shifted by `n`: the low `n` bits. */
  function Low(n: nat): Word { seq(64, i => i < n) }

  /** `getle`: up to eight bytes as a word. */
  method Getle(p: seq<Byte>, len: nat) returns (v: Word)
    requires len <= |p| && len <= 8
    ensures forall k :: 0 <= k < 64 ==> v[k] == (k < 8 * len && Bits(p)[k])
  {
    v := ZERO;
    for i := 0 to len
      invariant forall k :: 0 <= k < 64 ==> v[k] == (k < 8 * i && Bits(p)[k])
    {
      var byte: Word := p[i] + seq(56, _ => false);
      var shifted := Shl(byte, 8 * i);
      forall k | 0 <= k < 64 ensures Or(v, shifted)[k] == (k < 8 * (i + 1) && Bits(p)[k]) {
        if 8 * i <= k < 8 * (i + 1) {
          assert k / 8 == i && k % 8 == k - 8 * i;
          BitAt(p, k);
        }
      }
      v := Or(v, shifted);
    }
  }

  /** Byte `i` of a word, zero beyond its end. */
  function ByteOf(v: Word, i: nat): Byte { seq(8, k requires 0 <= k < 8 => 8 * i + k < 64 && v[8 * i + k]) }

  /** The bytes of `s` with `len` bytes of the word `v` at `off`. */
  ghost predicate Holds(s: seq<Byte>, t: seq<Byte>, off: nat, len: nat, v: Word) {
    |t| == |s| && forall j {:trigger t[j]} :: 0 <= j < |s| ==> t[j] == if off <= j < off + len then ByteOf(v, j - off) else s[j]
  }

  /** `putle`: the low bytes of a word into `len` bytes of a buffer. */
  method Putle(reg: array<Byte>, off: nat, len: nat, v0: Word)
    requires off + len <= reg.Length
    modifies reg
    ensures Holds(old(reg[..]), reg[..], off, len, v0)
  {
    var v := v0;
    for i := 0 to len
      invariant Holds(old(reg[..]), reg[..], off, i, v0)
      invariant forall k {:trigger v[k]} :: 0 <= k < 64 ==> v[k] == (k + 8 * i < 64 && v0[k + 8 * i])
    {
      assert v[..8] == ByteOf(v0, i);
      reg[off + i] := v[..8];
      v := Shr(v, 8);
    }
  }

  lemma {:induction false} HoldsBits(s: seq<Byte>, t: seq<Byte>, off: nat, len: nat, v: Word)
    requires Holds(s, t, off, len, v) && off + len <= |s| && len <= 8
    ensures Wrote(Bits(s), Bits(t), 8 * off, v[..8 * len])
  {
    var at := 8 * off;
    forall k | 0 <= k < 8 * |s| ensures WroteAt(Bits(s), Bits(t), at, v[..8 * len], k) {
      HoldsBitAt(s, t, off, len, v, k / 8, k % 8);
    }
  }

  lemma {:induction false} HoldsBitAt(s: seq<Byte>, t: seq<Byte>, off: nat, len: nat, v: Word, j: nat, i: nat)
    requires Holds(s, t, off, len, v) && off + len <= |s| && len <= 8 && j < |s| && i < 8
    ensures WroteAt(Bits(s), Bits(t), 8 * off, v[..8 * len], 8 * j + i)
  {
    BitOf(t, j, i);
    BitOf(s, j, i);
    if off <= j < off + len {
      assert t[j] == ByteOf(v, j - off);
    } else {
      assert t[j] == s[j];
    }
  }

  /** `rwreg` on a buffer: outside the buffer a read gives all ones and a write does nothing. */
  method ReadReg(reg: seq<Byte>, off: nat, len: nat) returns (v: Word)
    requires len <= 8
    ensures if off + len <= |reg| then forall k :: 0 <= k < 64 ==> v[k] == (k < 8 * len && Bits(reg)[8 * off + k]) else v == ONES
  {
    if off + len > |reg| {
      return ONES;
    }
    var p := reg[off..];
    v := Getle(p, len);
    forall k | 0 <= k < 64 ensures v[k] == (k < 8 * len && Bits(reg)[8 * off + k]) {
      if k < 8 * len {
        assert (8 * off + k) / 8 == off + k / 8 && (8 * off + k) % 8 == k % 8;
        BitAt(reg, 8 * off + k);
        BitAt(p, k);
      }
    }
  }

  method WriteReg(reg: array<Byte>, off: nat, len: nat, v: Word)
    requires len <= 8
    modifies reg
    ensures if off + len <= reg.Length then Wrote(old(Bits(reg[..])), Bits(reg[..]), 8 * off, v[..8 * len]) else reg[..] == old(reg[..])
  {
    if off + len <= reg.Length {
      ghost var s := reg[..];
      Putle(reg, off, len, v);
      HoldsBits(s, reg[..], off, len, v);
    }
  }

  // ----- one access unit -----

  /** `fieldalign`: how many bytes an access unit has. */
  datatype Acc = AnyAcc | ByteAcc | WordAcc | DWordAcc | QWordAcc | BufferAcc

  function Fieldalign(a: Acc): (n: nat)
    ensures n == 1 || n == 2 || n == 4 || n == 8
  {
    match a
    case WordAcc => 2
    case DWordAcc => 4
    case QWordAcc => 8
    case _ => 1
  }

  /** The word to store in a unit: `wl` bits of the source at `ws`, the rest as it was. */
  lemma {:induction false} Merged(src: seq<bool>, w: Word, old1: Word, wl: nat, ws: nat, wd: nat)
    requires wl <= |src| && ws + wl <= wd <= 64 && (forall k :: 0 <= k < 64 ==> w[k] == (k < wl && src[k]))
    ensures var r := Or(Shl(w, ws), AndNot(old1, Shl(Low(wl), ws)));
      forall k :: 0 <= k < wd ==> r[k] == if ws <= k < ws + wl then src[k - ws] else old1[k]
  {
    var r := Or(Shl(w, ws), AndNot(old1, Shl(Low(wl), ws)));
    forall k | 0 <= k < wd ensures r[k] == if ws <= k < ws + wl then src[k - ws] else old1[k] {
      assert Shl(w, ws)[k] == (k >= ws && w[k - ws]);
      assert Shl(Low(wl), ws)[k] == (k >= ws && Low(wl)[k - ws]);
    }
  }

  /** The bits `boff` up to `boff + wl` of the source. */
  method Collect(b: seq<Byte>, boff: nat, wl: nat) returns (w: Word)
    requires boff + wl <= 8 * |b| && wl <= 64
    ensures forall k :: 0 <= k < 64 ==> w[k] == (k < wl && Bits(b)[boff + k])
  {
    w := ZERO;
    for i := 0 to wl
      invariant forall k :: 0 <= k < 64 ==> w[k] == (k < i && Bits(b)[boff + k])
    {
      BitAt(b, boff + i);
      if b[(boff + i) / 8][(boff + i) % 8] {
        w := Or(w, Shl(Low(1), i));
      }
    }
  }

  /** Word `w` is what the unit at `uo` must hold for `src` to be at `ws` in it. */
  ghost predicate Fills(mem: seq<bool>, uo: nat, wd: nat, w: Word, ws: nat, src: seq<bool>) {
    && uo + wd <= |mem| && wd <= 64 && ws + |src| <= wd
    && forall k {:trigger w[k]} :: 0 <= k < wd ==> w[k] == if ws <= k < ws + |src| then src[k - ws] else mem[uo + k]
  }

  /** Writing such a word over the whole unit writes just the source. */
  lemma {:induction false} UnitWrite(mem: seq<bool>, n: seq<bool>, uo: nat, wd: nat, w: Word, ws: nat, src: seq<bool>)
    requires Fills(mem, uo, wd, w, ws, src) && Wrote(mem, n, uo, w[..wd])
    ensures Wrote(mem, n, uo + ws, src)
  {
    var at := uo + ws;
    forall k | 0 <= k < |mem| ensures WroteAt(mem, n, at, src, k) {
      assert WroteAt(mem, n, uo, w[..wd], k);
      if uo <= k < uo + wd {
        assert w[..wd][k - uo] == w[k - uo];
      }
    }
  }

  // ----- whole fields -----

  /** Where the access unit that holds bit `pos` ends. */
  function UnitEnd(pos: nat, wa: nat): nat
    requires wa > 0
  {
    pos / (8 * wa) * wa + wa
  }

  /** How many bits lie in access units that are wholly inside `size` bytes. */
  function Reach(size: nat, wa: nat): (r: nat)
    requires wa > 0
    ensures r <= 8 * size
  {
    8 * (size - size % wa)
  }

  /** An access unit of `wa` bytes: where it starts, where in it bit `pos` is, and how many of `left` bits it holds. */
  datatype Unit = Unit(off: nat, ws: nat, wl: nat)

  predicate IsWidth(wa: nat) { wa == 1 || wa == 2 || wa == 4 || wa == 8 }

  lemma UnitArith(pos: nat, wa: nat)
    requires IsWidth(wa)
    ensures 8 * (pos / (8 * wa) * wa) + pos % (8 * wa) == pos && pos % (8 * wa) < 8 * wa
  {
    if wa == 1 {
      assert pos / 8 * 8 + pos % 8 == pos;
    } else if wa == 2 {
      assert pos / 16 * 16 + pos % 16 == pos;
    } else if wa == 4 {
      assert pos / 32 * 32 + pos % 32 == pos;
    } else {
      assert pos / 64 * 64 + pos % 64 == pos;
    }
  }

  /** A bit is within reach exactly if its unit lies inside the buffer, and then so are all bits of the unit. */
  lemma {:induction false} WithinReach(size: nat, pos: nat, wa: nat)
    requires IsWidth(wa)
    ensures UnitEnd(pos, wa) <= size <==> pos < Reach(size, wa)
    ensures pos < Reach(size, wa) ==> 8 * UnitEnd(pos, wa) <= Reach(size, wa)
  {
    var n, q := size / wa, pos / (8 * wa);
    assert size == n * wa + size % wa;
    UnitArith(pos, wa);
    if wa == 1 {
    } else if wa == 2 {
      assert q < n <==> q * 2 + 2 <= n * 2;
    } else if wa == 4 {
      assert q < n <==> q * 4 + 4 <= n * 4;
    } else {
      assert q < n <==> q * 8 + 8 <= n * 8;
    }
  }

  /** How many of the first `len` bits at `bitoff` come before bit `reach`. */
  function Fit(reach: nat, bitoff: nat, len: nat): (n: nat)
    ensures n <= len && (n > 0 ==> bitoff + n <= reach) && (n < len ==> bitoff + n >= reach)
  {
    if bitoff >= reach then 0 else if bitoff + len <= reach then len else reach - bitoff
  }

  /** Find the unit that holds bit `boff` of the field. */
  method UnitAt(size: nat, bitoff: nat, boff: nat, blen: nat, wa: nat) returns (u: Unit)
    requires IsWidth(wa) && boff < blen
    ensures 8 * u.off + u.ws == bitoff + boff && 0 < u.wl <= blen - boff && u.ws + u.wl <= 8 * wa
    ensures u.off + wa <= size <==> bitoff + boff < Reach(size, wa)
    ensures u.off + wa <= size ==> 8 * u.off + 8 * wa <= Reach(size, wa)
  {
    var pos, wd := bitoff + boff, 8 * wa;
    UnitArith(pos, wa);
    WithinReach(size, pos, wa);
    var wo, ws := pos / wd, pos % wd;
    var wl := blen - boff;
    if wl > wd - ws {
      wl := wd - ws;
    }
    u := Unit(wo * wa, ws, wl);
  }

  /** The word to be stored in a unit. */
  method UnitWord(reg: seq<Byte>, b: seq<Byte>, boff: nat, u: Unit, wa: nat) returns (w: Word)
    requires IsWidth(wa) && boff + u.wl <= 8 * |b| && u.ws + u.wl <= 8 * wa
    ensures u.off + wa <= |reg| ==> Fills(Bits(reg), 8 * u.off, 8 * wa, w, u.ws, Bits(b)[boff..boff + u.wl])
  {
    var w0 := Collect(b, boff, u.wl);
    ghost var src := Bits(b)[boff..boff + u.wl];
    w := Shl(w0, u.ws);
    if u.wl != 8 * wa {
      var m := Shl(Low(u.wl), u.ws);
      var v := ReadReg(reg, u.off, wa);
      Merged(src, w0, v, u.wl, u.ws, 8 * wa);
      w := Or(w, AndNot(v, m));
    } else {
      assert u.ws == 0;
      WholeUnit(src, w0, 8 * wa);
    }
  }

  lemma WholeUnit(src: seq<bool>, w: Word, wd: nat)
    requires |src| == wd <= 64 && (forall k :: 0 <= k < 64 ==> w[k] == (k < wd && src[k]))
    ensures forall k {:trigger Shl(w, 0)[k]} :: 0 <= k < wd ==> Shl(w, 0)[k] == src[k]
  {
  }

  /** `n` is `m` with the bits of `src` written at `bitoff` that come before bit `reach`, and nothing else. */
  ghost predicate WroteFit(m: seq<bool>, n: seq<bool>, reach: nat, bitoff: nat, src: seq<bool>) {
    var k := Fit(reach, bitoff, |src|);
    if k == 0 then n == m else Wrote(m, n, bitoff, src[..k])
  }

  /** One turn of the loop of `rwfield`, writing: a unit inside the buffer takes its bits of the field, any other takes none. */
  method WriteUnit(reg: array<Byte>, b: seq<Byte>, bitoff: nat, boff: nat, blen: nat, wa: nat) returns (wl: nat)
    requires IsWidth(wa) && boff < blen <= 8 * |b|
    modifies reg
    ensures 0 < wl <= blen - boff
    ensures bitoff + boff >= Reach(reg.Length, wa) ==> reg[..] == old(reg[..])
    ensures bitoff + boff < Reach(reg.Length, wa) ==>
      bitoff + boff + wl <= Reach(reg.Length, wa) && Wrote(old(Bits(reg[..])), Bits(reg[..]), bitoff + boff, Bits(b)[boff..boff + wl])
  {
    var u := UnitAt(reg.Length, bitoff, boff, blen, wa);
    wl := u.wl;
    var w := UnitWord(reg[..], b, boff, u, wa);
    ghost var mem := Bits(reg[..]);
    WriteReg(reg, u.off, wa, w);
    if u.off + wa <= reg.Length {
      UnitWrite(mem, Bits(reg[..]), 8 * u.off, 8 * wa, w, u.ws, Bits(b)[boff..boff + wl]);
    }
  }

  lemma {:induction false} WroteFitMore(m: seq<bool>, n: seq<bool>, p: seq<bool>, reach: nat, bitoff: nat, src: seq<bool>, boff: nat, wl: nat)
    requires boff + wl <= |src| && wl > 0 && WroteFit(m, n, reach, bitoff, src[..boff])
    requires if bitoff + boff < reach then bitoff + boff + wl <= reach && Wrote(n, p, bitoff + boff, src[boff..boff + wl]) else p == n
    ensures WroteFit(m, p, reach, bitoff, src[..boff + wl])
  {
    var done, more := Fit(reach, bitoff, boff), Fit(reach, bitoff, boff + wl);
    if bitoff + boff < reach {
      assert done == boff && more == boff + wl;
      assert src[..boff][..boff] == src[..boff] && src[..boff + wl][..more] == src[..boff + wl];
      if boff > 0 {
        WroteThen(m, n, p, bitoff, src[..boff], src[boff..boff + wl]);
        assert src[..boff] + src[boff..boff + wl] == src[..boff + wl];
      }
    } else {
      assert more == done;
      assert src[..boff + wl][..more] == src[..boff][..done];
    }
  }

  /** `rwfield`, writing the first `blen` bits of `b`: those whose unit lies inside the buffer are written, the others are not. */
  method WriteField(reg: array<Byte>, b: seq<Byte>, bitoff: nat, blen: nat, wa: nat)
    requires IsWidth(wa) && blen <= 8 * |b|
    modifies reg
    ensures WroteFit(old(Bits(reg[..])), Bits(reg[..]), Reach(reg.Length, wa), bitoff, Bits(b)[..blen])
  {
    var boff := 0;
    ghost var mem, src := Bits(reg[..]), Bits(b)[..blen];
    while boff < blen
      invariant 0 <= boff <= blen && WroteFit(mem, Bits(reg[..]), Reach(reg.Length, wa), bitoff, src[..boff])
    {
      ghost var now := Bits(reg[..]);
      var wl := WriteUnit(reg, b, bitoff, boff, blen, wa);
      assert Bits(b)[boff..boff + wl] == src[boff..boff + wl];
      WroteFitMore(mem, now, Bits(reg[..]), Reach(reg.Length, wa), bitoff, src, boff, wl);
      boff := boff + wl;
    }
    assert src[..blen] == src;
  }

  ghost predicate ClearAt(m: seq<bool>, k: int)
    requires 0 <= k < |m|
  {
    !m[k]
  }

  /** The bits from `from` on are clear. */
  ghost predicate Clear(m: seq<bool>, from: nat) { forall k {:trigger ClearAt(m, k)} :: from <= k < |m| ==> ClearAt(m, k) }

  lemma {:induction false} ClearAfter(m: seq<bool>, n: seq<bool>, off: nat, src: seq<bool>)
    requires Clear(m, off) && Wrote(m, n, off, src)
    ensures Clear(n, off + |src|)
  {
    forall k | off + |src| <= k < |n| ensures ClearAt(n, k) {
      assert WroteAt(m, n, off, src, k) && ClearAt(m, k);
    }
  }

  lemma {:induction false} SetOneBit(s: seq<Byte>, t: seq<Byte>, p: nat, v: bool)
    requires p < 8 * |s| && t == s[p / 8 := s[p / 8][p % 8 := s[p / 8][p % 8] || v]] && ClearAt(Bits(s), p)
    ensures Wrote(Bits(s), Bits(t), p, [v])
  {
    BitAt(s, p);
    forall k | 0 <= k < 8 * |s| ensures WroteAt(Bits(s), Bits(t), p, [v], k) {
      assert k == 8 * (k / 8) + k % 8 && p == 8 * (p / 8) + p % 8;
      BitAt(s, k);
      BitAt(t, k);
    }
  }

  /** Scatter the low `wl` bits of a word into a buffer that is clear from `boff` on. */
  method Scatter(b: array<Byte>, boff: nat, w0: Word, wl: nat)
    requires boff + wl <= 8 * b.Length && wl <= 64 && Clear(Bits(b[..]), boff)
    modifies b
    ensures Wrote(old(Bits(b[..])), Bits(b[..]), boff, w0[..wl])
  {
    var w := w0;
    ghost var was := Bits(b[..]);
    assert w0[..0] == [];
    WroteNothing(was, boff);
    for i := 0 to wl
      invariant ShiftedBy(w, w0, i) && Wrote(was, Bits(b[..]), boff, w0[..i])
    {
      ghost var now := Bits(b[..]);
      ClearNext(was, now, boff, w0[..i]);
      ShiftMore(w, w0, i);
      SetBit(b, boff + i, w[0]);
      WroteOneMore(was, now, Bits(b[..]), boff, w0, i);
      w := Shr(w, 1);
    }
  }

  ghost predicate ShiftedBy(w: Word, w0: Word, i: nat) { forall k {:trigger w[k]} :: 0 <= k < 64 ==> w[k] == (k + i < 64 && w0[k + i]) }

  lemma ShiftMore(w: Word, w0: Word, i: nat)
    requires ShiftedBy(w, w0, i) && i < 64
    ensures ShiftedBy(Shr(w, 1), w0, i + 1) && w[0] == w0[i]
  {
  }

  lemma {:induction false} ClearNext(m: seq<bool>, n: seq<bool>, off: nat, src: seq<bool>)
    requires Clear(m, off) && Wrote(m, n, off, src) && off + |src| < |m|
    ensures ClearAt(n, off + |src|)
  {
    ClearAfter(m, n, off, src);
  }

  lemma {:induction false} WroteOneMore(m: seq<bool>, n: seq<bool>, p: seq<bool>, off: nat, w: Word, i: nat)
    requires i < 64 && Wrote(m, n, off, w[..i]) && Wrote(n, p, off + i, [w[i]])
    ensures Wrote(m, p, off, w[..i + 1])
  {
    WroteThen(m, n, p, off, w[..i], [w[i]]);
    assert w[..i] + [w[i]] == w[..i + 1];
  }

  method SetBit(b: array<Byte>, p: nat, v: bool)
    requires p < 8 * b.Length && ClearAt(Bits(b[..]), p)
    modifies b
    ensures Wrote(old(Bits(b[..])), Bits(b[..]), p, [v])
  {
    ghost var s := b[..];
    var j, t := p / 8, p % 8;
    b[j] := b[j][t := b[j][t] || v];
    SetOneBit(s, b[..], p, v);
  }

  /** What a read finds at `bitoff`: the bits before bit `reach`, and ones from there on. */
  ghost function Found(mem: seq<bool>, reach: nat, bitoff: nat, len: nat): (r: seq<bool>)
    requires reach <= |mem|
    ensures |r| == len
  {
    seq(len, k requires 0 <= k < len => if bitoff + k < reach then mem[bitoff + k] else true)
  }

  /** `rwfield`, reading: a buffer with the bits of the field and zeros after them. */
  method ReadField(reg: seq<Byte>, bitoff: nat, blen: nat, wa: nat) returns (r: seq<Byte>)
    requires IsWidth(wa)
    ensures |r| == (blen + 7) / 8 && Bits(r)[..blen] == Found(Bits(reg), Reach(|reg|, wa), bitoff, blen)
    ensures Clear(Bits(r), blen)
  {
    var b := new Byte[(blen + 7) / 8](_ => ZERO_BYTE);
    ghost var blank, mem := Bits(b[..]), Bits(reg);
    ZerosClear(b[..]);
    ghost var got: seq<bool> := [];
    WroteNothing(blank, 0);
    var boff := 0;
    while boff < blen
      invariant 0 <= boff == |got| <= blen && Wrote(blank, Bits(b[..]), 0, got)
      invariant got == Found(mem, Reach(|reg|, wa), bitoff, boff)
    {
      var wl, w := ReadUnit(reg, bitoff, boff, blen, wa);
      ghost var now := Bits(b[..]);
      ClearAfter(blank, now, 0, got);
      Scatter(b, boff, w, wl);
      WroteThen(blank, now, Bits(b[..]), 0, got, w[..wl]);
      got := got + w[..wl];
      boff := boff + wl;
    }
    r := b[..];
    ReadBack(blank, Bits(r), got);
    ClearAfter(blank, Bits(r), 0, got);
  }

  /** One turn of the loop of `rwfield`, reading: the bits of the field that the unit holds. */
  method ReadUnit(reg: seq<Byte>, bitoff: nat, boff: nat, blen: nat, wa: nat) returns (wl: nat, w: Word)
    requires IsWidth(wa) && boff < blen
    ensures 0 < wl <= blen - boff && wl <= 64
    ensures Found(Bits(reg), Reach(|reg|, wa), bitoff, boff) + w[..wl] == Found(Bits(reg), Reach(|reg|, wa), bitoff, boff + wl)
  {
    var u := UnitAt(|reg|, bitoff, boff, blen, wa);
    var w0 := ReadReg(reg, u.off, wa);
    w := Shr(w0, u.ws);
    wl := u.wl;
    forall k | 0 <= k < wl ensures w[k] == if bitoff + boff + k < Reach(|reg|, wa) then Bits(reg)[bitoff + boff + k] else true {
      assert w[k] == w0[k + u.ws];
      assert 8 * u.off + (k + u.ws) == bitoff + boff + k;
    }
    FoundMore(Bits(reg), Reach(|reg|, wa), bitoff, boff, w, wl);
  }

  lemma {:induction false} FoundMore(mem: seq<bool>, reach: nat, bitoff: nat, boff: nat, w: Word, wl: nat)
    requires reach <= |mem| && wl <= 64
    requires forall k :: 0 <= k < wl ==> w[k] == if bitoff + boff + k < reach then mem[bitoff + boff + k] else true
    ensures Found(mem, reach, bitoff, boff) + w[..wl] == Found(mem, reach, bitoff, boff + wl)
  {
    var a, b := Found(mem, reach, bitoff, boff) + w[..wl], Found(mem, reach, bitoff, boff + wl);
    forall k | 0 <= k < boff + wl ensures a[k] == b[k] {
      if k >= boff {
        assert a[k] == w[k - boff];
      }
    }
  }

  lemma {:induction false} ZerosClear(b: seq<Byte>)
    requires forall i :: 0 <= i < |b| ==> b[i] == ZERO_BYTE
    ensures Clear(Bits(b), 0)
  {
    forall k | 0 <= k < 8 * |b| ensures ClearAt(Bits(b), k) {
      BitAt(b, k);
    }
  }

  lemma {:induction false} ReadBack(m: seq<bool>, n: seq<bool>, src: seq<bool>)
    requires Wrote(m, n, 0, src)
    ensures n[..|src|] == src
  {
    forall k | 0 <= k < |src| ensures n[k] == src[k] {
      assert WroteAt(m, n, 0, src, k);
    }
  }

  // ----- rwfield -----

  datatype Value = Nil | Integer(w: Word) | Buffer(b: seq<Byte>)

  /** `ival`: a value as an integer; of a buffer, its first eight bytes. */
  method Ival(v: Value) returns (w: Word)
    ensures v.Integer? ==> w == v.w
    ensures v.Nil? ==> w == ZERO
    ensures v.Buffer? ==> forall k :: 0 <= k < 64 ==> w[k] == (k < 8 * |v.b| && Bits(v.b)[k])
  {
    match v {
      case Nil => w := ZERO;
      case Integer(x) => w := x;
      case Buffer(b) =>
        if |b| > 0 {
          w := Getle(b, if |b| > 8 then 8 else |b|);
        } else {
          w := ZERO;
        }
    }
  }

  /** The bits that a value puts into a field of `len` bits: of a buffer no more than it has, of an integer
      all, with zeros above the word. */
  ghost function FieldBits(v: Value, len: nat): seq<bool> {
    match v
    case Nil => seq(len, _ => false)
    case Integer(w) => seq(len, k requires 0 <= k < len => k < 64 && w[k])
    case Buffer(b) => if 8 * |b| < len then Bits(b) else Bits(b)[..len]
  }

  /** The value that a field of `len` bits reads as: up to 64 bits an integer, else a buffer. */
  ghost predicate ReadsAs(bits: seq<bool>, r: Value) {
    if |bits| > 64 then r.Buffer? && |r.b| == (|bits| + 7) / 8 && Bits(r.b)[..|bits|] == bits && Clear(Bits(r.b), |bits|)
    else r.Integer? && forall k {:trigger r.w[k]} :: 0 <= k < 64 ==> r.w[k] == (k < |bits| && bits[k])
  }

  /** The bytes of a word, as many as asked for. */
  method WordBytes(w: Word, n: nat) returns (b: seq<Byte>)
    ensures |b| == n && forall k {:trigger Bits(b)[k]} :: 0 <= k < 8 * n ==> Bits(b)[k] == (k < 64 && w[k])
  {
    var a := new Byte[n](_ => ZERO_BYTE);
    ghost var s := a[..];
    Putle(a, 0, n, w);
    b := a[..];
    forall k | 0 <= k < 8 * n ensures Bits(b)[k] == (k < 64 && w[k]) {
      BitAt(b, k);
      assert b[k / 8] == ByteOf(w, k / 8);
    }
  }

  /** How far accesses of each type go in a buffer of `size` bytes: to the end of the last whole byte, word, double word or
      quad word. */
  function Whole(size: nat, acc: Acc): (n: nat)
    ensures n <= 8 * size
  {
    match acc
    case WordAcc => 16 * (size / 2)
    case DWordAcc => 32 * (size / 4)
    case QWordAcc => 64 * (size / 8)
    case AnyAcc => 8 * size
    case ByteAcc => 8 * size
    case BufferAcc => 8 * size
  }

  lemma {:induction false} ReachIsWhole(size: nat, acc: Acc)
    ensures Reach(size, Fieldalign(acc)) == Whole(size, acc)
  {
    assert size == 2 * (size / 2) + size % 2 && size == 4 * (size / 4) + size % 4 && size == 8 * (size / 8) + size % 8;
  }

  /** `rwfield`, writing: the bits of the value go into the field, as far as accesses of its type go, and no other bit changes. */
  method RwfieldWrite(reg: array<Byte>, bitoff: nat, bitlen: nat, acc: Acc, v: Value)
    modifies reg
    ensures WroteFit(old(Bits(reg[..])), Bits(reg[..]), Whole(reg.Length, acc), bitoff, FieldBits(v, bitlen))
  {
    var blen := bitlen;
    var b: seq<Byte>;
    if v.Buffer? {
      b := v.b;
      if 8 * |b| < blen {
        blen := 8 * |b|;
      }
    } else {
      var w := Ival(v);
      b := WordBytes(w, (blen + 7) / 8);
    }
    assert Bits(b)[..blen] == FieldBits(v, bitlen);
    WriteField(reg, b, bitoff, blen, Fieldalign(acc));
    ReachIsWhole(reg.Length, acc);
  }

  /** `rwfield`, reading. */
  method RwfieldRead(reg: seq<Byte>, bitoff: nat, bitlen: nat, acc: Acc) returns (r: Value)
    ensures ReadsAs(Found(Bits(reg), Whole(|reg|, acc), bitoff, bitlen), r)
  {
    var b := ReadField(reg, bitoff, bitlen, Fieldalign(acc));
    ReachIsWhole(|reg|, acc);
    if bitlen > 64 {
      return Buffer(b);
    }
    var w := Getle(b, |b|);
    r := Integer(w);
    forall k | 0 <= k < 64 ensures w[k] == (k < bitlen && Bits(b)[k]) {
      if bitlen <= k < 8 * |b| {
        assert ClearAt(Bits(b), k);
      }
    }
  }

  /** A read after a write gives the value written, and every bit outside the field is as it was. */
  lemma {:induction false} WriteThenRead(m: seq<bool>, n: seq<bool>, off: nat, src: seq<bool>)
    requires Wrote(m, n, off, src)
    ensures ReadBits(n, off, |src|) == src
    ensures forall k {:trigger n[k]} :: 0 <= k < |n| && (k < off || off + |src| <= k) ==> n[k] == m[k]
  {
    forall k | 0 <= k < |n| ensures n[k] == if off <= k < off + |src| then src[k - off] else m[k] {
      assert WroteAt(m, n, off, src, k);
    }
  }

  /** What a field reads as after `src` was written to it: ones from bit `reach` on, before that what was written, and what was
      there already beyond the end of `src`. */
  ghost function Back(mem: seq<bool>, reach: nat, bitoff: nat, len: nat, src: seq<bool>): seq<bool>
    requires reach <= |mem|
  {
    seq(len, k requires 0 <= k < len => if bitoff + k >= reach then true else if k < |src| then src[k] else mem[bitoff + k])
  }

  lemma {:induction false} FoundBack(m: seq<bool>, n: seq<bool>, reach: nat, bitoff: nat, len: nat, src: seq<bool>)
    requires reach <= |m| == |n| && |src| <= len && WroteFit(m, n, reach, bitoff, src)
    ensures Found(n, reach, bitoff, len) == Back(m, reach, bitoff, len, src)
  {
    var a, b := Found(n, reach, bitoff, len), Back(m, reach, bitoff, len, src);
    var w := Fit(reach, bitoff, |src|);
    if w > 0 {
      WriteThenRead(m, n, bitoff, src[..w]);
    }
    forall k | 0 <= k < len ensures a[k] == b[k] {
      if bitoff + k < reach && k < |src| {
        assert k < w;
        assert ReadBits(n, bitoff, w)[k] == n[bitoff + k];
      }
    }
  }

  /** Writing a value and reading the field again: as far as accesses of its type go the field gives back what was written,
      and every bit outside it is as it was. */
  method WriteReadBack(reg: array<Byte>, bitoff: nat, bitlen: nat, acc: Acc, v: Value) returns (r: Value)
    modifies reg
    ensures ReadsAs(Back(old(Bits(reg[..])), Whole(reg.Length, acc), bitoff, bitlen, FieldBits(v, bitlen)), r)
    ensures WroteFit(old(Bits(reg[..])), Bits(reg[..]), Whole(reg.Length, acc), bitoff, FieldBits(v, bitlen))
  {
    ghost var mem := Bits(reg[..]);
    RwfieldWrite(reg, bitoff, bitlen, acc, v);
    FoundBack(mem, Bits(reg[..]), Whole(reg.Length, acc), bitoff, bitlen, FieldBits(v, bitlen));
    r := RwfieldRead(reg[..], bitoff, bitlen, acc);
  }
}
