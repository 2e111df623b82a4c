/**
 * sys/src/cmd/ramfs.c: a file kept as an index of 64K extents, some missing, some short, and why it
 * behaves as one string of bytes.
 */
module Ramfs {
  type Byte = b: int | 0 <= b < 256

  const ESIZE := 65536
  const MAXFSIZE := 0x7fffffff / 8 * ESIZE

  import opened Options

  /** An extent, if there is one, holds the first bytes of its 64K. */
  type Extent = Option<seq<Byte>>

  datatype Reply<T> = Ok(value: T) | Ebadoff

  /** The byte of the file at `k`: what no extent holds is zero. */
  function ByteAt(ent: seq<Extent>, k: nat): Byte {
    var i, o := k / ESIZE, k % ESIZE;
    if i < |ent| && ent[i].Some? && o < |ent[i].value| then ent[i].value[o] else 0
  }

  /** An extent holds no more than 64K, and nothing beyond the length of the file. */
  ghost predicate ExtentOk(ent: seq<Extent>, length: nat, i: int)
    requires 0 <= i < |ent|
  {
    ent[i].Some? ==> |ent[i].value| <= ESIZE && i * ESIZE + |ent[i].value| <= length
  }

  ghost predicate IndexOk(ent: seq<Extent>, length: nat) {
    forall i {:trigger ExtentOk(ent, length, i)} :: 0 <= i < |ent| ==> ExtentOk(ent, length, i)
  }

  lemma {:induction false} NothingBeyond(ent: seq<Extent>, length: nat, k: nat)
    requires IndexOk(ent, length) && k >= length
    ensures ByteAt(ent, k) == 0
  {
    var i := k / ESIZE;
    if i < |ent| {
      assert ExtentOk(ent, length, i);
    }
  }

  /** The file as a string. */
  ghost function Flat(ent: seq<Extent>, length: nat): (s: seq<Byte>)
    ensures |s| == length
  {
    seq(length, k requires 0 <= k < length => ByteAt(ent, k))
  }

  // ----- reading -----

  /** The bytes of the file from `off` on, `n` of them. */
  ghost predicate ReadOk(ent: seq<Extent>, off: nat, p: seq<Byte>) {
    forall j {:trigger p[j]} :: 0 <= j < |p| ==> p[j] == ByteAt(ent, off + j)
  }

  /** One turn of the loop of `fsread`: as much as one extent gives. */
  method ReadChunk(ent: seq<Extent>, off: nat, count: nat) returns (p: seq<Byte>)
    requires count > 0 && forall i :: 0 <= i < |ent| && ent[i].Some? ==> |ent[i].value| <= ESIZE
    ensures 0 < |p| <= count && ReadOk(ent, off, p)
  {
    var i, o := off / ESIZE, off % ESIZE;
    var x := if i < |ent| then ent[i] else None;
    if x.Some? && o < |x.value| {
      var n := |x.value| - o;
      if n > count { n := count; }
      p := x.value[o..o + n];
      forall j | 0 <= j < |p| ensures p[j] == ByteAt(ent, off + j) {
        SameExtent(off, j);
      }
    } else {
      var n := ESIZE - o;
      if n > count { n := count; }
      p := seq(n, _ => 0);
      forall j | 0 <= j < |p| ensures p[j] == ByteAt(ent, off + j) {
        SameExtent(off, j);
      }
    }
  }

  lemma SameExtent(off: nat, j: nat)
    requires off % ESIZE + j < ESIZE
    ensures (off + j) / ESIZE == off / ESIZE && (off + j) % ESIZE == off % ESIZE + j
  {
  }

  lemma {:induction false} ReadMore(ent: seq<Extent>, off: nat, p: seq<Byte>, q: seq<Byte>)
    requires ReadOk(ent, off, p) && ReadOk(ent, off + |p|, q)
    ensures ReadOk(ent, off, p + q)
  {
    forall j | 0 <= j < |p + q| ensures (p + q)[j] == ByteAt(ent, off + j) {
      if j >= |p| {
        assert q[j - |p|] == ByteAt(ent, off + |p| + (j - |p|));
      }
    }
  }

  lemma {:induction false} ReadIsSlice(ent: seq<Extent>, length: nat, off: nat, p: seq<Byte>)
    requires ReadOk(ent, off, p) && off + |p| <= length
    ensures p == Flat(ent, length)[off..off + |p|]
  {
  }

  // ----- writing -----

  ghost predicate WroteAt(e: seq<Extent>, f: seq<Extent>, off: nat, p: seq<Byte>, k: nat) {
    ByteAt(f, k) == if off <= k < off + |p| then p[k - off] else ByteAt(e, k)
  }

  /** Index `f` is index `e` with the bytes `p` written at `off`. */
  ghost predicate Wrote(e: seq<Extent>, f: seq<Extent>, off: nat, p: seq<Byte>) {
    forall k: nat {:trigger WroteAt(e, f, off, p, k)} :: WroteAt(e, f, off, p, k)
  }

  lemma {:induction false} WroteThen(e: seq<Extent>, f: seq<Extent>, g: seq<Extent>, off: nat, p: seq<Byte>, q: seq<Byte>)
    requires Wrote(e, f, off, p) && Wrote(f, g, off + |p|, q)
    ensures Wrote(e, g, off, p + q)
  {
    forall k: nat ensures WroteAt(e, g, off, p + q, k) {
      assert WroteAt(e, f, off, p, k) && WroteAt(f, g, off + |p|, q, k);
    }
  }

  /** `poolrealloc`: the block keeps its contents; what is new may hold anything. */
  method Realloc(x: seq<Byte>, n: nat) returns (y: seq<Byte>)
    requires |x| <= n
    ensures |y| == n && y[..|x|] == x
  {
    y := x + seq(n - |x|, _ => 0xba);
  }

  /** The contents of an extent of `old1` after `p` is stored at `o`: zeros in between, the rest as it was. */
  ghost predicate Stored(old1: seq<Byte>, new1: seq<Byte>, o: nat, p: seq<Byte>) {
    && |new1| == (if |old1| < o + |p| then o + |p| else |old1|)
    && forall k {:trigger new1[k]} :: 0 <= k < |new1| ==> new1[k] == if o <= k < o + |p| then p[k - o] else if k < |old1| then old1[k] else 0
  }

  method StoreExtent(x0: Extent, o: nat, p: seq<Byte>) returns (x: seq<Byte>)
    ensures Stored(if x0.Some? then x0.value else [], x, o, p)
  {
    var n := |p|;
    x := if x0.Some? then x0.value else [];
    if x0.None? || |x| < o + n {
      var size := |x|;
      x := Realloc(x, o + n);
      if o > size {
        x := x[..size] + seq(o - size, _ => 0) + x[o..];
      }
    }
    x := x[..o] + p + x[o + n..];
  }

  lemma {:induction false} StoreWrites(ent: seq<Extent>, i: nat, x: seq<Byte>, o: nat, p: seq<Byte>)
    requires i < |ent| && o + |p| <= ESIZE && Stored(if ent[i].Some? then ent[i].value else [], x, o, p)
    ensures Wrote(ent, ent[i := Some(x)], i * ESIZE + o, p)
  {
    var f, off := ent[i := Some(x)], i * ESIZE + o;
    forall k: nat ensures WroteAt(ent, f, off, p, k) {
      var j, r := k / ESIZE, k % ESIZE;
      assert k == j * ESIZE + r;
      if j == i && r < |x| {
        assert x[r] == if o <= r < o + |p| then p[r - o] else ByteAt(ent, k);
      }
    }
  }

  lemma {:induction false} StoreKeepsIndex(ent: seq<Extent>, length: nat, i: nat, x: seq<Byte>, o: nat, p: seq<Byte>, newlen: nat)
    requires i < |ent| && o + |p| <= ESIZE && Stored(if ent[i].Some? then ent[i].value else [], x, o, p)
    requires IndexOk(ent, length) && length <= newlen && i * ESIZE + o + |p| <= newlen
    ensures IndexOk(ent[i := Some(x)], newlen)
  {
    var f := ent[i := Some(x)];
    forall j | 0 <= j < |f| ensures ExtentOk(f, newlen, j) {
      assert ExtentOk(ent, length, j);
    }
  }

  lemma {:induction false} LongerIndex(ent: seq<Extent>, length: nat, n: nat)
    requires IndexOk(ent, length)
    ensures IndexOk(ent + seq(n, _ => None), length) && Wrote(ent, ent + seq(n, _ => None), 0, [])
  {
    var f := ent + seq(n, _ => None);
    forall i | 0 <= i < |f| ensures ExtentOk(f, length, i) {
      assert i < |ent| ==> ExtentOk(ent, length, i);
    }
    forall k: nat ensures WroteAt(ent, f, 0, [], k) {
    }
  }

  /** What a write makes of a string: zeros up to where it starts, and the rest kept. */
  ghost function Spliced(s: seq<Byte>, off: nat, p: seq<Byte>): (r: seq<Byte>) {
    var top := off + |p|;
    (if off <= |s| then s[..off] else s + seq(off - |s|, _ => 0)) + p + if top < |s| then s[top..] else []
  }

  /** What setting the length makes of a string. */
  ghost function Resized(s: seq<Byte>, l: nat): (r: seq<Byte>) { if l <= |s| then s[..l] else s + seq(l - |s|, _ => 0) }

  lemma {:induction false} WroteIsSpliced(e: seq<Extent>, f: seq<Extent>, length: nat, off: nat, p: seq<Byte>)
    requires IndexOk(e, length) && Wrote(e, f, off, p) && p != []
    ensures var newlen := if off + |p| > length then off + |p| else length; Flat(f, newlen) == Spliced(Flat(e, length), off, p)
  {
    var newlen := if off + |p| > length then off + |p| else length;
    var x, y := Flat(f, newlen), Spliced(Flat(e, length), off, p);
    forall k | 0 <= k < newlen ensures x[k] == y[k] {
      assert WroteAt(e, f, off, p, k);
      if k >= length {
        NothingBeyond(e, length, k);
      }
    }
  }

  // ----- shrinking -----

  /** Index `f` is what is left of index `e` below `l`. */
  ghost predicate CutAt(e: seq<Extent>, f: seq<Extent>, l: nat, k: nat) { ByteAt(f, k) == if k < l then ByteAt(e, k) else 0 }

  ghost predicate Cut(e: seq<Extent>, f: seq<Extent>, l: nat) {
    && IndexOk(f, l) && forall k: nat {:trigger CutAt(e, f, l, k)} :: CutAt(e, f, l, k)
  }

  /** Extent `i` after truncation to `l` bytes. */
  ghost function Trimmed(x: Extent, i: nat, l: nat): Extent {
    if x.None? || i < l / ESIZE then x
    else if i == l / ESIZE && l % ESIZE != 0 then Some(if l % ESIZE < |x.value| then x.value[..l % ESIZE] else x.value)
    else None
  }

  lemma {:induction false} TrimCuts(e: seq<Extent>, f: seq<Extent>, length: nat, l: nat)
    requires IndexOk(e, length) && |f| == |e| && forall i {:trigger f[i]} :: 0 <= i < |f| ==> f[i] == Trimmed(e[i], i, l)
    ensures Cut(e, f, l)
  {
    forall i | 0 <= i < |f| ensures ExtentOk(f, l, i) {
      assert ExtentOk(e, length, i);
      assert l == l / ESIZE * ESIZE + l % ESIZE;
    }
    forall k: nat ensures CutAt(e, f, l, k) {
      var i, o := k / ESIZE, k % ESIZE;
      assert k == i * ESIZE + o && l == l / ESIZE * ESIZE + l % ESIZE;
      if i < |e| {
        assert f[i] == Trimmed(e[i], i, l) && ExtentOk(e, length, i);
      }
    }
  }

  lemma {:induction false} CutIsResized(e: seq<Extent>, f: seq<Extent>, length: nat, l: nat)
    requires IndexOk(e, length) && Cut(e, f, l)
    ensures Flat(f, l) == Resized(Flat(e, length), l)
  {
    var x, y := Flat(f, l), Resized(Flat(e, length), l);
    forall k | 0 <= k < l ensures x[k] == y[k] {
      assert CutAt(e, f, l, k);
      if k >= length {
        NothingBeyond(e, length, k);
      }
    }
  }

  class File {
    var length: nat
    var aux: Option<seq<Extent>>
    const append: bool

    ghost function Index(): seq<Extent>
      reads this
    {
      if aux.Some? then aux.value else []
    }

    ghost predicate Valid()
      reads this
    {
      IndexOk(Index(), length)
    }

    ghost function Contents(): (s: seq<Byte>)
      reads this
    {
      Flat(Index(), length)
    }

    constructor (append: bool)
      ensures Valid() && aux == None && length == 0 && Contents() == [] && this.append == append
    {
      length, aux := 0, None;
      this.append := append;
    }

    /** `fsread`: the bytes of the string that are there; without an index, none. */
    method Fsread(off0: nat, count0: nat) returns (r: Reply<seq<Byte>>)
      requires Valid()
      ensures off0 < length && aux.Some? && count0 > 0 && off0 + count0 > MAXFSIZE ==> r == Ebadoff
      ensures !(off0 < length && aux.Some? && count0 > 0 && off0 + count0 > MAXFSIZE) ==>
                r == Ok(if off0 >= length || aux.None? then [] else Contents()[off0..if off0 + count0 > length then length else off0 + count0])
    {
      if count0 == 0 || off0 >= length || aux.None? {
        assert off0 < length ==> Contents()[off0..off0] == [];
        return Ok([]);
      }
      var off, count := off0, count0;
      var top := off + count;
      if top > MAXFSIZE {
        return Ebadoff;
      }
      if top > length {
        top := length;
        count := top - off;
      }
      var ent := aux.value;
      var p: seq<Byte> := [];
      while count > 0
        invariant |p| + count == top - off0 && off == off0 + |p| && ReadOk(ent, off0, p) && 0 <= count
        decreases count
      {
        forall i | 0 <= i < |ent| && ent[i].Some? ensures |ent[i].value| <= ESIZE {
          assert ExtentOk(ent, length, i);
        }
        var q := ReadChunk(ent, off, count);
        ReadMore(ent, off0, p, q);
        p := p + q;
        off := off + |q|;
        count := count - |q|;
      }
      ReadIsSlice(ent, length, off0, p);
      r := Ok(p);
    }

    /** `fswrite`: the string gets the bytes at the offset, at its end for an append-only file; a gap is zero. */
    method Fswrite(off0: nat, data: seq<Byte>) returns (r: Reply<nat>)
      requires Valid()
      modifies this
      ensures Valid()
      ensures var off := if append then old(length) else off0;
        if data != [] && off + |data| > MAXFSIZE then r == Ebadoff && Contents() == old(Contents()) && aux == old(aux)
        else if data == [] then r == Ok(0) && Contents() == old(Contents()) && aux == old(aux)
        else r == Ok(|data|) && aux.Some? && Contents() == Spliced(old(Contents()), off, data)
    {
      var off := if append then length else off0;
      if data == [] {
        return Ok(0);
      }
      var top := off + |data|;
      if top > MAXFSIZE {
        return Ebadoff;
      }
      ghost var was, len := Index(), length;
      var n := (top + ESIZE - 1) / ESIZE;
      GrowIndex(n);
      ghost var grown := aux.value;
      StoreAll(off, data, top);
      WroteThen2(was, grown, aux.value, off, data);
      WroteIsSpliced(was, aux.value, len, off, data);
      if top > length {
        length := top;
      }
      r := Ok(|data|);
    }

    /** Make the index at least `n` entries long. */
    method GrowIndex(n: nat)
      requires Valid()
      modifies this`aux
      ensures aux.Some? && |aux.value| >= n && Valid() && Wrote(old(Index()), aux.value, 0, [])
    {
      var ent := if aux.Some? then aux.value else [];
      LongerIndex(ent, length, if |ent| < n then n - |ent| else 0);
      assert ent + seq(0, _ => None) == ent;
      if aux.None? || |ent| < n {
        aux := Some(ent + seq(if |ent| < n then n - |ent| else 0, _ => None));
      }
    }

    /** The loop of `fswrite`: one extent after another. */
    method StoreAll(off0: nat, data: seq<Byte>, ghost top: nat)
      requires Valid() && aux.Some? && top == off0 + |data| && top <= ESIZE * |aux.value|
      modifies this`aux
      ensures aux.Some? && Wrote(old(aux.value), aux.value, off0, data) && IndexOk(aux.value, if top > length then top else length)
    {
      var done := 0;
      ghost var e, newlen := aux.value, if top > length then top else length;
      KeepIndex(e, length, newlen);
      assert Wrote(e, e, off0, data[..0]) by {
        forall k: nat ensures WroteAt(e, e, off0, data[..0], k) {
        }
      }
      while done < |data|
        invariant 0 <= done <= |data| && aux.Some? && |aux.value| == |e| && IndexOk(aux.value, newlen)
        invariant Wrote(e, aux.value, off0, data[..done])
      {
        var off, count := off0 + done, |data| - done;
        var i, o := off / ESIZE, off % ESIZE;
        var n := ESIZE - o;
        if n > count { n := count; }
        var ent := aux.value;
        ghost var p := data[done..done + n];
        assert off == i * ESIZE + o;
        var x := StoreExtent(ent[i], o, data[done..done + n]);
        StoreWrites(ent, i, x, o, p);
        StoreKeepsIndex(ent, newlen, i, x, o, p, newlen);
        aux := Some(ent[i := Some(x)]);
        WroteThen(e, ent, aux.value, off0, data[..done], p);
        assert data[..done] + p == data[..done + n];
        done := done + n;
      }
      assert data[..done] == data;
    }

    /** `truncfile`: the string is cut, or grows by zeros; a file without an index stays without one, and cutting to
        nothing takes the index away. */
    method Truncfile(l: nat)
      requires Valid()
      modifies this
      ensures Valid() && Contents() == Resized(old(Contents()), l) && length == l
      ensures aux.Some? <==> old(aux).Some? && l != 0
    {
      if aux.Some? {
        ghost var e, len := aux.value, length;
        TrimIndex(l);
        TrimCuts(e, aux.value, len, l);
        CutIsResized(e, aux.value, len, l);
        if l == 0 {
          aux := None;
          assert Flat([], 0) == [];
        }
      } else {
        assert Cut([], [], l) by {
          forall k: nat ensures CutAt([], [], l, k) {
          }
        }
        CutIsResized([], [], length, l);
      }
      length := l;
    }

    /** Shorten the extent that `l` falls into and free the ones after it. */
    method TrimIndex(l: nat)
      requires aux.Some?
      modifies this`aux
      ensures aux.Some? && |aux.value| == |old(aux).value| && forall i {:trigger aux.value[i]} :: 0 <= i < |aux.value| ==> aux.value[i] == Trimmed(old(aux).value[i], i, l)
    {
      var ent := aux.value;
      ghost var e := ent;
      var n := |ent|;
      var i := l / ESIZE;
      if i < n {
        var o := l % ESIZE;
        if o != 0 && ent[i].Some? {
          if o < |ent[i].value| {
            ent := ent[i := Some(ent[i].value[..o])];
          }
          i := i + 1;
        }
        while i < n
          invariant l / ESIZE <= i <= n == |ent| == |e|
          invariant forall j {:trigger ent[j]} :: 0 <= j < i ==> ent[j] == Trimmed(e[j], j, l)
          invariant forall j {:trigger ent[j]} :: i <= j < n ==> ent[j] == e[j]
          invariant i == l / ESIZE ==> l % ESIZE == 0 || e[i].None?
        {
          if ent[i].Some? {
            ent := ent[i := None];
          }
          i := i + 1;
        }
      }
      aux := Some(ent);
    }
  }

  lemma {:induction false} WroteThen2(e: seq<Extent>, f: seq<Extent>, g: seq<Extent>, off: nat, p: seq<Byte>)
    requires Wrote(e, f, 0, []) && Wrote(f, g, off, p)
    ensures Wrote(e, g, off, p)
  {
    forall k: nat ensures WroteAt(e, g, off, p, k) {
      assert WroteAt(e, f, 0, [], k) && WroteAt(f, g, off, p, k);
    }
  }

  lemma {:induction false} KeepIndex(ent: seq<Extent>, length: nat, newlen: nat)
    requires IndexOk(ent, length) && length <= newlen
    ensures IndexOk(ent, newlen)
  {
    forall i | 0 <= i < |ent| ensures ExtentOk(ent, newlen, i) {
      assert ExtentOk(ent, length, i);
    }
  }

  /** Growing an empty file by setting its length gives it zeros that a read does not return. */
  method GrownEmptyReadsEmpty() returns (r: Reply<seq<Byte>>, ghost c: seq<Byte>)
    ensures c == [0] && r == Ok([])
  {
    var f := new File(false);
    f.Truncfile(1);
    c := f.Contents();
    r := f.Fsread(0, 1);
  }

  /** So does cutting a file to nothing and growing it again. */
  method CutAndGrownReadsEmpty(b: Byte) returns (r: Reply<seq<Byte>>, ghost c: seq<Byte>)
    ensures c == [0] && r == Ok([])
  {
    var f := new File(false);
    var _ := f.Fswrite(0, [b]);
    f.Truncfile(0);
    f.Truncfile(1);
    c := f.Contents();
    r := f.Fsread(0, 1);
  }
}
