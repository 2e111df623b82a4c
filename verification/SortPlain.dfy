/**
 * sys/src/cmd/sort.c without flags, or with -r alone: the key of a line is the line and an end mark, so the lines come
 * out in the order of their bytes.
 */
module SortPlain {
  import opened SortRadix
  import opened SortMerge

  function Not(b: Byte): Byte { 255 - b }

  function Turned(line: seq<Byte>, r: bool): (t: seq<Byte>)
    ensures |t| == |line| && forall i :: 0 <= i < |line| ==> t[i] == if r then Not(line[i]) else line[i]
  {
    seq(|line|, i requires 0 <= i < |line| => if r then Not(line[i]) else line[i])
  }

  function Mark(r: bool): Byte { if r then 255 else 0 }

  /** The key of a line: its bytes and a 0, or with -r all of that complemented. */
  function PlainKey(line: seq<Byte>, r: bool): seq<Byte> { Turned(line, r) + [Mark(r)] }

  /** `dokey_`. */
  method Dokey(key: seq<Byte>, line: seq<Byte>) returns (k: seq<Byte>)
    ensures k == key + PlainKey(line, false)
  {
    k := key + line + [0];
    assert Turned(line, false) == line;
  }

  /** `dokey_r`, which complements four bytes at a time. */
  method DokeyR(key: seq<Byte>, line: seq<Byte>) returns (k: seq<Byte>)
    ensures k == key + PlainKey(line, true)
  {
    k := key;
    var lp := 0;
    while lp + 3 < |line|
      invariant 0 <= lp <= |line| && k == key + Turned(line, true)[..lp]
    {
      k := k + [Not(line[lp]), Not(line[lp + 1]), Not(line[lp + 2]), Not(line[lp + 3])];
      lp := lp + 4;
    }
    while lp < |line|
      invariant 0 <= lp <= |line| && k == key + Turned(line, true)[..lp]
    {
      k := k + [Not(line[lp])];
      lp := lp + 1;
    }
    assert Turned(line, true)[..lp] == Turned(line, true);
    k := k + [255];
  }

  // ----- the order of the keys -----

  /** Line `a` followed by a NUL byte begins line `b`. */
  ghost predicate Runs(a: seq<Byte>, b: seq<Byte>) { |a| < |b| && b[..|a|] == a && b[|a|] == 0 }

  /** The end mark keeps one key from being a proper prefix of another, except exactly where a line followed by a NUL byte
      begins another line. */
  lemma {:induction false} PlainPrefixExactly(a: seq<Byte>, b: seq<Byte>, r: bool)
    ensures ProperPrefix(PlainKey(a, r), PlainKey(b, r)) <==> Runs(a, b)
  {
    var x, y := PlainKey(a, r), PlainKey(b, r);
    if ProperPrefix(x, y) {
      forall i | 0 <= i < |a| ensures a[i] == b[i] {
        assert y[..|x|][i] == x[i];
      }
      assert y[..|x|][|a|] == x[|a|];
      assert b[..|a|] == a;
    }
    if Runs(a, b) {
      forall i | 0 <= i < |x| ensures y[i] == x[i] {
        assert i < |a| ==> b[..|a|][i] == a[i];
      }
      assert y[..|x|] == x;
    }
  }

  ghost predicate NulFree(line: seq<Byte>) { forall i :: 0 <= i < |line| ==> line[i] != 0 }

  /** The order of the bytes of two lines, a line before those that it begins; negative, zero or positive. */
  function LineCmp(a: seq<Byte>, b: seq<Byte>): int {
    if a == [] then (if b == [] then 0 else -1)
    else if b == [] then 1
    else if a[0] != b[0] then a[0] - b[0]
    else LineCmp(a[1..], b[1..])
  }

  function Sign(n: int): int { if n < 0 then -1 else if n > 0 then 1 else 0 }

  /** Keys compare as the lines do, the other way round with -r, unless a line followed by a NUL byte begins the other. */
  lemma {:induction false} PlainKeyOrder(a: seq<Byte>, b: seq<Byte>, r: bool)
    requires !Runs(a, b) && !Runs(b, a)
    ensures Sign(Kcmp(PlainKey(a, r), PlainKey(b, r))) == if r then -Sign(LineCmp(a, b)) else Sign(LineCmp(a, b))
    decreases |a|
  {
    var x, y := PlainKey(a, r), PlainKey(b, r);
    if a != [] && b != [] && a[0] == b[0] {
      RunsOn(a, b);
      RunsOn(b, a);
      PlainKeyOrder(a[1..], b[1..], r);
      assert x[1..] == PlainKey(a[1..], r) && y[1..] == PlainKey(b[1..], r);
    } else if a == [] && b != [] {
      assert b[..0] == a && b[0] != 0;
    } else if a != [] && b == [] {
      assert a[..0] == b && a[0] != 0;
    }
  }

  lemma {:induction false} RunsOn(a: seq<Byte>, b: seq<Byte>)
    requires a != [] && b != [] && a[0] == b[0]
    ensures Runs(a[1..], b[1..]) ==> Runs(a, b)
  {
    if Runs(a[1..], b[1..]) {
      assert b[..|a|] == [b[0]] + b[1..][..|a| - 1];
    }
  }

  lemma {:induction false} LineCmpZero(a: seq<Byte>, b: seq<Byte>)
    ensures LineCmp(a, b) == 0 <==> a == b
    decreases |a|
  {
    if a != [] && b != [] && a[0] == b[0] {
      LineCmpZero(a[1..], b[1..]);
      assert a == [a[0]] + a[1..] && b == [b[0]] + b[1..];
    }
  }

  lemma {:induction false} PrefixComparesEqual(x: seq<Byte>, y: seq<Byte>)
    requires ProperPrefix(x, y)
    ensures Kcmp(x, y) == 0 && Kcmp(y, x) == 0
    decreases |x|
  {
    if x != [] {
      assert y[..|x|][0] == x[0];
      assert y[1..][..|x| - 1] == y[..|x|][1..];
      PrefixComparesEqual(x[1..], y[1..]);
    }
  }

  /** Two lines compare equal exactly if they are the same, or one followed by a NUL byte begins the other. */
  lemma {:induction false} PlainEqualExactly(a: seq<Byte>, b: seq<Byte>, r: bool)
    ensures Kcmp(PlainKey(a, r), PlainKey(b, r)) == 0 <==> a == b || Runs(a, b) || Runs(b, a)
  {
    PlainPrefixExactly(a, b, r);
    PlainPrefixExactly(b, a, r);
    LineCmpZero(a, b);
    if Runs(a, b) {
      PrefixComparesEqual(PlainKey(a, r), PlainKey(b, r));
    } else if Runs(b, a) {
      PrefixComparesEqual(PlainKey(b, r), PlainKey(a, r));
    } else {
      PlainKeyOrder(a, b, r);
    }
  }

  // ----- the whole sort -----

  ghost predicate RunsAt(lines: seq<seq<Byte>>, i: nat, j: nat)
    requires i < |lines| && j < |lines|
  {
    Runs(lines[i], lines[j])
  }

  /** No line followed by a NUL byte begins another; so it is if there are no NUL bytes. */
  ghost predicate NoneRuns(lines: seq<seq<Byte>>) {
    forall i: nat, j: nat {:trigger RunsAt(lines, i, j)} :: i < |lines| && j < |lines| ==> !RunsAt(lines, i, j)
  }

  lemma {:induction false} NulFreeRunsNot(lines: seq<seq<Byte>>)
    requires forall i :: 0 <= i < |lines| ==> NulFree(lines[i])
    ensures NoneRuns(lines)
  {
    forall i: nat, j: nat | i < |lines| && j < |lines| ensures !RunsAt(lines, i, j) {
      assert NulFree(lines[j]);
    }
  }

  ghost predicate RecsOf(lines: seq<seq<Byte>>, r: bool, recs: seq<Rec>) {
    |recs| == |lines| && forall i: nat {:trigger recs[i]} :: i < |lines| ==> recs[i] == Rec(PlainKey(lines[i], r), i)
  }

  /** The radix sort can be used exactly if no line followed by a NUL byte begins another. */
  lemma {:induction false} RecsFreeExactly(lines: seq<seq<Byte>>, r: bool, recs: seq<Rec>)
    requires RecsOf(lines, r, recs)
    ensures PrefixFree(recs) <==> NoneRuns(lines)
  {
    if NoneRuns(lines) {
      forall i, j | 0 <= i < |recs| && 0 <= j < |recs| ensures Apart(recs, i, j) {
        assert !RunsAt(lines, i, j);
        PlainPrefixExactly(lines[i], lines[j], r);
      }
    }
    if PrefixFree(recs) {
      forall i: nat, j: nat | i < |lines| && j < |lines| ensures !RunsAt(lines, i, j) {
        assert Apart(recs, i, j);
        PlainPrefixExactly(lines[i], lines[j], r);
      }
    }
  }

  /** Record `a` is a line that comes no later than that of record `b`, and with `strict` before it. */
  ghost predicate InOrder(lines: seq<seq<Byte>>, r: bool, strict: bool, a: Rec, b: Rec) {
    && 0 <= a.id < |lines| && 0 <= b.id < |lines|
    && var n := if r then LineCmp(lines[b.id], lines[a.id]) else LineCmp(lines[a.id], lines[b.id]);
       if strict then n < 0 else n <= 0
  }

  ghost predicate LinesInOrder(lines: seq<seq<Byte>>, r: bool, u: bool, out: seq<Rec>) {
    forall i, j {:trigger InOrder(lines, r, u, out[i], out[j])} :: 0 <= i < j < |out| ==> InOrder(lines, r, u, out[i], out[j])
  }

  lemma {:induction false} OutIsLine(lines: seq<seq<Byte>>, r: bool, u: bool, recs: seq<Rec>, out: seq<Rec>, i: nat)
    requires RecsOf(lines, r, recs) && Answers(u, multiset(recs), out) && i < |out|
    ensures 0 <= out[i].id < |lines| && out[i].key == PlainKey(lines[out[i].id], r)
  {
    assert out[i] in out;
    if u {
      assert From(out[i], multiset(recs));
    } else {
      assert out[i] in multiset(out);
    }
    assert out[i] in recs;
    var k: nat :| k < |recs| && recs[k] == out[i];
  }

  lemma {:induction false} CmpTurns(a: seq<Byte>, b: seq<Byte>)
    ensures Sign(LineCmp(a, b)) == -Sign(LineCmp(b, a))
    decreases |a|
  {
    if a != [] && b != [] && a[0] == b[0] {
      CmpTurns(a[1..], b[1..]);
    }
  }

  lemma {:induction false} PairInOrder(lines: seq<seq<Byte>>, r: bool, u: bool, recs: seq<Rec>, out: seq<Rec>, i: nat, j: nat)
    requires RecsOf(lines, r, recs) && Answers(u, multiset(recs), out) && i < j < |out| && NoneRuns(lines)
    ensures InOrder(lines, r, u, out[i], out[j])
  {
    OutIsLine(lines, r, u, recs, out, i);
    OutIsLine(lines, r, u, recs, out, j);
    var a, b := lines[out[i].id], lines[out[j].id];
    assert !RunsAt(lines, out[i].id, out[j].id) && !RunsAt(lines, out[j].id, out[i].id);
    LexSortedIsSorted(out);
    PlainKeyOrder(a, b, r);
    CmpTurns(a, b);
    LineCmpZero(a, b);
    if u {
      assert Differ(out, i, j);
    }
  }

  method BuildKeys(lines: seq<seq<Byte>>, r: bool) returns (recs: seq<Rec>)
    ensures RecsOf(lines, r, recs)
  {
    recs := [];
    for i := 0 to |lines|
      invariant |recs| == i && forall k: nat {:trigger recs[k]} :: k < i ==> recs[k] == Rec(PlainKey(lines[k], r), k)
    {
      var key: seq<Byte>;
      if r {
        key := DokeyR([], lines[i]);
      } else {
        key := Dokey([], lines[i]);
      }
      assert [] + PlainKey(lines[i], r) == PlainKey(lines[i], r);
      recs := recs + [Rec(key, i)];
    }
  }

  /** `sort` and `sort -r`: the output is the lines in the order of their bytes, with -u each line once. */
  method SortLines(lines: seq<seq<Byte>>, r: bool, u: bool, mline: nat, count: array<int>) returns (out: seq<Rec>, recs: seq<Rec>)
    requires mline > 0 && Cleared(count[..]) && NoneRuns(lines)
    modifies count
    ensures RecsOf(lines, r, recs) && Answers(u, multiset(recs), out) && Cleared(count[..])
    ensures LinesInOrder(lines, r, u, out)
  {
    recs := BuildKeys(lines, r);
    RecsFreeExactly(lines, r, recs);
    out := Sort(recs, mline, u, count);
    forall i, j | 0 <= i < j < |out| ensures InOrder(lines, r, u, out[i], out[j]) {
      PairInOrder(lines, r, u, recs, out, i, j);
    }
  }
}
