/**
 * sys/src/cmd/sort.c, the external sort: lines are sorted a memory-full at a time into temporary
 * files, and the files are merged, at most ten at a time, until one merge goes to the output.
 */
module SortMerge {
  import opened SortRadix

  /** The most files merged at once. */
  const NMERGE := 10

  // ----- keys -----

  /** No key of the input begins another. */
  ghost predicate Free(ks: set<seq<Byte>>) {
    forall x, y {:trigger ProperPrefix(x, y)} :: x in ks && y in ks ==> !ProperPrefix(x, y)
  }

  ghost predicate Among(s: seq<Rec>, ks: set<seq<Byte>>) { forall i :: 0 <= i < |s| ==> s[i].key in ks }

  lemma {:induction false} AmongIsFree(s: seq<Rec>, ks: set<seq<Byte>>)
    requires Among(s, ks) && Free(ks)
    ensures PrefixFree(s)
  {
    forall i, j | 0 <= i < |s| && 0 <= j < |s| ensures Apart(s, i, j) {
    }
  }

  /** On such keys `kcmp` tells equal keys apart from all others, and orders them. */
  lemma {:induction false} KcmpZero(x: seq<Byte>, y: seq<Byte>)
    requires !ProperPrefix(x, y) && !ProperPrefix(y, x)
    ensures Kcmp(x, y) == 0 <==> x == y
  {
    PrefixCons(x, y);
    PrefixCons(y, x);
    if x != [] && y != [] && x[0] == y[0] {
      KcmpZero(x[1..], y[1..]);
      assert x == [x[0]] + x[1..] && y == [y[0]] + y[1..];
    }
  }

  // ----- what a merge must produce -----

  ghost function All(runs: seq<seq<Rec>>): multiset<Rec> {
    if runs == [] then multiset{} else All(runs[..|runs| - 1]) + multiset(runs[|runs| - 1])
  }

  /** Some line of `out` has the key of `x`. */
  ghost predicate Stands(x: Rec, out: seq<Rec>) { exists i :: 0 <= i < |out| && out[i].key == x.key }

  ghost predicate From(x: Rec, src: multiset<Rec>) { x in src }

  ghost predicate Differ(out: seq<Rec>, i: int, j: int)
    requires 0 <= i < j < |out|
  {
    out[i].key != out[j].key
  }

  ghost predicate Strict(out: seq<Rec>) {
    forall i, j {:trigger Differ(out, i, j)} :: 0 <= i < j < |out| ==> Differ(out, i, j)
  }

  /** `out` is what is asked of the lines `src`: sorted, and all of them, or with -u one for each key. */
  ghost predicate Answers(u: bool, src: multiset<Rec>, out: seq<Rec>) {
    && LexSorted(out)
    && if u then
         && Strict(out) && (forall x {:trigger From(x, src)} :: x in out ==> From(x, src))
         && forall x {:trigger Stands(x, out)} :: x in src ==> Stands(x, out)
       else multiset(out) == src
  }

  lemma Exchange2(a: multiset<Rec>, b: multiset<Rec>, c: multiset<Rec>, d: multiset<Rec>)
    requires c <= a
    ensures c <= a + b && (a - c + d) + b == a + b - c + d
  {
  }

  lemma {:induction false} AllUpdate(runs: seq<seq<Rec>>, i: nat, r: seq<Rec>)
    requires i < |runs|
    ensures multiset(runs[i]) <= All(runs) && All(runs[i := r]) == All(runs) - multiset(runs[i]) + multiset(r)
  {
    var n := |runs| - 1;
    var t := runs[i := r];
    if i < n {
      AllUpdate(runs[..n], i, r);
      assert t[..n] == runs[..n][i := r];
      Exchange2(All(runs[..n]), multiset(runs[n]), multiset(runs[i]), multiset(r));
    } else {
      assert t[..n] == runs[..n];
    }
  }

  lemma {:induction false} AllAppend(r: seq<seq<Rec>>, s: seq<seq<Rec>>)
    ensures All(r + s) == All(r) + All(s)
  {
    if s == [] {
      assert r + s == r;
    } else {
      var n := |s| - 1;
      AllAppend(r, s[..n]);
      assert (r + s)[..|r + s| - 1] == r + s[..n];
    }
  }

  lemma {:induction false} AllEmpty(runs: seq<seq<Rec>>)
    requires forall i :: 0 <= i < |runs| ==> runs[i] == []
    ensures All(runs) == multiset{}
  {
    if runs != [] {
      AllEmpty(runs[..|runs| - 1]);
    }
  }

  // ----- a merge under way -----

  ghost predicate RunOk(run: seq<Rec>, ks: set<seq<Byte>>) { LexSorted(run) && Among(run, ks) }

  ghost predicate RunsOk(runs: seq<seq<Rec>>, ks: set<seq<Byte>>) {
    forall i {:trigger RunOk(runs[i], ks)} :: 0 <= i < |runs| ==> RunOk(runs[i], ks)
  }

  /** Nothing that is left comes before what has been written. */
  ghost predicate Later(out: seq<Rec>, run: seq<Rec>) {
    out != [] && run != [] ==> LexLe(out[|out| - 1].key, run[0].key)
  }

  ghost predicate Content(u: bool, src: multiset<Rec>, left: multiset<Rec>, out: seq<Rec>) {
    if u then
      && Strict(out) && (forall x {:trigger From(x, src)} :: x in out || x in left ==> From(x, src))
      && forall x {:trigger Stands(x, out)} :: x in src ==> x in left || Stands(x, out)
    else multiset(out) + left == src
  }

  ghost predicate Merging(u: bool, src: multiset<Rec>, rest: seq<seq<Rec>>, out: seq<Rec>, ks: set<seq<Byte>>) {
    && RunsOk(rest, ks) && LexSorted(out) && Among(out, ks) && Content(u, src, All(rest), out)
    && forall i {:trigger Later(out, rest[i])} :: 0 <= i < |rest| ==> Later(out, rest[i])
  }

  /** The head of run `m` is a least head. */
  ghost predicate Least(rest: seq<seq<Rec>>, m: nat) {
    && m < |rest| && rest[m] != []
    && forall i {:trigger rest[i]} :: 0 <= i < |rest| && rest[i] != [] ==> LexLe(rest[m][0].key, rest[i][0].key)
  }

  /** Whether the line is dropped: with -u, when the last line written has the same key. */
  predicate Drops(u: bool, out: seq<Rec>, l: Rec) { u && out != [] && out[|out| - 1].key == l.key }

  function Written(u: bool, out: seq<Rec>, l: Rec): seq<Rec> { if Drops(u, out, l) then out else out + [l] }

  lemma {:induction false} WrittenSorted(u: bool, out: seq<Rec>, l: Rec)
    requires LexSorted(out) && (out != [] ==> LexLe(out[|out| - 1].key, l.key))
    ensures LexSorted(Written(u, out, l))
  {
    var t := Written(u, out, l);
    forall i, j | 0 <= i < j < |t| ensures LexAt(t, i, j) {
      if j < |out| {
        assert LexAt(out, i, j);
      } else {
        if i < |out| - 1 {
          assert LexAt(out, i, |out| - 1);
          LexTrans(out[i].key, out[|out| - 1].key, l.key);
        }
      }
    }
  }

  /** What is written is written once, and with -u nothing is written twice. */
  lemma {:induction false} WrittenContent(u: bool, src: multiset<Rec>, left: multiset<Rec>, out: seq<Rec>, l: Rec)
    requires Content(u, src, left, out) && l in left && LexSorted(out) && (out != [] ==> LexLe(out[|out| - 1].key, l.key))
    ensures Content(u, src, left - multiset{l}, Written(u, out, l))
  {
    var t := Written(u, out, l);
    if u {
      forall i, j | 0 <= i < j < |t| ensures Differ(t, i, j) {
        if j < |out| {
          assert Differ(out, i, j);
        } else {
          NotBefore(out, l, i);
        }
      }
      forall x | x in t || x in left - multiset{l} ensures From(x, src) {
        assert x in out || x in left;
        assert From(x, src);
      }
      forall x | x in src ensures x in left - multiset{l} || Stands(x, t) {
        StandsMore(u, out, l, x);
      }
    }
  }

  lemma {:induction false} StandsMore(u: bool, out: seq<Rec>, l: Rec, x: Rec)
    ensures Stands(x, out) ==> Stands(x, Written(u, out, l))
    ensures Stands(l, Written(u, out, l))
  {
    var t := Written(u, out, l);
    assert t[|t| - 1].key == l.key;
    if Stands(x, out) {
      var i :| 0 <= i < |out| && out[i].key == x.key;
      assert t[i].key == x.key;
    }
  }

  /** A line with a new last key has a key unlike any written. */
  lemma {:induction false} NotBefore(out: seq<Rec>, l: Rec, i: nat)
    requires i < |out| && LexSorted(out) && LexLe(out[|out| - 1].key, l.key) && out[|out| - 1].key != l.key
    ensures out[i].key != l.key
  {
    if i < |out| - 1 {
      assert LexAt(out, i, |out| - 1);
      if out[i].key == l.key {
        LexAnti(out[|out| - 1].key, l.key);
      }
    }
  }

  lemma {:induction false} LexAnti(x: seq<Byte>, y: seq<Byte>)
    requires LexLe(x, y) && LexLe(y, x)
    ensures x == y
  {
    if x != [] {
      LexAnti(x[1..], y[1..]);
      assert x == [x[0]] + x[1..] && y == [y[0]] + y[1..];
    }
  }

  lemma {:induction false} TakeHead(rest: seq<seq<Rec>>, m: nat)
    requires m < |rest| && rest[m] != []
    ensures rest[m][0] in All(rest) && All(rest[m := rest[m][1..]]) == All(rest) - multiset{rest[m][0]}
  {
    AllUpdate(rest, m, rest[m][1..]);
    assert rest[m] == [rest[m][0]] + rest[m][1..];
    assert multiset(rest[m]) == multiset{rest[m][0]} + multiset(rest[m][1..]);
    assert rest[m][0] in multiset(rest[m]);
  }

  /** What is left comes no earlier than the head that was written. */
  lemma {:induction false} StillLater(rest: seq<seq<Rec>>, ks: set<seq<Byte>>, m: nat, t: seq<Rec>, i: nat)
    requires RunsOk(rest, ks) && Least(rest, m) && t != [] && t[|t| - 1].key == rest[m][0].key && i < |rest|
    ensures Later(t, rest[m := rest[m][1..]][i])
  {
    if i == m && |rest[m]| > 1 {
      assert RunOk(rest[m], ks);
      assert LexAt(rest[m], 0, 1);
    }
  }

  /** Writing the least head and moving on in its run. */
  lemma {:induction false} WriteLeast(u: bool, src: multiset<Rec>, rest: seq<seq<Rec>>, out: seq<Rec>, ks: set<seq<Byte>>, m: nat)
    requires Merging(u, src, rest, out, ks) && Least(rest, m)
    ensures Merging(u, src, rest[m := rest[m][1..]], Written(u, out, rest[m][0]), ks)
  {
    var l, t, r := rest[m][0], Written(u, out, rest[m][0]), rest[m := rest[m][1..]];
    assert Later(out, rest[m]) && RunOk(rest[m], ks);
    WrittenSorted(u, out, l);
    TakeHead(rest, m);
    WrittenContent(u, src, All(rest), out, l);
    TailOk(rest[m], ks);
    forall i | 0 <= i < |r| ensures RunOk(r[i], ks) {
      assert RunOk(rest[i], ks);
    }
    forall i | 0 <= i < |r| ensures Later(t, r[i]) {
      StillLater(rest, ks, m, t, i);
    }
  }

  lemma {:induction false} TailOk(run: seq<Rec>, ks: set<seq<Byte>>)
    requires RunOk(run, ks) && run != []
    ensures RunOk(run[1..], ks)
  {
    var t := run[1..];
    forall i, j | 0 <= i < j < |t| ensures LexAt(t, i, j) {
      assert LexAt(run, i + 1, j + 1);
    }
  }

  lemma {:induction false} MergeDone(u: bool, src: multiset<Rec>, rest: seq<seq<Rec>>, out: seq<Rec>, ks: set<seq<Byte>>)
    requires Merging(u, src, rest, out, ks) && forall i :: 0 <= i < |rest| ==> rest[i] == []
    ensures Answers(u, src, out)
  {
    AllEmpty(rest);
  }

  // ----- the heads -----

  /** The head of run `i`, as the array holds it: its key and where it came from. */
  function HeadOf(run: seq<Rec>, i: nat): Rec
    requires run != []
  {
    Rec(run[0].key, i)
  }

  /** `h` is the head of one of the first `n` runs. */
  ghost predicate IsHead(rest: seq<seq<Rec>>, n: nat, h: Rec)
    requires n <= |rest|
  {
    0 <= h.id < n && rest[h.id] != [] && h == HeadOf(rest[h.id], h.id)
  }

  /** The heads of the first `n` runs. */
  ghost function HeadsTo(rest: seq<seq<Rec>>, n: nat): (s: set<Rec>)
    requires n <= |rest|
    ensures forall h {:trigger h in s} {:trigger IsHead(rest, n, h)} :: h in s <==> IsHead(rest, n, h)
  {
    set i | 0 <= i < n && rest[i] != [] :: HeadOf(rest[i], i)
  }

  ghost function Heads(rest: seq<seq<Rec>>): multiset<Rec> { multiset(HeadsTo(rest, |rest|)) }

  lemma {:induction false} HeadsAre(rest: seq<seq<Rec>>, h: Rec)
    requires h in Heads(rest)
    ensures 0 <= h.id < |rest| && rest[h.id] != [] && h == HeadOf(rest[h.id], h.id)
  {
    assert IsHead(rest, |rest|, h);
  }

  lemma HeadIn(rest: seq<seq<Rec>>, i: nat)
    requires i < |rest| && rest[i] != []
    ensures HeadOf(rest[i], i) in Heads(rest)
  {
    assert IsHead(rest, |rest|, HeadOf(rest[i], i));
  }

  lemma {:induction false} HeadMoves(rest: seq<seq<Rec>>, m: nat, r: seq<Rec>)
    requires m < |rest| && rest[m] != [] && r != []
    ensures Heads(rest[m := r]) == Heads(rest) - multiset{HeadOf(rest[m], m)} + multiset{HeadOf(r, m)}
  {
    var t, n, old1, new1 := rest[m := r], |rest|, HeadOf(rest[m], m), HeadOf(r, m);
    var s, u := HeadsTo(rest, n), HeadsTo(t, n);
    assert IsHead(rest, n, old1) && IsHead(t, n, new1);
    forall h ensures h in u <==> h == new1 || (h in s && h != old1) {
      assert h in u <==> IsHead(t, n, h);
      assert h in s <==> IsHead(rest, n, h);
    }
    assert u == (s - {old1}) + {new1} && new1 !in s - {old1};
    SetExchange(s, old1, new1);
  }

  lemma SetExchange(s: set<Rec>, x: Rec, y: Rec)
    requires x in s && y !in s - {x}
    ensures multiset((s - {x}) + {y}) == multiset(s) - multiset{x} + multiset{y}
  {
  }

  lemma {:induction false} HeadGone(rest: seq<seq<Rec>>, m: nat)
    requires m < |rest| && rest[m] != []
    ensures Heads(rest[m := []]) == Heads(rest) - multiset{HeadOf(rest[m], m)}
  {
    var t, n, old1 := rest[m := []], |rest|, HeadOf(rest[m], m);
    var s, u := HeadsTo(rest, n), HeadsTo(t, n);
    assert IsHead(rest, n, old1);
    forall h ensures h in u <==> h in s && h != old1 {
      assert h in u <==> IsHead(t, n, h);
      assert h in s <==> IsHead(rest, n, h);
    }
    assert u == s - {old1};
  }

  /** The array `v` holds the heads of the runs that are left. */
  ghost predicate Holding(v: seq<Rec>, rest: seq<seq<Rec>>) { multiset(v) == Heads(rest) }

  lemma {:induction false} HoldingFree(v: seq<Rec>, rest: seq<seq<Rec>>, ks: set<seq<Byte>>)
    requires Holding(v, rest) && RunsOk(rest, ks) && Free(ks)
    ensures PrefixFree(v) && Among(v, ks)
  {
    forall i | 0 <= i < |v| ensures v[i].key in ks {
      assert v[i] in multiset(v);
      HeadsAre(rest, v[i]);
      assert RunOk(rest[v[i].id], ks);
    }
    AmongIsFree(v, ks);
  }

  /** When the array is sorted its first entry names a least head. */
  lemma {:induction false} FirstIsLeast(v: seq<Rec>, rest: seq<seq<Rec>>)
    requires Holding(v, rest) && v != [] && (forall j {:trigger v[j]} :: 0 <= j < |v| ==> LexLe(v[0].key, v[j].key))
    ensures 0 <= v[0].id < |rest| && Least(rest, v[0].id) && v[0] == HeadOf(rest[v[0].id], v[0].id)
  {
    assert v[0] in multiset(v);
    HeadsAre(rest, v[0]);
    forall i | 0 <= i < |rest| && rest[i] != [] ensures LexLe(v[0].key, rest[i][0].key) {
      HeadIn(rest, i);
      assert HeadOf(rest[i], i) in v;
      var j :| 0 <= j < |v| && v[j] == HeadOf(rest[i], i);
    }
  }

  lemma {:induction false} NoneLeft(rest: seq<seq<Rec>>, i: nat)
    requires Holding([], rest) && i < |rest|
    ensures rest[i] == []
  {
    if rest[i] != [] {
      HeadIn(rest, i);
    }
  }

  // ----- mergefiles -----

  /** Sorted from the second entry on, and the first no later than the second. */
  ghost predicate FirstFirst(v: seq<Rec>) {
    forall j {:trigger v[j]} :: 0 <= j < |v| ==> LexLe(v[0].key, v[j].key)
  }

  lemma {:induction false} SortedFirst(v: seq<Rec>)
    requires LexSorted(v)
    ensures FirstFirst(v) && (|v| > 1 ==> FirstFirst(v[1..]))
  {
    forall j | 0 <= j < |v| ensures LexLe(v[0].key, v[j].key) {
      if j == 0 {
        LexRefl(v[0].key);
      } else {
        assert LexAt(v, 0, j);
      }
    }
    if |v| > 1 {
      var t := v[1..];
      forall j | 0 <= j < |t| ensures LexLe(t[0].key, t[j].key) {
        if j == 0 {
          LexRefl(t[0].key);
        } else {
          assert LexAt(v, 1, j + 1);
        }
      }
    }
  }

  /** A new first entry that is no later than the second is no later than any. */
  lemma {:induction false} NewFirst(v: seq<Rec>, h: Rec)
    requires v != [] && (|v| > 1 ==> FirstFirst(v[1..]) && LexLe(h.key, v[1].key))
    ensures FirstFirst(v[0 := h])
  {
    var t := v[0 := h];
    forall j | 0 <= j < |t| ensures LexLe(t[0].key, t[j].key) {
      if j == 0 {
        LexRefl(h.key);
      } else {
        assert v[1..][0] == v[1] && v[1..][j - 1] == v[j];
        LexTrans(h.key, v[1].key, v[j].key);
      }
    }
  }

  ghost function Left(rest: seq<seq<Rec>>): nat { if rest == [] then 0 else Left(rest[..|rest| - 1]) + |rest[|rest| - 1]| }

  lemma {:induction false} LeftUpdate(rest: seq<seq<Rec>>, i: nat, r: seq<Rec>)
    requires i < |rest|
    ensures Left(rest[i := r]) == Left(rest) - |rest[i]| + |r|
  {
    var n := |rest| - 1;
    var t := rest[i := r];
    if i < n {
      LeftUpdate(rest[..n], i, r);
      assert t[..n] == rest[..n][i := r];
    } else {
      assert t[..n] == rest[..n];
    }
  }

  /** The array after the first run moved on: its new head in front, or the last entry in its place. */
  lemma {:induction false} HoldingNext(v: seq<Rec>, rest: seq<seq<Rec>>, m: nat)
    requires Holding(v, rest) && v != [] && m < |rest| && rest[m] != [] && v[0] == HeadOf(rest[m], m)
    ensures |rest[m]| > 1 ==> Holding(v[0 := HeadOf(rest[m][1..], m)], rest[m := rest[m][1..]])
    ensures |rest[m]| == 1 ==> Holding(v[0 := v[|v| - 1]][..|v| - 1], rest[m := rest[m][1..]])
  {
    var r := rest[m][1..];
    if r != [] {
      HeadMoves(rest, m, r);
      assert multiset(v[0 := HeadOf(r, m)]) == multiset(v) - multiset{v[0]} + multiset{HeadOf(r, m)};
    } else {
      HeadGone(rest, m);
      DropFirst(v);
    }
  }

  lemma {:induction false} DropFirst(v: seq<Rec>)
    requires v != []
    ensures multiset(v[0 := v[|v| - 1]][..|v| - 1]) == multiset(v) - multiset{v[0]}
  {
    var n := |v| - 1;
    if n == 0 {
      assert v == [v[0]] && v[0 := v[0]][..0] == [];
    } else {
      assert v == [v[0]] + v[1..n] + [v[n]];
      assert v[0 := v[n]][..n] == [v[n]] + v[1..n];
    }
  }

  lemma AllOne(r: seq<Rec>)
    ensures All([r]) == multiset(r)
  {
    assert [r][..0] == [];
  }

  lemma SliceStore(s: seq<Rec>, t: seq<Rec>, n: nat, x: Rec)
    requires n < |s| && t == s[n := x]
    ensures t[0..n + 1] == s[0..n] + [x]
  {
  }

  /** Set up: the head of each run that is not empty. */
  method OpenRuns(runs: seq<seq<Rec>>) returns (a: array<Rec>, nn: nat)
    ensures fresh(a) && a.Length == |runs| && nn <= a.Length && Holding(a[..][0..nn], runs)
  {
    a := new Rec[|runs|](_ => Rec([], 0));
    nn := 0;
    for i := 0 to |runs|
      invariant nn <= i && multiset(a[..][0..nn]) == multiset(HeadsTo(runs, i))
    {
      HeadsMore(runs, i);
      if runs[i] != [] {
        ghost var s := a[..];
        a[nn] := HeadOf(runs[i], i);
        SliceStore(s, a[..], nn, HeadOf(runs[i], i));
        nn := nn + 1;
      }
    }
  }

  lemma {:induction false} HeadsMore(runs: seq<seq<Rec>>, i: nat)
    requires i < |runs|
    ensures multiset(HeadsTo(runs, i + 1)) == multiset(HeadsTo(runs, i)) + if runs[i] == [] then multiset{} else multiset{HeadOf(runs[i], i)}
  {
    var s, n := HeadsTo(runs, i), i + 1;
    var u := HeadsTo(runs, n);
    forall h ensures h in u <==> h in s || (runs[i] != [] && h == HeadOf(runs[i], i)) {
      assert h in u <==> IsHead(runs, n, h);
      assert h in s <==> IsHead(runs, i, h);
    }
    if runs[i] != [] {
      assert u == s + {HeadOf(runs[i], i)} && HeadOf(runs[i], i) !in s;
    } else {
      assert u == s;
    }
  }

  /** One turn of the outer loop: sort the heads, then write from the first run while its head comes first. */
  method Turn(a: array<Rec>, nn0: nat, count: array<int>, u: bool, rest0: seq<seq<Rec>>, out0: seq<Rec>, ghost src: multiset<Rec>, ghost ks: set<seq<Byte>>)
    returns (nn: nat, rest: seq<seq<Rec>>, out: seq<Rec>)
    requires 0 < nn0 <= a.Length && Cleared(count[..]) && Free(ks)
    requires Merging(u, src, rest0, out0, ks) && Holding(a[..][0..nn0], rest0)
    modifies a, count
    ensures nn <= a.Length && Cleared(count[..]) && Merging(u, src, rest, out, ks) && Holding(a[..][0..nn], rest) && Left(rest) < Left(rest0)
  {
    HoldingFree(a[..][0..nn0], rest0, ks);
    Sort4(a, nn0, count);
    SortedFirst(a[..][0..nn0]);
    nn, rest, out := Drain(a, nn0, u, rest0, out0, src, ks);
  }

  /** The first entry names a least head, and so would the second without it. */
  ghost predicate Ranked(v: seq<Rec>) { v != [] && FirstFirst(v) && (|v| > 1 ==> FirstFirst(v[1..])) }

  /** The inner loop: write from the first run until it ends or its head comes after the second. */
  method Drain(a: array<Rec>, nn0: nat, u: bool, rest0: seq<seq<Rec>>, out0: seq<Rec>, ghost src: multiset<Rec>, ghost ks: set<seq<Byte>>)
    returns (nn: nat, rest: seq<seq<Rec>>, out: seq<Rec>)
    requires 0 < nn0 <= a.Length && Free(ks) && Ranked(a[..][0..nn0])
    requires Merging(u, src, rest0, out0, ks) && Holding(a[..][0..nn0], rest0)
    modifies a
    ensures nn <= a.Length && Merging(u, src, rest, out, ks) && Holding(a[..][0..nn], rest) && Left(rest) < Left(rest0)
  {
    nn, rest, out := nn0, rest0, out0;
    var stop := false;
    while !stop
      invariant nn <= a.Length && Merging(u, src, rest, out, ks) && Holding(a[..][0..nn], rest)
      invariant Left(rest) <= Left(rest0) && (stop ==> Left(rest) < Left(rest0))
      invariant !stop ==> Ranked(a[..][0..nn])
      decreases Left(rest), !stop
    {
      nn, rest, out, stop := WriteOne(a, nn, u, rest, out, src, ks);
    }
  }

  /** One line: write it, fetch the next of its run, and see whether to go on with that run. */
  method WriteOne(a: array<Rec>, nn0: nat, u: bool, rest0: seq<seq<Rec>>, out0: seq<Rec>, ghost src: multiset<Rec>, ghost ks: set<seq<Byte>>)
    returns (nn: nat, rest: seq<seq<Rec>>, out: seq<Rec>, stop: bool)
    requires 0 < nn0 <= a.Length && Free(ks) && Ranked(a[..][0..nn0])
    requires Merging(u, src, rest0, out0, ks) && Holding(a[..][0..nn0], rest0)
    modifies a
    ensures nn <= a.Length && Merging(u, src, rest, out, ks) && Holding(a[..][0..nn], rest) && Left(rest) < Left(rest0)
    ensures !stop ==> Ranked(a[..][0..nn])
  {
    ghost var v := a[..][0..nn0];
    var m;
    m, rest, out := WriteFirst(a[0], u, rest0, out0, v, src, ks);
    nn, stop := Refill(a, nn0, m, rest, v, ks);
  }

  /** What the array must hold once run `m`, named by its first entry, has moved on. */
  ghost predicate Refilled(v: seq<Rec>, w: seq<Rec>, m: nat, rest: seq<seq<Rec>>) {
    m < |rest| && v != [] && w == if rest[m] == [] then v[0 := v[|v| - 1]][..|v| - 1] else v[0 := HeadOf(rest[m], m)]
  }

  method WriteFirst(h: Rec, u: bool, rest0: seq<seq<Rec>>, out0: seq<Rec>, ghost v: seq<Rec>, ghost src: multiset<Rec>, ghost ks: set<seq<Byte>>)
    returns (m: nat, rest: seq<seq<Rec>>, out: seq<Rec>)
    requires Free(ks) && Ranked(v) && h == v[0] && Merging(u, src, rest0, out0, ks) && Holding(v, rest0)
    ensures Merging(u, src, rest, out, ks) && Left(rest) < Left(rest0) && m < |rest|
    ensures forall w {:trigger Refilled(v, w, m, rest)} :: Refilled(v, w, m, rest) ==> Holding(w, rest)
  {
    FirstIsLeast(v, rest0);
    m := h.id;
    HeadFacts(v, rest0, ks, m);
    WriteLeast(u, src, rest0, out0, ks, m);
    HoldingNext(v, rest0, m);
    LeftUpdate(rest0, m, rest0[m][1..]);
    out := WriteLine(u, out0, rest0[m][0], ks);
    rest := rest0[m := rest0[m][1..]];
  }

  method Refill(a: array<Rec>, nn0: nat, m: nat, rest: seq<seq<Rec>>, ghost v: seq<Rec>, ghost ks: set<seq<Byte>>) returns (nn: nat, stop: bool)
    requires 0 < nn0 <= a.Length && a[..][0..nn0] == v && m < |rest| && Free(ks) && RunsOk(rest, ks) && Ranked(v)
    requires forall w {:trigger Refilled(v, w, m, rest)} :: Refilled(v, w, m, rest) ==> Holding(w, rest)
    modifies a
    ensures nn <= a.Length && Holding(a[..][0..nn], rest)
    ensures !stop ==> Ranked(a[..][0..nn])
  {
    nn := nn0;
    if rest[m] == [] {
      nn := nn - 1;
      a[0] := a[nn];
      stop := true;
      ShrunkArray(v, a[..], nn);
      assert Refilled(v, a[..][0..nn], m, rest);
    } else {
      a[0] := HeadOf(rest[m], m);
      assert a[..][0..nn] == v[0 := HeadOf(rest[m], m)];
      assert Refilled(v, a[..][0..nn], m, rest);
      stop := nn > 1 && Kcmp(a[0].key, a[1].key) > 0;
      if !stop {
        StillRanked(v, a[0], rest, ks);
      }
    }
  }

  lemma ShrunkArray(v: seq<Rec>, s: seq<Rec>, n: nat)
    requires n < |s| && |v| == n + 1 && (forall i :: 1 <= i < n ==> s[i] == v[i]) && (n > 0 ==> s[0] == v[n])
    ensures s[0..n] == v[0 := v[n]][..n]
  {
  }

  lemma {:induction false} HeadFacts(v: seq<Rec>, rest: seq<seq<Rec>>, ks: set<seq<Byte>>, m: nat)
    requires RunsOk(rest, ks) && m < |rest| && rest[m] != []
    ensures rest[m][0].key in ks
  {
    assert RunOk(rest[m], ks);
  }

  lemma {:induction false} StillRanked(v: seq<Rec>, h: Rec, rest: seq<seq<Rec>>, ks: set<seq<Byte>>)
    requires Ranked(v) && Free(ks) && RunsOk(rest, ks) && Holding(v[0 := h], rest) && (|v| > 1 ==> Kcmp(h.key, v[1].key) <= 0)
    ensures Ranked(v[0 := h])
  {
    var w := v[0 := h];
    HoldingFree(w, rest, ks);
    if |v| > 1 {
      assert w[0].key in ks && w[1].key in ks;
      KcmpGivesLex(h.key, v[1].key);
      assert w[1..] == v[1..];
    }
    NewFirst(v, h);
  }

  /** The line is written unless -u and `kcmp` say it is a duplicate. */
  method WriteLine(u: bool, out0: seq<Rec>, l: Rec, ghost ks: set<seq<Byte>>) returns (out: seq<Rec>)
    requires Free(ks) && l.key in ks && Among(out0, ks)
    ensures out == Written(u, out0, l)
  {
    out := out0;
    if out != [] {
      KcmpZero(out[|out| - 1].key, l.key);
    }
    if !(u && out != [] && Kcmp(out[|out| - 1].key, l.key) == 0) {
      out := out + [l];
    }
  }

  lemma {:induction false} StartMerging(u: bool, runs: seq<seq<Rec>>, ks: set<seq<Byte>>)
    requires RunsOk(runs, ks)
    ensures Merging(u, All(runs), runs, [], ks)
  {
    forall i | 0 <= i < |runs| ensures Later([], runs[i]) {
    }
    forall x | x in All(runs) ensures From(x, All(runs)) {
    }
  }

  /** `mergefiles`: sorted runs become one, with all their lines, or with -u one line for each key. */
  method Mergefiles(runs: seq<seq<Rec>>, u: bool, count: array<int>, ghost ks: set<seq<Byte>>) returns (out: seq<Rec>)
    requires RunsOk(runs, ks) && Free(ks) && Cleared(count[..])
    modifies count
    ensures Answers(u, All(runs), out) && RunOk(out, ks) && Cleared(count[..])
  {
    var a, nn := OpenRuns(runs);
    var rest := runs;
    out := [];
    StartMerging(u, runs, ks);
    while nn != 0
      invariant 0 <= nn <= a.Length && Cleared(count[..]) && Merging(u, All(runs), rest, out, ks) && Holding(a[..][0..nn], rest)
      decreases Left(rest)
    {
      nn, rest, out := Turn(a, nn, count, u, rest, out, All(runs), ks);
    }
    assert a[..][0..0] == [];
    forall i | 0 <= i < |rest| ensures rest[i] == [] {
      NoneLeft(rest, i);
    }
    MergeDone(u, All(runs), rest, out, ks);
  }

  // ----- mergeout -----

  /** The runs that are left stand for the lines `src`. */
  ghost predicate StandFor(u: bool, src: multiset<Rec>, left: multiset<Rec>) {
    if u then
      && (forall x {:trigger From(x, src)} :: x in left ==> From(x, src))
      && forall x {:trigger Represented(x, left)} :: x in src ==> Represented(x, left)
    else left == src
  }

  ghost predicate Represented(x: Rec, left: multiset<Rec>) { exists y :: y in left && y.key == x.key }

  /** Merging some of the runs into one leaves runs that stand for the same lines. */
  lemma {:induction false} MergedStands(u: bool, src: multiset<Rec>, x: multiset<Rec>, y: multiset<Rec>, out: seq<Rec>)
    requires StandFor(u, src, x + y) && Answers(u, x, out)
    ensures StandFor(u, src, y + multiset(out))
  {
    if u {
      forall e | e in y + multiset(out) ensures From(e, src) {
        assert e in out ==> From(e, x);
        assert From(e, src);
      }
      forall e | e in src ensures Represented(e, y + multiset(out)) {
        assert Represented(e, x + y);
        var f :| f in x + y && f.key == e.key;
        if f in y {
          assert f in y + multiset(out);
        } else {
          assert Stands(f, out);
          var i :| 0 <= i < |out| && out[i].key == f.key;
          assert out[i] in y + multiset(out);
        }
      }
    }
  }

  lemma {:induction false} LastMerge(u: bool, src: multiset<Rec>, left: multiset<Rec>, out: seq<Rec>)
    requires StandFor(u, src, left) && Answers(u, left, out)
    ensures Answers(u, src, out)
  {
    if u {
      forall e | e in out ensures From(e, src) {
        assert From(e, left);
      }
      forall e | e in src ensures Stands(e, out) {
        assert Represented(e, left);
        var f :| f in left && f.key == e.key;
        assert Stands(f, out);
        var i :| 0 <= i < |out| && out[i].key == f.key;
        assert out[i].key == e.key;
      }
    }
  }

  lemma {:induction false} SplitRuns(temps: seq<seq<Rec>>, i: nat, n: nat, out: seq<Rec>)
    requires i + n <= |temps|
    ensures All(temps[i..]) == All(temps[i..i + n]) + All(temps[i + n..])
    ensures All((temps + [out])[i + n..]) == All(temps[i + n..]) + multiset(out)
  {
    assert temps[i..] == temps[i..i + n] + temps[i + n..];
    AllAppend(temps[i..i + n], temps[i + n..]);
    assert (temps + [out])[i + n..] == temps[i + n..] + [out];
    AllAppend(temps[i + n..], [out]);
    AllOne(out);
  }

  lemma PartOk2(temps: seq<seq<Rec>>, ks: set<seq<Byte>>, i: nat, j: nat)
    requires RunsOk(temps, ks) && i <= j <= |temps|
    ensures RunsOk(temps[i..j], ks)
  {
    forall k | 0 <= k < j - i ensures RunOk(temps[i..j][k], ks) {
      assert RunOk(temps[i + k], ks);
    }
  }

  /** The runs from `i` on stand for the lines `src`. */
  ghost predicate Pending(u: bool, src: multiset<Rec>, temps: seq<seq<Rec>>, i: nat, ks: set<seq<Byte>>) {
    i <= |temps| && RunsOk(temps, ks) && StandFor(u, src, All(temps[i..]))
  }

  /** Run number `first + j` was made from runs number `10 * j` to `10 * j + 9`, all of them made before it. */
  ghost predicate MadeFrom(u: bool, temps: seq<seq<Rec>>, first: nat, j: nat) {
    && NMERGE * j + NMERGE <= first + j < |temps|
    && Answers(u, All(temps[NMERGE * j..NMERGE * j + NMERGE]), temps[first + j])
  }

  /** Every run made on the way is the merge of its own ten runs: run number `k` goes into the merge number `k / 10`
      and into no other. */
  ghost predicate MergeTree(u: bool, temps: seq<seq<Rec>>, first: nat) {
    first <= |temps| && forall j: nat {:trigger MadeFrom(u, temps, first, j)} :: first + j < |temps| ==> MadeFrom(u, temps, first, j)
  }

  /** The last merge: of the ten runs or fewer that no other merge has taken. */
  ghost predicate LastFrom(u: bool, temps: seq<seq<Rec>>, first: nat, out: seq<Rec>) {
    first <= |temps| && var last := NMERGE * (|temps| - first); last < |temps| <= last + NMERGE && Answers(u, All(temps[last..]), out)
  }

  lemma {:induction false} TreeGrows(u: bool, temps: seq<seq<Rec>>, first: nat, run: seq<Rec>)
    requires MergeTree(u, temps, first)
    requires var i := NMERGE * (|temps| - first); i + NMERGE <= |temps| && Answers(u, All(temps[i..i + NMERGE]), run)
    ensures MergeTree(u, temps + [run], first)
  {
    var t := temps + [run];
    forall j: nat | first + j < |t| ensures MadeFrom(u, t, first, j) {
      if first + j < |temps| {
        assert MadeFrom(u, temps, first, j);
        assert t[NMERGE * j..NMERGE * j + NMERGE] == temps[NMERGE * j..NMERGE * j + NMERGE];
      } else {
        assert t[NMERGE * j..NMERGE * j + NMERGE] == temps[NMERGE * j..NMERGE * j + NMERGE];
      }
    }
  }

  /** Ten runs become one at the end of the list. */
  method MergeTen(temps0: seq<seq<Rec>>, i: nat, u: bool, count: array<int>, ghost first: nat, ghost src: multiset<Rec>, ghost ks: set<seq<Byte>>) returns (temps: seq<seq<Rec>>)
    requires first <= |temps0| && i == NMERGE * (|temps0| - first) && i + NMERGE < |temps0| && MergeTree(u, temps0, first)
    requires Pending(u, src, temps0, i, ks) && Free(ks) && Cleared(count[..])
    modifies count
    ensures temps0 <= temps && |temps| == |temps0| + 1 && MergeTree(u, temps, first)
    ensures Pending(u, src, temps, i + NMERGE, ks) && Cleared(count[..])
  {
    PartOk2(temps0, ks, i, i + NMERGE);
    var run := Mergefiles(temps0[i..i + NMERGE], u, count, ks);
    SplitRuns(temps0, i, NMERGE, run);
    MergedStands(u, src, All(temps0[i..i + NMERGE]), All(temps0[i + NMERGE..]), run);
    TreeGrows(u, temps0, first, run);
    temps := temps0 + [run];
    forall k | 0 <= k < |temps| ensures RunOk(temps[k], ks) {
      assert k < |temps0| ==> RunOk(temps0[k], ks);
    }
  }

  /** The runs that are left go to the output. */
  method MergeRest(temps: seq<seq<Rec>>, i: nat, u: bool, count: array<int>, ghost first: nat, ghost src: multiset<Rec>, ghost ks: set<seq<Byte>>) returns (out: seq<Rec>)
    requires first <= |temps| && i == NMERGE * (|temps| - first) < |temps| <= i + NMERGE
    requires Pending(u, src, temps, i, ks) && Free(ks) && Cleared(count[..])
    modifies count
    ensures Answers(u, src, out) && LastFrom(u, temps, first, out) && Cleared(count[..])
  {
    PartOk2(temps, ks, i, |temps|);
    assert temps[i..] == temps[i..|temps|];
    out := Mergefiles(temps[i..], u, count, ks);
    LastMerge(u, src, All(temps[i..]), out);
  }

  /** `mergeout`: merge ten runs at a time into new runs at the end of the list until ten or fewer are left;
      these are merged into the output.  So every run, given or made, is merged exactly once. */
  method Mergeout(temps0: seq<seq<Rec>>, u: bool, count: array<int>, ghost ks: set<seq<Byte>>) returns (out: seq<Rec>, temps: seq<seq<Rec>>)
    requires temps0 != [] && RunsOk(temps0, ks) && Free(ks) && Cleared(count[..])
    modifies count
    ensures Answers(u, All(temps0), out) && Cleared(count[..])
    ensures temps0 <= temps && MergeTree(u, temps, |temps0|) && LastFrom(u, temps, |temps0|, out)
  {
    temps, out := temps0, [];
    var i := 0;
    assert temps[0..] == temps;
    StandsForItself(u, All(temps0));
    while i < |temps|
      invariant 0 <= i <= |temps| && temps0 <= temps && Cleared(count[..]) && MergeTree(u, temps, |temps0|)
      invariant i < |temps| ==> i == NMERGE * (|temps| - |temps0|) && Pending(u, All(temps0), temps, i, ks)
      invariant i == |temps| ==> Answers(u, All(temps0), out) && LastFrom(u, temps, |temps0|, out)
      decreases |temps| - i
    {
      var n := |temps| - i;
      if n > NMERGE {
        n := NMERGE;
        temps := MergeTen(temps, i, u, count, |temps0|, All(temps0), ks);
      } else {
        out := MergeRest(temps, i, u, count, |temps0|, All(temps0), ks);
      }
      i := i + n;
    }
  }

  lemma StandsForItself(u: bool, src: multiset<Rec>)
    ensures StandFor(u, src, src)
  {
    if u {
      forall x | x in src ensures From(x, src) && Represented(x, src) {
      }
    }
  }

  // ----- the whole sort -----

  /** `tempout`: the lines in memory, sorted, become a run. */
  method Tempout(lines: seq<Rec>, count: array<int>, ghost ks: set<seq<Byte>>) returns (run: seq<Rec>)
    requires Among(lines, ks) && Free(ks) && Cleared(count[..])
    modifies count
    ensures RunOk(run, ks) && multiset(run) == multiset(lines) && Cleared(count[..])
  {
    var a := new Rec[|lines|](i requires 0 <= i < |lines| => lines[i]);
    assert a[..] == lines && a[..][0..a.Length] == lines;
    AmongIsFree(lines, ks);
    Sort4(a, a.Length, count);
    run := a[..];
    assert a[..][0..a.Length] == run;
    SameElements(lines, run);
    forall i | 0 <= i < |run| ensures run[i].key in ks {
      assert run[i] in lines;
    }
  }

  /** `printout`: the lines in memory, sorted, go to the output, with -u one for each key. */
  method Printout(lines: seq<Rec>, u: bool, count: array<int>, ghost ks: set<seq<Byte>>) returns (out: seq<Rec>)
    requires Among(lines, ks) && Free(ks) && Cleared(count[..])
    modifies count
    ensures Answers(u, multiset(lines), out) && Cleared(count[..])
  {
    var run := Tempout(lines, count, ks);
    out := WriteRun(run, u, ks);
  }

  method WriteRun(run: seq<Rec>, u: bool, ghost ks: set<seq<Byte>>) returns (out: seq<Rec>)
    requires RunOk(run, ks) && Free(ks)
    ensures Answers(u, multiset(run), out)
  {
    ghost var src := multiset(run);
    out := [];
    assert run[0..] == run;
    AllOne(run);
    StartMerging(u, [run], ks);
    for i := 0 to |run|
      invariant Merging(u, src, [run[i..]], out, ks)
    {
      WriteNext(u, src, run, i, out, ks);
      out := WriteLine(u, out, run[i], ks);
    }
    MergeDone(u, src, [run[|run|..]], out, ks);
  }

  lemma {:induction false} WriteNext(u: bool, src: multiset<Rec>, run: seq<Rec>, i: nat, out: seq<Rec>, ks: set<seq<Byte>>)
    requires i < |run| && Merging(u, src, [run[i..]], out, ks)
    ensures Merging(u, src, [run[i + 1..]], Written(u, out, run[i]), ks) && run[i].key in ks
  {
    var rest := [run[i..]];
    assert RunOk(rest[0], ks) && rest[0][0] == run[i];
    LexRefl(run[i].key);
    WriteLeast(u, src, rest, out, ks, 0);
    assert rest[0 := rest[0][1..]] == [run[i + 1..]];
  }

  ghost function Keys(lines: seq<Rec>): set<seq<Byte>> { set i | 0 <= i < |lines| :: lines[i].key }

  /** `sort` without -c: read the lines, spilling a sorted run whenever `mline` lines are in memory, then merge
      the runs, or print what is in memory if nothing was spilled. */
  method Sort(lines: seq<Rec>, mline: nat, u: bool, count: array<int>) returns (out: seq<Rec>)
    requires mline > 0 && PrefixFree(lines) && Cleared(count[..])
    modifies count
    ensures Answers(u, multiset(lines), out) && Cleared(count[..])
  {
    ghost var ks := Keys(lines);
    KeysFree(lines);
    var temps, memory := ReadLines(lines, mline, count, ks);
    if temps != [] {
      var run := Tempout(memory, count, ks);
      temps := Spill(temps, run, ks);
      assert All(temps) == multiset(lines);
      out, temps := Mergeout(temps, u, count, ks);
    } else {
      assert multiset(memory) == multiset(lines);
      out := Printout(memory, u, count, ks);
    }
  }

  /** `dofile`: spill what is in memory whenever it is full. */
  method ReadLines(lines: seq<Rec>, mline: nat, count: array<int>, ghost ks: set<seq<Byte>>) returns (temps: seq<seq<Rec>>, memory: seq<Rec>)
    requires mline > 0 && Among(lines, ks) && Free(ks) && Cleared(count[..])
    modifies count
    ensures RunsOk(temps, ks) && Among(memory, ks) && Cleared(count[..]) && All(temps) + multiset(memory) == multiset(lines)
    ensures |memory| <= mline
  {
    temps, memory := [], [];
    for n := 0 to |lines|
      invariant RunsOk(temps, ks) && Among(memory, ks) && Cleared(count[..]) && |memory| <= mline
      invariant All(temps) + multiset(memory) == multiset(lines[..n])
    {
      if |memory| >= mline {
        var run := Tempout(memory, count, ks);
        temps := Spill(temps, run, ks);
        memory := [];
      }
      memory := memory + [lines[n]];
      assert lines[..n + 1] == lines[..n] + [lines[n]];
    }
    assert lines[..|lines|] == lines;
  }

  method Spill(temps0: seq<seq<Rec>>, run: seq<Rec>, ghost ks: set<seq<Byte>>) returns (temps: seq<seq<Rec>>)
    requires RunsOk(temps0, ks) && RunOk(run, ks)
    ensures temps == temps0 + [run] && RunsOk(temps, ks) && All(temps) == All(temps0) + multiset(run)
  {
    temps := temps0 + [run];
    forall k | 0 <= k < |temps| ensures RunOk(temps[k], ks) {
      assert k < |temps0| ==> RunOk(temps0[k], ks);
    }
    AllAppend(temps0, [run]);
    AllOne(run);
  }

  lemma {:induction false} KeysFree(lines: seq<Rec>)
    requires PrefixFree(lines)
    ensures Free(Keys(lines)) && Among(lines, Keys(lines))
  {
    forall x, y | x in Keys(lines) && y in Keys(lines) ensures !ProperPrefix(x, y) {
      var i :| 0 <= i < |lines| && lines[i].key == x;
      var j :| 0 <= j < |lines| && lines[j].key == y;
      assert Apart(lines, i, j);
    }
  }
}
