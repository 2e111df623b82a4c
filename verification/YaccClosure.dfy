/**
 `closure`: completing the kernel of a state with all the items it implies, each with the
 lookaheads it inherits.  An item is a position in the production memory: the symbol stored
 there is the one after the dot, and a cell that is not positive ends the production.
 */
module YaccClosure {
  import opened Sets
  import opened YaccSizes

  /** The tables that `closure` reads: production memory, the first items of the productions of each
      nonterminal, the empty marks and the first sets. */
  datatype Ctx = Ctx(mem: seq<int>, starts: seq<seq<int>>, ntokens: nat, pempty: seq<int>, pfirst: seq<set<int>>)

  predicate IsItem(x: Ctx, it: int) { 0 < it < |x.mem| }

  ghost predicate CellOk(x: Ctx, s: int) {
    (0 < s < NTBASE ==> s <= x.ntokens) && (s >= NTBASE ==> s - NTBASE < |x.starts|)
  }

  ghost predicate TokenSet(x: Ctx, l: set<int>) { forall t :: t in l ==> 1 <= t <= x.ntokens }

  ghost predicate CtxOk(x: Ctx) {
    && |x.mem| > 0 && x.mem[|x.mem| - 1] <= 0
    && |x.starts| == |x.pempty| == |x.pfirst|
    && (forall k :: 0 <= k < |x.mem| ==> CellOk(x, x.mem[k]))
    && (forall c, i :: 0 <= c < |x.starts| && 0 <= i < |x.starts[c]| ==> IsItem(x, x.starts[c][i]))
    && (forall c {:trigger x.pfirst[c]} :: 0 <= c < |x.pfirst| ==> TokenSet(x, x.pfirst[c]))
  }

  /** The tokens that can follow: those that begin the symbols from cell `k` to the end of the
      production, and `l` as well when all of those symbols can vanish. */
  function Spread(x: Ctx, k: int, l: set<int>): set<int>
    requires CtxOk(x) && 0 <= k < |x.mem|
    decreases |x.mem| - k
  {
    var ch := x.mem[k];
    if ch <= 0 then l
    else if ch < NTBASE then {ch}
    else
      assert CellOk(x, ch);
      x.pfirst[ch - NTBASE] + if x.pempty[ch - NTBASE] != 0 then Spread(x, k + 1, l) else {}
  }

  lemma {:induction false} SpreadMonotone(x: Ctx, k: int, l: set<int>, m: set<int>)
    requires CtxOk(x) && 0 <= k < |x.mem| && l <= m
    ensures Spread(x, k, l) <= Spread(x, k, m)
    decreases |x.mem| - k
  {
    if x.mem[k] >= NTBASE {
      assert CellOk(x, x.mem[k]);
      SpreadMonotone(x, k + 1, l, m);
    }
  }

  lemma {:induction false} SpreadTokens(x: Ctx, k: int, l: set<int>)
    requires CtxOk(x) && 0 <= k < |x.mem| && TokenSet(x, l)
    ensures TokenSet(x, Spread(x, k, l))
    decreases |x.mem| - k
  {
    assert CellOk(x, x.mem[k]);
    if x.mem[k] >= NTBASE {
      SpreadTokens(x, k + 1, l);
      assert TokenSet(x, x.pfirst[x.mem[k] - NTBASE]);
    }
  }

  // ----- families of items with lookaheads -----

  datatype Item = Item(pitem: int, look: set<int>)

  type Family = map<int, set<int>>

  /** The start items of the nonterminal after the dot of `it`; none if a token or the end follows. */
  function Next(x: Ctx, it: int): seq<int>
    requires CtxOk(x) && IsItem(x, it)
  {
    if x.mem[it] >= NTBASE then
      assert CellOk(x, x.mem[it]);
      x.starts[x.mem[it] - NTBASE]
    else []
  }

  /** What item `it` demands of a family is met. */
  ghost predicate Met(x: Ctx, f: Family, it: int)
    requires CtxOk(x) && IsItem(x, it) && it in f
  {
    forall s :: s in Next(x, it) ==> s in f && Spread(x, it + 1, f[it]) <= f[s]
  }

  ghost predicate ClosedFamily(x: Ctx, f: Family)
    requires CtxOk(x)
  {
    forall it {:trigger it in f} :: it in f ==> IsItem(x, it) && Met(x, f, it)
  }

  ghost predicate KernelIn(ker: seq<Item>, f: Family) {
    forall i :: 0 <= i < |ker| ==> ker[i].pitem in f && ker[i].look <= f[ker[i].pitem]
  }

  /** Closed under the item rule alone, lookaheads forgotten. */
  ghost predicate ClosedItems(x: Ctx, s: set<int>)
    requires CtxOk(x)
  {
    forall it {:trigger it in s} :: it in s ==> IsItem(x, it) && forall n :: n in Next(x, it) ==> n in s
  }

  ghost predicate KernelItemsIn(ker: seq<Item>, s: set<int>) {
    forall i :: 0 <= i < |ker| ==> ker[i].pitem in s
  }

  ghost predicate KernelOk(x: Ctx, ker: seq<Item>) {
    && (forall i :: 0 <= i < |ker| ==> IsItem(x, ker[i].pitem) && TokenSet(x, ker[i].look))
    && (forall i, j :: 0 <= i < j < |ker| ==> ker[i].pitem != ker[j].pitem)
  }

  // ----- the working set -----

  datatype Wset = Wset(pitem: int, flag: bool, ws: set<int>)

  ghost function Items(w: seq<Wset>): set<int> { set v | 0 <= v < |w| :: w[v].pitem }

  ghost predicate Distinct(w: seq<Wset>) {
    forall a, b :: 0 <= a < b < |w| ==> w[a].pitem != w[b].pitem
  }

  /** Entry `v` holds item `s` with at least the lookaheads `l`. */
  ghost predicate HoldsAt(w: seq<Wset>, v: int, s: int, l: set<int>) {
    0 <= v < |w| && w[v].pitem == s && l <= w[v].ws
  }

  ghost predicate Holds(w: seq<Wset>, s: int, l: set<int>) {
    exists v :: HoldsAt(w, v, s, l)
  }

  /** `b` extends `a`: no entry lost, no lookahead lost. */
  ghost predicate Better(a: seq<Wset>, b: seq<Wset>) {
    |a| <= |b| && forall v :: 0 <= v < |a| ==> a[v].pitem == b[v].pitem && a[v].ws <= b[v].ws
  }

  lemma HoldsOn(a: seq<Wset>, b: seq<Wset>, s: int, l: set<int>)
    requires Better(a, b) && Holds(a, s, l)
    ensures Holds(b, s, l)
  {
    var v :| HoldsAt(a, v, s, l);
    assert HoldsAt(b, v, s, l);
  }

  /** What an entry demands: its lookaheads passed on, or nothing when lookaheads are off. */
  ghost function Demand(x: Ctx, nolook: bool, e: Wset): set<int>
    requires CtxOk(x) && IsItem(x, e.pitem)
  {
    if nolook || x.mem[e.pitem] < NTBASE then {} else Spread(x, e.pitem + 1, e.ws)
  }

  /** Everything entry `e` implies is in the working set. */
  ghost predicate Served(x: Ctx, nolook: bool, w: seq<Wset>, e: Wset)
    requires CtxOk(x) && IsItem(x, e.pitem)
  {
    forall s {:trigger s in Next(x, e.pitem)} :: s in Next(x, e.pitem) ==> Holds(w, s, Demand(x, nolook, e))
  }

  lemma ServedOn(x: Ctx, nolook: bool, a: seq<Wset>, b: seq<Wset>, e: Wset)
    requires CtxOk(x) && IsItem(x, e.pitem) && Better(a, b) && Served(x, nolook, a, e)
    ensures Served(x, nolook, b, e)
  {
    forall s | s in Next(x, e.pitem) ensures Holds(b, s, Demand(x, nolook, e)) {
      HoldsOn(a, b, s, Demand(x, nolook, e));
    }
  }

  ghost predicate EntryOk(x: Ctx, nolook: bool, e: Wset) {
    IsItem(x, e.pitem) && (!nolook ==> TokenSet(x, e.ws))
  }

  /** Nothing in the working set goes beyond what every closed family with the kernel has. */
  ghost predicate NoMore(x: Ctx, ker: seq<Item>, w: seq<Wset>)
    requires CtxOk(x)
  {
    forall f: Family {:trigger ClosedFamily(x, f)} :: ClosedFamily(x, f) && KernelIn(ker, f) ==>
      forall v :: 0 <= v < |w| ==> w[v].pitem in f && w[v].ws <= f[w[v].pitem]
  }

  ghost predicate NoMoreItems(x: Ctx, ker: seq<Item>, w: seq<Wset>)
    requires CtxOk(x)
  {
    forall s: set<int> {:trigger ClosedItems(x, s)} :: ClosedItems(x, s) && KernelItemsIn(ker, s) ==>
      forall v :: 0 <= v < |w| ==> w[v].pitem in s
  }

  ghost predicate Sound(x: Ctx, ker: seq<Item>, nolook: bool, w: seq<Wset>)
    requires CtxOk(x)
  {
    NoMoreItems(x, ker, w) && (!nolook ==> NoMore(x, ker, w))
  }

  /** What holds whenever `closure` looks at its working set. */
  ghost predicate Working(x: Ctx, ker: seq<Item>, nolook: bool, w: seq<Wset>)
    requires CtxOk(x)
  {
    && (forall v :: 0 <= v < |w| ==> EntryOk(x, nolook, w[v]))
    && Distinct(w)
    && |ker| <= |w| && (forall v :: 0 <= v < |ker| ==> w[v].pitem == ker[v].pitem && ker[v].look <= w[v].ws)
    && Sound(x, ker, nolook, w)
  }

  /** The start items of nonterminal `c` belong to every closed family, with lookaheads `cl`. */
  ghost predicate Owed(x: Ctx, ker: seq<Item>, nolook: bool, c: int, cl: set<int>)
    requires CtxOk(x) && NTBASE <= c < NTBASE + |x.starts|
  {
    && (forall s: set<int> {:trigger ClosedItems(x, s)} :: ClosedItems(x, s) && KernelItemsIn(ker, s) ==>
          forall n :: n in x.starts[c - NTBASE] ==> n in s)
    && (!nolook ==> forall f: Family {:trigger ClosedFamily(x, f)} :: ClosedFamily(x, f) && KernelIn(ker, f) ==>
          forall n :: n in x.starts[c - NTBASE] ==> n in f && cl <= f[n])
  }

  lemma {:induction false} EntryOwes(x: Ctx, ker: seq<Item>, nolook: bool, w: seq<Wset>, v: int, c: int)
    requires CtxOk(x) && Working(x, ker, nolook, w) && 0 <= v < |w|
    requires x.mem[w[v].pitem] == c && NTBASE <= c < NTBASE + |x.starts|
    ensures Owed(x, ker, nolook, c, Demand(x, nolook, w[v]))
  {
    var it := w[v].pitem;
    assert EntryOk(x, nolook, w[v]);
    forall s: set<int> | ClosedItems(x, s) && KernelItemsIn(ker, s)
      ensures forall n :: n in x.starts[c - NTBASE] ==> n in s
    {
      assert it in s;
      assert Next(x, it) == x.starts[c - NTBASE];
    }
    if !nolook {
      forall f: Family | ClosedFamily(x, f) && KernelIn(ker, f)
        ensures forall n :: n in x.starts[c - NTBASE] ==> n in f && Demand(x, nolook, w[v]) <= f[n]
      {
        assert it in f && w[v].ws <= f[it];
        assert Met(x, f, it) && Next(x, it) == x.starts[c - NTBASE];
        SpreadMonotone(x, it + 1, w[v].ws, f[it]);
      }
    }
  }

  /** The lookaheads that the production of `it` passes to what comes after its dot, joined to `cl`. */
  method SpreadInto(x: Ctx, cl: set<int>, it: int, l: set<int>) returns (r: set<int>)
    requires CtxOk(x) && IsItem(x, it) && x.mem[it] > 0
    ensures r == cl + Spread(x, it + 1, l)
  {
    r := cl;
    var pi := it + 1;
    while x.mem[pi] > 0
      invariant it < pi < |x.mem|
      invariant cl + Spread(x, it + 1, l) == r + Spread(x, pi, l)
      decreases |x.mem| - pi
    {
      var ch := x.mem[pi];
      assert CellOk(x, ch);
      if ch < NTBASE {
        return r + {ch};
      }
      r := r + x.pfirst[ch - NTBASE];
      if x.pempty[ch - NTBASE] == 0 {
        return;
      }
      pi := pi + 1;
    }
    r := r + l;
  }

  /** Clear the flags of all entries from `u` on that have `c` after the dot, and collect the
      lookaheads they pass on. */
  method Gather(x: Ctx, ghost ker: seq<Item>, nolook: bool, w: seq<Wset>, u: nat, c: int) returns (w1: seq<Wset>, cl: set<int>)
    requires CtxOk(x) && Working(x, ker, nolook, w) && u < |w| && w[u].flag
    requires x.mem[w[u].pitem] == c && NTBASE <= c < NTBASE + |x.starts|
    ensures |w1| == |w| && forall v :: 0 <= v < |w| ==> w1[v] == w[v] || (w1[v] == w[v].(flag := false) && x.mem[w[v].pitem] == c && Demand(x, nolook, w[v]) <= cl)
    ensures !w1[u].flag
    ensures Owed(x, ker, nolook, c, cl) && TokenSet(x, cl)
  {
    w1, cl := w, {};
    EntryOwes(x, ker, nolook, w, u, c);
    for v := u to |w|
      invariant |w1| == |w|
      invariant forall k :: v <= k < |w| ==> w1[k] == w[k]
      invariant forall k :: 0 <= k < |w| ==> w1[k] == w[k] || (w1[k] == w[k].(flag := false) && x.mem[w[k].pitem] == c && Demand(x, nolook, w[k]) <= cl)
      invariant v > u ==> !w1[u].flag
      invariant Owed(x, ker, nolook, c, cl) && TokenSet(x, cl)
    {
      assert EntryOk(x, nolook, w[v]);
      if w[v].flag && x.mem[w[v].pitem] == c {
        w1 := w1[v := w[v].(flag := false)];
        if !nolook {
          EntryOwes(x, ker, nolook, w, v, c);
          SpreadTokens(x, w[v].pitem + 1, w[v].ws);
          cl := SpreadInto(x, cl, w[v].pitem, w[v].ws);
        }
      }
    }
  }

  // ----- progress -----

  ghost function SlackPairs(x: Ctx, w: seq<Wset>): set<(int, int)> {
    set v, t | 0 <= v < |w| && 1 <= t <= x.ntokens && t !in w[v].ws :: (v, t)
  }

  /** How many lookaheads the entries could still gain. */
  ghost function Slack(x: Ctx, w: seq<Wset>): nat { |SlackPairs(x, w)| }

  lemma {:induction false} SlackDrops(x: Ctx, w: seq<Wset>, v: int, l: set<int>)
    requires 0 <= v < |w| && TokenSet(x, l) && !(l <= w[v].ws)
    ensures Slack(x, w[v := Wset(w[v].pitem, true, w[v].ws + l)]) < Slack(x, w)
  {
    var w1 := w[v := Wset(w[v].pitem, true, w[v].ws + l)];
    var m0, m1 := SlackPairs(x, w), SlackPairs(x, w1);
    assert m0 == m1 + (m0 - m1);
    var t := Outside(l, w[v].ws);
    assert (v, t) in m0 - m1;
  }

  lemma SlackSame(x: Ctx, a: seq<Wset>, b: seq<Wset>)
    requires |a| == |b| && forall v :: 0 <= v < |a| ==> a[v].ws == b[v].ws
    ensures Slack(x, a) == Slack(x, b)
  {
    assert SlackPairs(x, a) == SlackPairs(x, b);
  }

  /** Either an entry was added or some entry gained a lookahead. */
  ghost predicate Progress(x: Ctx, a: seq<Wset>, b: seq<Wset>) {
    |a| < |b| || (|a| == |b| && Slack(x, b) < Slack(x, a))
  }

  ghost predicate NoRegress(x: Ctx, a: seq<Wset>, b: seq<Wset>) {
    |a| < |b| || (|a| == |b| && Slack(x, b) <= Slack(x, a))
  }

  // ----- the order of the working set -----

  /** Item `it` stands before entry `v`. */
  ghost predicate Before(w: seq<Wset>, v: int, it: int) { exists u {:trigger w[u]} :: 0 <= u < v <= |w| && w[u].pitem == it }

  ghost predicate InTurn(x: Ctx, w: seq<Wset>, v: int, c: int, j: int) {
    && 0 <= c < |x.starts| && 0 <= j < |x.starts[c]| && 0 <= v < |w| && w[v].pitem == x.starts[c][j]
    && forall i {:trigger x.starts[c][i]} :: 0 <= i < j ==> Before(w, v, x.starts[c][i])
  }

  /** Entry `v` is a start item of some nonterminal, and those before it in the list of that nonterminal stand before it. */
  ghost predicate SomeTurn(x: Ctx, w: seq<Wset>, v: int) { exists c, j :: InTurn(x, w, v, c, j) }

  /** After the kernel, which has `n` items, the start items of each nonterminal come in the order of its productions. */
  ghost predicate Orderly(x: Ctx, n: nat, w: seq<Wset>) {
    forall v {:trigger SomeTurn(x, w, v)} :: n <= v < |w| ==> SomeTurn(x, w, v)
  }

  lemma {:induction false} OrderlyOn(x: Ctx, n: nat, a: seq<Wset>, b: seq<Wset>)
    requires Orderly(x, n, a) && |a| <= |b| && forall v :: 0 <= v < |a| ==> b[v].pitem == a[v].pitem
    ensures forall v {:trigger SomeTurn(x, b, v)} :: n <= v < |a| ==> SomeTurn(x, b, v)
  {
    forall v | n <= v < |a| ensures SomeTurn(x, b, v) {
      assert SomeTurn(x, a, v);
      var c, j :| InTurn(x, a, v, c, j);
      forall i | 0 <= i < j ensures Before(b, v, x.starts[c][i]) {
        assert Before(a, v, x.starts[c][i]);
        var u :| 0 <= u < v && a[u].pitem == x.starts[c][i];
        assert b[u].pitem == x.starts[c][i];
      }
      assert InTurn(x, b, v, c, j);
    }
  }

  lemma {:induction false} OrderlyAppend(x: Ctx, n: nat, w: seq<Wset>, e: Wset, c: int, j: nat)
    requires Orderly(x, n, w) && 0 <= c < |x.starts| && j < |x.starts[c]| && e.pitem == x.starts[c][j]
    requires forall i {:trigger x.starts[c][i]} :: 0 <= i < j ==> Before(w, |w|, x.starts[c][i])
    ensures Orderly(x, n, w + [e])
  {
    var w1 := w + [e];
    OrderlyOn(x, n, w, w1);
    forall i | 0 <= i < j ensures Before(w1, |w|, x.starts[c][i]) {
      var u :| 0 <= u < |w| && w[u].pitem == x.starts[c][i];
      assert w1[u].pitem == x.starts[c][i];
    }
    assert InTurn(x, w1, |w|, c, j);
  }

  // ----- entering one item -----

  method Find(w: seq<Wset>, s: int) returns (v: nat)
    ensures v <= |w|
    ensures v < |w| ==> w[v].pitem == s
    ensures forall k :: 0 <= k < v ==> w[k].pitem != s
  {
    v := 0;
    while v < |w| && w[v].pitem != s
      invariant v <= |w|
      invariant forall k :: 0 <= k < v ==> w[k].pitem != s
    {
      v := v + 1;
    }
  }

  function Need(nolook: bool, cl: set<int>): set<int> { if nolook then {} else cl }

  /** How `Enter` may change the working set. */
  ghost predicate Entered(x: Ctx, nolook: bool, w: seq<Wset>, w1: seq<Wset>, s: int, cl: set<int>, grew: bool) {
    && Better(w, w1)
    && Holds(w1, s, Need(nolook, cl))
    && (forall v :: 0 <= v < |w1| ==> (v < |w| && w1[v] == w[v]) || w1[v].flag)
    && (forall v :: 0 <= v < |w| && w1[v] != w[v] ==> grew)
    && (grew ==> !nolook && Progress(x, w, w1))
    && NoRegress(x, w, w1)
  }

  /** The closure has items beyond the kernel, and too many for the working set. */
  ghost predicate Overflows(x: Ctx, ker: seq<Item>)
    requires CtxOk(x)
  {
    forall s: set<int> {:trigger ClosedItems(x, s)} :: ClosedItems(x, s) && KernelItemsIn(ker, s) ==> |s| >= WSETSIZE && |s| > |ker|
  }

  lemma {:induction false} ItemsCount(w: seq<Wset>)
    requires Distinct(w)
    ensures |Items(w)| == |w|
  {
    if w == [] {
      assert Items(w) == {};
    } else {
      var n := |w| - 1;
      ItemsCount(w[..n]);
      assert Items(w) == Items(w[..n]) + {w[n].pitem};
      assert w[n].pitem !in Items(w[..n]);
    }
  }

  /** No room for one more item that every closed set has. */
  lemma {:induction false} FullOverflows(x: Ctx, ker: seq<Item>, nolook: bool, w: seq<Wset>, n: int, c: int, cl: set<int>)
    requires CtxOk(x) && Working(x, ker, nolook, w) && |w| + 1 >= WSETSIZE && n !in Items(w)
    requires NTBASE <= c < NTBASE + |x.starts| && n in x.starts[c - NTBASE] && Owed(x, ker, nolook, c, cl)
    ensures Overflows(x, ker)
  {
    ItemsCount(w);
    forall s: set<int> | ClosedItems(x, s) && KernelItemsIn(ker, s) ensures |s| >= WSETSIZE && |s| > |ker| {
      SubsetCount(Items(w) + {n}, s);
    }
  }

  /** Put start item `s` with lookaheads `cl` into the working set; `ok` is false on overflow. */
  method Enter(x: Ctx, ghost ker: seq<Item>, nolook: bool, w: seq<Wset>, s: int, ghost c: int, ghost j: nat, cl: set<int>)
    returns (ok: bool, w1: seq<Wset>, grew: bool)
    requires CtxOk(x) && Working(x, ker, nolook, w) && TokenSet(x, cl)
    requires NTBASE <= c < NTBASE + |x.starts| && j < |x.starts[c - NTBASE]| && s == x.starts[c - NTBASE][j] && Owed(x, ker, nolook, c, cl)
    requires Orderly(x, |ker|, w) && forall i {:trigger x.starts[c - NTBASE][i]} :: 0 <= i < j ==> Before(w, |w|, x.starts[c - NTBASE][i])
    ensures ok ==> Working(x, ker, nolook, w1) && Entered(x, nolook, w, w1, s, cl, grew) && Orderly(x, |ker|, w1)
    ensures ok ==> |w1| <= |w| || |w1| < WSETSIZE
    ensures !ok ==> Overflows(x, ker)
  {
    ok, w1, grew := true, w, false;
    var v := Find(w, s);
    if v < |w| {
      if nolook {
        assert HoldsAt(w1, v, s, {});
        return;
      }
      if !(cl <= w[v].ws) {
        w1 := w[v := Wset(s, true, w[v].ws + cl)];
        grew := true;
        SlackDrops(x, w, v, cl);
        UnionWorks(x, ker, w, v, c, cl);
        OrderlyOn(x, |ker|, w, w1);
      }
      assert HoldsAt(w1, v, s, cl);
      return;
    }
    if |w| + 1 >= WSETSIZE {
      FullOverflows(x, ker, nolook, w, s, c, cl);
      ok := false;
      return;
    }
    var junk: set<int> := *;  // with lookaheads off the new entry's set is left as it was
    w1 := w + [Wset(s, true, if nolook then junk else cl)];
    grew := !nolook;
    AppendWorks(x, ker, nolook, w, w1[v], c, cl);
    OrderlyAppend(x, |ker|, w, w1[v], c - NTBASE, j);
    assert HoldsAt(w1, v, s, Need(nolook, cl));
  }

  lemma {:induction false} UnionWorks(x: Ctx, ker: seq<Item>, w: seq<Wset>, v: int, c: int, cl: set<int>)
    requires CtxOk(x) && Working(x, ker, false, w) && 0 <= v < |w| && TokenSet(x, cl)
    requires NTBASE <= c < NTBASE + |x.starts| && w[v].pitem in x.starts[c - NTBASE] && Owed(x, ker, false, c, cl)
    ensures Working(x, ker, false, w[v := Wset(w[v].pitem, true, w[v].ws + cl)])
  {
    var w1 := w[v := Wset(w[v].pitem, true, w[v].ws + cl)];
    assert EntryOk(x, false, w[v]);
    assert forall k :: 0 <= k < |w| ==> w1[k].pitem == w[k].pitem;
    forall f: Family | ClosedFamily(x, f) && KernelIn(ker, f)
      ensures forall k :: 0 <= k < |w1| ==> w1[k].pitem in f && w1[k].ws <= f[w1[k].pitem]
    {
    }
  }

  lemma {:induction false} AppendWorks(x: Ctx, ker: seq<Item>, nolook: bool, w: seq<Wset>, e: Wset, c: int, cl: set<int>)
    requires CtxOk(x) && Working(x, ker, nolook, w) && TokenSet(x, cl)
    requires NTBASE <= c < NTBASE + |x.starts| && e.pitem in x.starts[c - NTBASE] && Owed(x, ker, nolook, c, cl)
    requires e.flag && (!nolook ==> e.ws == cl)
    requires forall v :: 0 <= v < |w| ==> w[v].pitem != e.pitem
    ensures Working(x, ker, nolook, w + [e])
  {
    var w1 := w + [e];
    assert EntryOk(x, nolook, e);
    forall s: set<int> | ClosedItems(x, s) && KernelItemsIn(ker, s)
      ensures forall k :: 0 <= k < |w1| ==> w1[k].pitem in s
    {
    }
    if !nolook {
      forall f: Family | ClosedFamily(x, f) && KernelIn(ker, f)
        ensures forall k :: 0 <= k < |w1| ==> w1[k].pitem in f && w1[k].ws <= f[w1[k].pitem]
      {
      }
    }
  }

  // ----- the loops -----

  /** Entry `v`, if its flag is down, has everything it implies; or it is one of those with `c` after
      the dot that are being served with `cl`. */
  ghost predicate SettledOr(x: Ctx, nolook: bool, w: seq<Wset>, v: int, c: int, cl: set<int>)
    requires CtxOk(x) && 0 <= v < |w| && IsItem(x, w[v].pitem)
  {
    || w[v].flag
    || Served(x, nolook, w, w[v])
    || (x.mem[w[v].pitem] == c && Demand(x, nolook, w[v]) <= cl)
  }

  ghost predicate Settled(x: Ctx, nolook: bool, w: seq<Wset>)
    requires CtxOk(x)
  {
    forall v {:trigger Served(x, nolook, w, w[v])} :: 0 <= v < |w| && IsItem(x, w[v].pitem) && !w[v].flag ==> Served(x, nolook, w, w[v])
  }

  ghost predicate AllSettledOr(x: Ctx, nolook: bool, w: seq<Wset>, c: int, cl: set<int>)
    requires CtxOk(x)
  {
    forall v {:trigger w[v]} :: 0 <= v < |w| && IsItem(x, w[v].pitem) ==> SettledOr(x, nolook, w, v, c, cl)
  }

  lemma {:induction false} GatherSettles(x: Ctx, ker: seq<Item>, nolook: bool, w: seq<Wset>, w1: seq<Wset>, c: int, cl: set<int>)
    requires CtxOk(x) && Working(x, ker, nolook, w) && Settled(x, nolook, w) && |w1| == |w|
    requires forall v :: 0 <= v < |w| ==> EntryOk(x, nolook, w[v]) && (w1[v] == w[v] || (w1[v] == w[v].(flag := false) && x.mem[w[v].pitem] == c && Demand(x, nolook, w[v]) <= cl))
    ensures Working(x, ker, nolook, w1) && AllSettledOr(x, nolook, w1, c, cl)
    ensures Better(w, w1) && NoRegress(x, w, w1)
  {
    assert forall v :: 0 <= v < |w| ==> w1[v].pitem == w[v].pitem && w1[v].ws == w[v].ws;
    SlackSame(x, w, w1);
    forall v | 0 <= v < |w1| && IsItem(x, w1[v].pitem) ensures SettledOr(x, nolook, w1, v, c, cl) {
      if w1[v] == w[v] && !w1[v].flag {
        assert Served(x, nolook, w, w[v]);
        ServedOn(x, nolook, w, w1, w[v]);
      }
    }
    SoundOnSame(x, ker, nolook, w, w1);
  }

  lemma SoundOnSame(x: Ctx, ker: seq<Item>, nolook: bool, w: seq<Wset>, w1: seq<Wset>)
    requires CtxOk(x) && Sound(x, ker, nolook, w) && |w1| == |w|
    requires forall v :: 0 <= v < |w| ==> w1[v].pitem == w[v].pitem && w1[v].ws == w[v].ws
    ensures Sound(x, ker, nolook, w1)
  {
    forall s: set<int> | ClosedItems(x, s) && KernelItemsIn(ker, s) ensures forall k :: 0 <= k < |w1| ==> w1[k].pitem in s {
    }
    if !nolook {
      forall f: Family | ClosedFamily(x, f) && KernelIn(ker, f)
        ensures forall k :: 0 <= k < |w1| ==> w1[k].pitem in f && w1[k].ws <= f[w1[k].pitem]
      {
      }
    }
  }

  lemma {:induction false} EnterSettles(x: Ctx, nolook: bool, w: seq<Wset>, w1: seq<Wset>, s: int, c: int, cl: set<int>, grew: bool)
    requires CtxOk(x) && AllSettledOr(x, nolook, w, c, cl) && Entered(x, nolook, w, w1, s, cl, grew)
    ensures AllSettledOr(x, nolook, w1, c, cl)
  {
    forall v | 0 <= v < |w1| && IsItem(x, w1[v].pitem) ensures SettledOr(x, nolook, w1, v, c, cl) {
      if !w1[v].flag {
        assert SettledOr(x, nolook, w, v, c, cl);
        if Served(x, nolook, w, w[v]) {
          ServedOn(x, nolook, w, w1, w[v]);
        }
      }
    }
  }

  lemma {:induction false} AllServed(x: Ctx, nolook: bool, w: seq<Wset>, c: int, cl: set<int>)
    requires CtxOk(x) && AllSettledOr(x, nolook, w, c, cl) && NTBASE <= c < NTBASE + |x.starts|
    requires forall s :: s in x.starts[c - NTBASE] ==> Holds(w, s, Need(nolook, cl))
    ensures Settled(x, nolook, w)
  {
    forall v | 0 <= v < |w| && IsItem(x, w[v].pitem) && !w[v].flag ensures Served(x, nolook, w, w[v]) {
      assert SettledOr(x, nolook, w, v, c, cl);
      if x.mem[w[v].pitem] == c && Demand(x, nolook, w[v]) <= cl {
        assert Next(x, w[v].pitem) == x.starts[c - NTBASE];
        forall s | s in Next(x, w[v].pitem) ensures Holds(w, s, Demand(x, nolook, w[v])) {
          assert Holds(w, s, Need(nolook, cl));
          var k :| HoldsAt(w, k, s, Need(nolook, cl));
          assert HoldsAt(w, k, s, Demand(x, nolook, w[v]));
        }
      }
    }
  }

  /** What a stretch of the main loop does to the working set. */
  ghost predicate Advanced(x: Ctx, ker: seq<Item>, nolook: bool, w: seq<Wset>, w1: seq<Wset>, grew: bool)
    requires CtxOk(x)
  {
    && Better(w, w1) && NoRegress(x, w, w1)
    && (grew ==> !nolook && Progress(x, w, w1))
    && (forall v :: 0 <= v < |w| && w1[v].flag ==> w[v].flag || grew)
    && (|w1| <= |w| || |w1| < WSETSIZE)
  }

  lemma AdvancedTrans(x: Ctx, ker: seq<Item>, nolook: bool, a: seq<Wset>, b: seq<Wset>, c: seq<Wset>, g: bool, h: bool)
    requires CtxOk(x) && Advanced(x, ker, nolook, a, b, g) && Advanced(x, ker, nolook, b, c, h)
    ensures Advanced(x, ker, nolook, a, c, g || h)
  {
  }

  /** Close entry `u`: everything the entries with its nonterminal imply is entered. */
  method CloseOne(x: Ctx, ghost ker: seq<Item>, nolook: bool, w: seq<Wset>, u: nat) returns (ok: bool, w1: seq<Wset>, grew: bool)
    requires CtxOk(x) && Working(x, ker, nolook, w) && Settled(x, nolook, w) && Orderly(x, |ker|, w) && u < |w| && w[u].flag
    requires x.mem[w[u].pitem] >= NTBASE
    ensures ok ==> Working(x, ker, nolook, w1) && Settled(x, nolook, w1) && Orderly(x, |ker|, w1) && Advanced(x, ker, nolook, w, w1, grew)
    ensures ok ==> !w1[u].flag || grew
    ensures !ok ==> Overflows(x, ker)
  {
    assert EntryOk(x, nolook, w[u]);
    var c := x.mem[w[u].pitem];
    assert CellOk(x, c);
    var cl: set<int>;
    w1, cl := Gather(x, ker, nolook, w, u, c);
    GatherSettles(x, ker, nolook, w, w1, c, cl);
    OrderlyOn(x, |ker|, w, w1);
    var list := x.starts[c - NTBASE];
    grew := false;
    for i := 0 to |list|
      invariant Working(x, ker, nolook, w1) && AllSettledOr(x, nolook, w1, c, cl) && Orderly(x, |ker|, w1)
      invariant Advanced(x, ker, nolook, w, w1, grew)
      invariant !w1[u].flag || grew
      invariant forall k :: 0 <= k < i ==> Holds(w1, list[k], Need(nolook, cl))
    {
      var g: bool;
      ghost var w0 := w1;
      forall k | 0 <= k < i ensures Before(w1, |w1|, list[k]) {
        var v :| HoldsAt(w1, v, list[k], Need(nolook, cl));
        assert w1[v].pitem == list[k];
      }
      ok, w1, g := Enter(x, ker, nolook, w1, list[i], c, i, cl);
      if !ok {
        return;
      }
      EnterSettles(x, nolook, w0, w1, list[i], c, cl, g);
      forall k | 0 <= k < i ensures Holds(w1, list[k], Need(nolook, cl)) {
        HoldsOn(w0, w1, list[k], Need(nolook, cl));
      }
      AdvancedTrans(x, ker, nolook, w, w0, w1, grew, g);
      grew := grew || g;
    }
    AllServed(x, nolook, w1, c, cl);
    ok := true;
  }

  /** One pass over the working set, which may grow as it is walked. */
  method Pass(x: Ctx, ghost ker: seq<Item>, nolook: bool, w: seq<Wset>) returns (ok: bool, w1: seq<Wset>, work: bool)
    requires CtxOk(x) && Working(x, ker, nolook, w) && Settled(x, nolook, w) && Orderly(x, |ker|, w)
    ensures ok ==> Working(x, ker, nolook, w1) && Settled(x, nolook, w1) && Orderly(x, |ker|, w1) && Advanced(x, ker, nolook, w, w1, work)
    ensures ok && !work ==> forall v :: 0 <= v < |w1| ==> !w1[v].flag
    ensures !ok ==> Overflows(x, ker)
  {
    ok, w1, work := true, w, false;
    ghost var bound := if |w| > WSETSIZE then |w| else WSETSIZE;
    assert Better(w, w);
    var u := 0;
    while u < |w1|
      invariant 0 <= u <= |w1| <= bound
      invariant Working(x, ker, nolook, w1) && Settled(x, nolook, w1) && Orderly(x, |ker|, w1) && Advanced(x, ker, nolook, w, w1, work)
      invariant forall v :: 0 <= v < u && w1[v].flag ==> work
      decreases bound - u
    {
      assert EntryOk(x, nolook, w1[u]);
      ghost var w0 := w1;
      if w1[u].flag {
        if x.mem[w1[u].pitem] < NTBASE {
          w1 := w1[u := w1[u].(flag := false)];
          LowerFlag(x, ker, nolook, w0, u);
          OrderlyOn(x, |ker|, w0, w1);
          AdvancedTrans(x, ker, nolook, w, w0, w1, work, false);
        } else {
          var g: bool;
          ok, w1, g := CloseOne(x, ker, nolook, w1, u);
          if !ok {
            return;
          }
          AdvancedTrans(x, ker, nolook, w, w0, w1, work, g);
          work := work || g;
        }
      }
      u := u + 1;
    }
  }

  lemma {:induction false} LowerFlag(x: Ctx, ker: seq<Item>, nolook: bool, w: seq<Wset>, u: int)
    requires CtxOk(x) && Working(x, ker, nolook, w) && Settled(x, nolook, w) && 0 <= u < |w|
    requires EntryOk(x, nolook, w[u]) && x.mem[w[u].pitem] < NTBASE
    ensures var w1 := w[u := w[u].(flag := false)];
      Working(x, ker, nolook, w1) && Settled(x, nolook, w1) && Advanced(x, ker, nolook, w, w1, false)
  {
    var w1 := w[u := w[u].(flag := false)];
    assert forall v :: 0 <= v < |w| ==> w1[v].pitem == w[v].pitem && w1[v].ws == w[v].ws;
    SlackSame(x, w, w1);
    SoundOnSame(x, ker, nolook, w, w1);
    forall v | 0 <= v < |w1| && IsItem(x, w1[v].pitem) && !w1[v].flag ensures Served(x, nolook, w1, w1[v]) {
      if v != u {
        assert Served(x, nolook, w, w[v]);
        ServedOn(x, nolook, w, w1, w[v]);
      }
    }
    forall v | 0 <= v < |w1| ensures EntryOk(x, nolook, w1[v]) {
      assert EntryOk(x, nolook, w[v]);
    }
  }

  /** The lookaheads of the entry that holds item `it`. */
  ghost function LookOf(w: seq<Wset>, it: int): set<int>
    requires it in Items(w)
  {
    var v :| 0 <= v < |w| && w[v].pitem == it;
    w[v].ws
  }

  /** The working set as a family. */
  ghost function FamilyOf(w: seq<Wset>): Family {
    map it | it in Items(w) :: LookOf(w, it)
  }

  lemma {:induction false} FamilyAt(w: seq<Wset>)
    requires Distinct(w)
    ensures FamilyOf(w).Keys == Items(w)
    ensures forall v :: 0 <= v < |w| ==> w[v].pitem in FamilyOf(w) && FamilyOf(w)[w[v].pitem] == w[v].ws
  {
    forall v | 0 <= v < |w| ensures w[v].pitem in Items(w) && LookOf(w, w[v].pitem) == w[v].ws {
      var k :| 0 <= k < |w| && w[k].pitem == w[v].pitem && LookOf(w, w[v].pitem) == w[k].ws;
      assert k == v;
    }
  }

  /** The family `f` is closed, contains the kernel, and lies inside every other such family. */
  ghost predicate LeastFamily(x: Ctx, ker: seq<Item>, f: Family)
    requires CtxOk(x)
  {
    && ClosedFamily(x, f) && KernelIn(ker, f)
    && forall g: Family {:trigger ClosedFamily(x, g)} :: ClosedFamily(x, g) && KernelIn(ker, g) ==>
         forall it :: it in f ==> it in g && f[it] <= g[it]
  }

  ghost predicate LeastItems(x: Ctx, ker: seq<Item>, s: set<int>)
    requires CtxOk(x)
  {
    && ClosedItems(x, s) && KernelItemsIn(ker, s)
    && forall g: set<int> {:trigger ClosedItems(x, g)} :: ClosedItems(x, g) && KernelItemsIn(ker, g) ==> s <= g
  }

  lemma {:induction false} SettledIsClosed(x: Ctx, ker: seq<Item>, w: seq<Wset>)
    requires CtxOk(x) && Working(x, ker, false, w) && Settled(x, false, w)
    requires forall v :: 0 <= v < |w| ==> !w[v].flag
    ensures LeastFamily(x, ker, FamilyOf(w))
  {
    var f := FamilyOf(w);
    FamilyAt(w);
    forall it | it in f ensures IsItem(x, it) && Met(x, f, it) {
      assert it in Items(w);
      var v :| 0 <= v < |w| && w[v].pitem == it;
      assert EntryOk(x, false, w[v]);
      assert Served(x, false, w, w[v]);
      forall s | s in Next(x, it) ensures s in f && Spread(x, it + 1, f[it]) <= f[s] {
        var k :| HoldsAt(w, k, s, Demand(x, false, w[v]));
      }
    }
    forall g: Family | ClosedFamily(x, g) && KernelIn(ker, g) ensures forall it :: it in f ==> it in g && f[it] <= g[it] {
      forall it | it in f ensures it in g && f[it] <= g[it] {
        assert it in Items(w);
        var v :| 0 <= v < |w| && w[v].pitem == it;
      }
    }
  }

  lemma {:induction false} SettledItemsClosed(x: Ctx, ker: seq<Item>, nolook: bool, w: seq<Wset>)
    requires CtxOk(x) && Working(x, ker, nolook, w) && Settled(x, nolook, w)
    requires forall v :: 0 <= v < |w| ==> !w[v].flag
    ensures LeastItems(x, ker, Items(w))
  {
    var s := Items(w);
    forall it | it in s ensures IsItem(x, it) && forall n :: n in Next(x, it) ==> n in s {
      var v :| 0 <= v < |w| && w[v].pitem == it;
      assert EntryOk(x, nolook, w[v]);
      assert Served(x, nolook, w, w[v]);
      forall n | n in Next(x, it) ensures n in s {
        var k :| HoldsAt(w, k, n, Demand(x, nolook, w[v]));
      }
    }
    forall i | 0 <= i < |ker| ensures ker[i].pitem in s {
      assert w[i].pitem == ker[i].pitem;
    }
    forall g: set<int> | ClosedItems(x, g) && KernelItemsIn(ker, g) ensures s <= g {
    }
  }

  /** `closure`: unless the working set overflows, it ends up holding exactly the items implied by the
      kernel, kernel first, the productions of each nonterminal in order, and all flags down; with lookaheads on,
      exactly the implied lookaheads too. */
  method Closure(x: Ctx, ker: seq<Item>, nolook: bool) returns (ok: bool, w: seq<Wset>)
    requires CtxOk(x) && KernelOk(x, ker)
    ensures ok ==> Distinct(w) && |ker| <= |w| && forall v :: 0 <= v < |ker| ==> w[v].pitem == ker[v].pitem && ker[v].look <= w[v].ws
    ensures ok ==> forall v :: 0 <= v < |w| ==> !w[v].flag
    ensures ok ==> LeastItems(x, ker, Items(w))
    ensures ok && !nolook ==> LeastFamily(x, ker, FamilyOf(w))
    ensures ok ==> forall v :: 0 <= v < |w| ==> 0 < w[v].pitem < |x.mem| && (!nolook ==> TokenSet(x, w[v].ws))
    ensures ok ==> |w| == |ker| || |w| < WSETSIZE
    ensures ok ==> Orderly(x, |ker|, w)
    ensures !ok ==> Overflows(x, ker)
  {
    w := seq(|ker|, i requires 0 <= i < |ker| => Wset(ker[i].pitem, true, ker[i].look));
    ghost var w0 := w;
    ghost var bound := if |w| > WSETSIZE then |w| else WSETSIZE;
    KernelWorks(x, ker, nolook, w);
    var work := true;
    while work
      invariant Working(x, ker, nolook, w) && Settled(x, nolook, w) && Orderly(x, |ker|, w) && |w| <= bound
      invariant |w| <= |ker| || |w| < WSETSIZE
      invariant !work ==> forall v :: 0 <= v < |w| ==> !w[v].flag
      decreases bound - |w|, Slack(x, w), work
    {
      ok, w, work := Pass(x, ker, nolook, w);
      if !ok {
        return;
      }
    }
    SettledItemsClosed(x, ker, nolook, w);
    if !nolook {
      SettledIsClosed(x, ker, w);
    }
    assert forall v :: 0 <= v < |w| ==> EntryOk(x, nolook, w[v]);
    ok := true;
  }

  lemma KernelWorks(x: Ctx, ker: seq<Item>, nolook: bool, w: seq<Wset>)
    requires CtxOk(x) && KernelOk(x, ker) && |w| == |ker|
    requires forall i :: 0 <= i < |w| ==> w[i] == Wset(ker[i].pitem, true, ker[i].look)
    ensures Working(x, ker, nolook, w) && Settled(x, nolook, w)
  {
    forall v | 0 <= v < |w| ensures EntryOk(x, nolook, w[v]) {
      assert IsItem(x, ker[v].pitem);
    }
    forall f: Family | ClosedFamily(x, f) && KernelIn(ker, f)
      ensures forall k :: 0 <= k < |w| ==> w[k].pitem in f && w[k].ws <= f[w[k].pitem]
    {
    }
  }

  /** Running with and without lookaheads gives the same items. */
  lemma LeastItemsUnique(x: Ctx, ker: seq<Item>, s: set<int>, t: set<int>)
    requires CtxOk(x) && LeastItems(x, ker, s) && LeastItems(x, ker, t)
    ensures s == t
  {
    assert ClosedItems(x, s) && ClosedItems(x, t);
  }
}
