/**
 The LR(0) automaton and the LR(1) lookaheads of a grammar as mathematics: what a path of
 symbols leads to.  This is the yardstick for the states that yacc generates.
 */
module YaccLr {
  import opened Sets
  import opened YaccClosure
  import opened YaccSizes

  // ----- LR(0) -----

  ghost predicate InAllClosed(x: Ctx, k: set<int>, it: int)
    requires CtxOk(x)
  {
    forall s: set<int> {:trigger ClosedItems(x, s)} :: ClosedItems(x, s) && k <= s ==> it in s
  }

  /** The least set of items that contains `k` and is closed. */
  ghost function Closure0(x: Ctx, k: set<int>): set<int>
    requires CtxOk(x)
  {
    set it | 0 < it < |x.mem| && InAllClosed(x, k, it)
  }

  ghost predicate ItemSet(x: Ctx, k: set<int>) { forall it :: it in k ==> IsItem(x, it) }

  lemma {:induction false} Closure0Closed(x: Ctx, k: set<int>)
    requires CtxOk(x) && ItemSet(x, k)
    ensures ClosedItems(x, Closure0(x, k)) && k <= Closure0(x, k)
    ensures forall s: set<int> {:trigger ClosedItems(x, s)} :: ClosedItems(x, s) && k <= s ==> Closure0(x, k) <= s
  {
    var c := Closure0(x, k);
    forall it | it in c ensures IsItem(x, it) && forall n :: n in Next(x, it) ==> n in c {
      forall n | n in Next(x, it) ensures n in c {
        NextIsItem(x, it, n);
        forall s: set<int> | ClosedItems(x, s) && k <= s ensures n in s {
          assert it in s;
        }
      }
    }
  }

  lemma NextIsItem(x: Ctx, it: int, n: int)
    requires CtxOk(x) && IsItem(x, it) && n in Next(x, it)
    ensures IsItem(x, n)
  {
    assert CellOk(x, x.mem[it]);
  }

  /** `Closure` computes `Closure0` of the kernel's items. */
  lemma {:induction false} LeastItemsIsClosure0(x: Ctx, ker: seq<Item>, s: set<int>)
    requires CtxOk(x) && KernelOk(x, ker) && LeastItems(x, ker, s)
    ensures s == Closure0(x, KerSet(ker))
  {
    var k := KerSet(ker);
    assert forall g: set<int> :: KernelItemsIn(ker, g) <==> k <= g by {
      forall g: set<int> ensures KernelItemsIn(ker, g) <==> k <= g {
        if k <= g {
          forall i | 0 <= i < |ker| ensures ker[i].pitem in g { assert ker[i].pitem in k; }
        }
      }
    }
    Closure0Closed(x, k);
    assert s <= Closure0(x, k) by { assert ClosedItems(x, Closure0(x, k)); }
  }

  ghost function KerSet(ker: seq<Item>): set<int> { set i | 0 <= i < |ker| :: ker[i].pitem }

  ghost function Goto0(x: Ctx, k: set<int>, c: int): set<int>
    requires CtxOk(x)
  {
    set it | it in Closure0(x, k) && x.mem[it] == c :: it + 1
  }

  /** The closure of the kernel fits the working set, which is not checked while the kernel itself is copied. */
  ghost predicate Fits(x: Ctx, k: set<int>)
    requires CtxOk(x)
  {
    |Closure0(x, k)| < WSETSIZE || Closure0(x, k) == k
  }

  lemma {:induction false} KerSetCount(ker: seq<Item>)
    requires forall i, j :: 0 <= i < j < |ker| ==> ker[i].pitem != ker[j].pitem
    ensures |KerSet(ker)| == |ker|
  {
    if ker == [] {
      assert KerSet(ker) == {};
    } else {
      var n := |ker| - 1;
      KerSetCount(ker[..n]);
      assert KerSet(ker) == KerSet(ker[..n]) + {ker[n].pitem};
      assert ker[n].pitem !in KerSet(ker[..n]);
    }
  }

  lemma {:induction false} KerSetIn(x: Ctx, ker: seq<Item>)
    requires CtxOk(x) && KernelOk(x, ker)
    ensures ItemSet(x, KerSet(ker)) && KernelItemsIn(ker, Closure0(x, KerSet(ker))) && ClosedItems(x, Closure0(x, KerSet(ker)))
  {
    var k := KerSet(ker);
    forall it | it in k ensures IsItem(x, it) {
      var i :| 0 <= i < |ker| && ker[i].pitem == it;
    }
    Closure0Closed(x, k);
    forall i | 0 <= i < |ker| ensures ker[i].pitem in Closure0(x, k) {
      assert ker[i].pitem in k;
    }
  }

  /** Overflow means that the closure does not fit, ... */
  lemma {:induction false} OverflowIsUnfit(x: Ctx, ker: seq<Item>)
    requires CtxOk(x) && KernelOk(x, ker) && Overflows(x, ker)
    ensures !Fits(x, KerSet(ker))
  {
    KerSetIn(x, ker);
    KerSetCount(ker);
  }

  /** ... and a working set that did not overflow that it does. */
  lemma {:induction false} ClosedIsFit(x: Ctx, ker: seq<Item>, w: seq<Wset>)
    requires CtxOk(x) && KernelOk(x, ker) && Distinct(w) && LeastItems(x, ker, Items(w)) && (|w| == |ker| || |w| < WSETSIZE)
    ensures Fits(x, KerSet(ker))
  {
    LeastItemsIsClosure0(x, ker, Items(w));
    ItemsCount(w);
    KerSetIn(x, ker);
    KerSetCount(ker);
    if |w| == |ker| {
      Closure0Closed(x, KerSet(ker));
      SameCount(KerSet(ker), Items(w));
    }
  }

  const START := 1

  /** The kernel that the symbols of `path` lead to from the start. */
  ghost function After(x: Ctx, path: seq<int>): set<int>
    requires CtxOk(x)
  {
    if path == [] then {START} else Goto0(x, After(x, path[..|path| - 1]), path[|path| - 1])
  }

  /** yacc makes no goto on the end marker (token 1). */
  ghost predicate PathOk(path: seq<int>) { forall i :: 0 <= i < |path| ==> path[i] > 1 }

  lemma AfterStep(x: Ctx, path: seq<int>, c: int)
    requires CtxOk(x)
    ensures After(x, path + [c]) == Goto0(x, After(x, path), c)
  {
    assert (path + [c])[..|path|] == path;
  }

  lemma {:induction false} GotoIsItemSet(x: Ctx, k: set<int>, c: int)
    requires CtxOk(x) && c > 0
    ensures ItemSet(x, Goto0(x, k, c))
    ensures forall it :: it in Goto0(x, k, c) ==> it >= 2 && x.mem[it - 1] == c
  {
  }

  lemma {:induction false} AfterIsItemSet(x: Ctx, path: seq<int>)
    requires CtxOk(x) && PathOk(path) && IsItem(x, START)
    ensures ItemSet(x, After(x, path))
  {
    if path != [] {
      GotoIsItemSet(x, After(x, path[..|path| - 1]), path[|path| - 1]);
    }
  }

  // ----- LR(1) -----

  ghost predicate FamIn(k: Family, f: Family) {
    forall it :: it in k ==> it in f && k[it] <= f[it]
  }

  ghost predicate ItemInLeast(x: Ctx, k: Family, it: int)
    requires CtxOk(x)
  {
    forall f: Family {:trigger ClosedFamily(x, f)} :: ClosedFamily(x, f) && FamIn(k, f) ==> it in f
  }

  ghost predicate InLeast(x: Ctx, k: Family, it: int, t: int)
    requires CtxOk(x)
  {
    forall f: Family {:trigger ClosedFamily(x, f)} :: ClosedFamily(x, f) && FamIn(k, f) ==> it in f && t in f[it]
  }

  ghost function Looks(x: Ctx, k: Family, it: int): set<int>
    requires CtxOk(x)
  {
    set t | 1 <= t <= x.ntokens && InLeast(x, k, it, t)
  }

  /** The least closed family that contains `k`. */
  ghost function LeastFam(x: Ctx, k: Family): Family
    requires CtxOk(x)
  {
    map it | 0 < it < |x.mem| && ItemInLeast(x, k, it) :: Looks(x, k, it)
  }

  ghost predicate FamOk(x: Ctx, k: Family) {
    forall it :: it in k ==> IsItem(x, it) && TokenSet(x, k[it])
  }

  lemma {:induction false} LeastFamHas(x: Ctx, k: Family)
    requires CtxOk(x) && FamOk(x, k)
    ensures FamIn(k, LeastFam(x, k)) && FamOk(x, LeastFam(x, k))
  {
    forall it | it in k ensures it in LeastFam(x, k) && k[it] <= LeastFam(x, k)[it] {
      assert ItemInLeast(x, k, it);
      forall t | t in k[it] ensures InLeast(x, k, it, t) {
      }
    }
  }

  lemma {:induction false} LeastFamClosed(x: Ctx, k: Family)
    requires CtxOk(x) && FamOk(x, k)
    ensures ClosedFamily(x, LeastFam(x, k)) && FamIn(k, LeastFam(x, k)) && FamOk(x, LeastFam(x, k))
  {
    var l := LeastFam(x, k);
    LeastFamHas(x, k);
    forall it | it in l ensures IsItem(x, it) && Met(x, l, it) {
      forall s | s in Next(x, it) ensures s in l && Spread(x, it + 1, l[it]) <= l[s] {
        LeastFamStep(x, k, it, s);
      }
    }
  }

  lemma {:induction false} LeastFamStep(x: Ctx, k: Family, it: int, s: int)
    requires CtxOk(x) && it in LeastFam(x, k) && s in Next(x, it)
    ensures s in LeastFam(x, k) && Spread(x, it + 1, LeastFam(x, k)[it]) <= LeastFam(x, k)[s]
  {
    var l := LeastFam(x, k);
    NextIsItem(x, it, s);
    forall f: Family | ClosedFamily(x, f) && FamIn(k, f) ensures s in f {
      assert it in f && Met(x, f, it);
    }
    SpreadTokens(x, it + 1, l[it]);
    forall t | t in Spread(x, it + 1, l[it]) ensures t in l[s] {
      forall f: Family | ClosedFamily(x, f) && FamIn(k, f) ensures s in f && t in f[s] {
        assert it in f && Met(x, f, it);
        assert l[it] <= f[it];
        SpreadMonotone(x, it + 1, l[it], f[it]);
      }
    }
  }

  /** Forgetting lookaheads turns the least closed family into the least closed item set. */
  lemma {:induction false} LeastFamItems(x: Ctx, k: Family)
    requires CtxOk(x) && FamOk(x, k)
    ensures LeastFam(x, k).Keys == Closure0(x, k.Keys)
  {
    var l := LeastFam(x, k);
    LeastFamClosed(x, k);
    forall it | it in l.Keys ensures IsItem(x, it) && forall n :: n in Next(x, it) ==> n in l.Keys {
      assert Met(x, l, it);
    }
    assert ClosedItems(x, l.Keys) && k.Keys <= l.Keys;
    Closure0Closed(x, k.Keys);
    AllTokensClosed(x, Closure0(x, k.Keys));
    var f := AllTokens(x, Closure0(x, k.Keys));
    assert FamIn(k, f);
  }

  ghost function AllTokens(x: Ctx, s: set<int>): Family {
    map it | it in s :: TokenRange(x)
  }

  ghost function TokenRange(x: Ctx): set<int> { set t | 1 <= t <= x.ntokens && TokenSet(x, {t}) }

  lemma {:induction false} AllTokensClosed(x: Ctx, s: set<int>)
    requires CtxOk(x) && ClosedItems(x, s)
    ensures ClosedFamily(x, AllTokens(x, s))
  {
    var f := AllTokens(x, s);
    forall it | it in f ensures IsItem(x, it) && Met(x, f, it) {
      assert it in s;
      forall n | n in Next(x, it) ensures n in f && Spread(x, it + 1, f[it]) <= f[n] {
        SpreadTokens(x, it + 1, f[it]);
      }
    }
  }

  ghost function Advance(x: Ctx, f: Family, c: int): Family
    requires CtxOk(x)
  {
    map j | j in Advanced0(x, f.Keys, c) :: f[j - 1]
  }

  ghost function Advanced0(x: Ctx, s: set<int>, c: int): set<int> {
    set it | it in s && IsItem(x, it) && x.mem[it] == c :: it + 1
  }

  /** The LR(1) kernel that `path` leads to. */
  ghost function Kern1(x: Ctx, path: seq<int>): Family
    requires CtxOk(x)
  {
    if path == [] then map[START := {}]
    else Advance(x, LeastFam(x, Kern1(x, path[..|path| - 1])), path[|path| - 1])
  }

  lemma Kern1Step(x: Ctx, path: seq<int>, c: int)
    requires CtxOk(x)
    ensures Kern1(x, path + [c]) == Advance(x, LeastFam(x, Kern1(x, path)), c)
  {
    assert (path + [c])[..|path|] == path;
  }

  /** The LR(1) kernel of a path is its LR(0) kernel with lookaheads. */
  lemma {:induction false} Kern1Items(x: Ctx, path: seq<int>)
    requires CtxOk(x) && PathOk(path) && IsItem(x, START)
    ensures Kern1(x, path).Keys == After(x, path) && FamOk(x, Kern1(x, path))
  {
    if path != [] {
      var p, c := path[..|path| - 1], path[|path| - 1];
      Kern1Items(x, p);
      LeastFamItems(x, Kern1(x, p));
      LeastFamHas(x, Kern1(x, p));
      AdvanceOk(x, LeastFam(x, Kern1(x, p)), c);
      assert Goto0(x, After(x, p), c) == Advanced0(x, Closure0(x, After(x, p)), c);
    }
  }

  lemma {:induction false} AdvanceOk(x: Ctx, f: Family, c: int)
    requires CtxOk(x) && FamOk(x, f) && c > 0
    ensures FamOk(x, Advance(x, f, c)) && Advance(x, f, c).Keys == Advanced0(x, f.Keys, c)
  {
  }

  /** A lookahead is justified when some path to the kernel gives it in the LR(1) automaton. */
  ghost predicate JustifiedBy(x: Ctx, k: set<int>, it: int, t: int, path: seq<int>)
    requires CtxOk(x)
  {
    && PathOk(path) && After(x, path) == k
    && it in Kern1(x, path) && t in Kern1(x, path)[it]
  }

  ghost predicate Justified(x: Ctx, k: set<int>, it: int, t: int)
    requires CtxOk(x)
  {
    exists path :: JustifiedBy(x, k, it, t, path)
  }

  ghost predicate KernelJustified(x: Ctx, ker: seq<Item>)
    requires CtxOk(x)
  {
    forall i, t :: 0 <= i < |ker| && t in ker[i].look ==> Justified(x, KerSet(ker), ker[i].pitem, t)
  }

  // ----- the step of the generator is justified -----

  /** `t` is a lookahead of closure item `it` along some path to the kernel `k`. */
  ghost predicate ClosedBy(x: Ctx, k: set<int>, it: int, t: int, path: seq<int>)
    requires CtxOk(x)
  {
    && PathOk(path) && After(x, path) == k
    && it in LeastFam(x, Kern1(x, path)) && t in LeastFam(x, Kern1(x, path))[it]
  }

  ghost predicate ClosedBySome(x: Ctx, k: set<int>, it: int, t: int)
    requires CtxOk(x)
  {
    exists path :: ClosedBy(x, k, it, t, path)
  }

  ghost function PathLooks(x: Ctx, k: set<int>, it: int): set<int>
    requires CtxOk(x)
  {
    set t | 1 <= t <= x.ntokens && ClosedBySome(x, k, it, t)
  }

  ghost function PathFam(x: Ctx, k: set<int>): Family
    requires CtxOk(x)
  {
    map it | it in Closure0(x, k) :: PathLooks(x, k, it)
  }

  lemma {:induction false} SpreadLinear(x: Ctx, k: int, l: set<int>, t: int)
    requires CtxOk(x) && 0 <= k < |x.mem| && t in Spread(x, k, l)
    ensures t in Spread(x, k, {}) || (t in l && t in Spread(x, k, {t}))
    decreases |x.mem| - k
  {
    if x.mem[k] >= NTBASE {
      assert CellOk(x, x.mem[k]);
      if t !in x.pfirst[x.mem[k] - NTBASE] {
        SpreadLinear(x, k + 1, l, t);
      }
    }
  }

  lemma {:induction false} PathFamClosed(x: Ctx, k: set<int>, path: seq<int>)
    requires CtxOk(x) && IsItem(x, START) && PathOk(path) && After(x, path) == k
    ensures ClosedFamily(x, PathFam(x, k))
  {
    var f := PathFam(x, k);
    AfterIsItemSet(x, path);
    Closure0Closed(x, k);
    forall it | it in f ensures IsItem(x, it) && Met(x, f, it) {
      forall s | s in Next(x, it) ensures s in f && Spread(x, it + 1, f[it]) <= f[s] {
        SpreadTokens(x, it + 1, f[it]);
        forall t | t in Spread(x, it + 1, f[it]) ensures t in f[s] {
          PathFamStep(x, k, path, it, s, t);
        }
      }
    }
  }

  lemma {:induction false} PathFamStep(x: Ctx, k: set<int>, path: seq<int>, it: int, s: int, t: int)
    requires CtxOk(x) && IsItem(x, START) && PathOk(path) && After(x, path) == k
    requires it in PathFam(x, k) && IsItem(x, it) && s in Next(x, it) && t in Spread(x, it + 1, PathFam(x, k)[it])
    ensures ClosedBySome(x, k, s, t)
  {
    var l := PathFam(x, k)[it];
    SpreadLinear(x, it + 1, l, t);
    if t in Spread(x, it + 1, {}) {
      Kern1Items(x, path);
      LeastFamItems(x, Kern1(x, path));
      PassOn(x, k, it, s, t, path, {});
    } else {
      var p :| ClosedBy(x, k, it, t, p);
      PassOn(x, k, it, s, t, p, {t});
    }
  }

  lemma {:induction false} PassOn(x: Ctx, k: set<int>, it: int, s: int, t: int, path: seq<int>, l: set<int>)
    requires CtxOk(x) && IsItem(x, START) && PathOk(path) && After(x, path) == k
    requires it in LeastFam(x, Kern1(x, path)) && l <= LeastFam(x, Kern1(x, path))[it]
    requires s in Next(x, it) && t in Spread(x, it + 1, l)
    ensures ClosedBySome(x, k, s, t)
  {
    var m := LeastFam(x, Kern1(x, path));
    LeastFamStep(x, Kern1(x, path), it, s);
    SpreadMonotone(x, it + 1, l, m[it]);
    assert ClosedBy(x, k, s, t, path);
  }

  /** If every lookahead of the kernel is justified, so is every lookahead of its closure. */
  lemma {:induction false} ClosureJustified(x: Ctx, ker: seq<Item>, f: Family, path: seq<int>)
    requires CtxOk(x) && IsItem(x, START) && KernelOk(x, ker) && KernelJustified(x, ker)
    requires PathOk(path) && After(x, path) == KerSet(ker)
    requires LeastFamily(x, ker, f)
    ensures forall it, t :: it in f && t in f[it] ==> ClosedBySome(x, KerSet(ker), it, t)
  {
    var k := KerSet(ker);
    var g := PathFam(x, k);
    PathFamClosed(x, k, path);
    AfterIsItemSet(x, path);
    Closure0Closed(x, k);
    forall i | 0 <= i < |ker| ensures ker[i].pitem in g && ker[i].look <= g[ker[i].pitem] {
      assert ker[i].pitem in k;
      forall t | t in ker[i].look ensures t in g[ker[i].pitem] {
        var p :| JustifiedBy(x, k, ker[i].pitem, t, p);
        Kern1Items(x, p);
        LeastFamClosed(x, Kern1(x, p));
        assert ClosedBy(x, k, ker[i].pitem, t, p);
      }
    }
    assert ClosedFamily(x, g) && KernelIn(ker, g);
  }

  /** A lookahead carried over a symbol by a goto is justified in the kernel reached. */
  lemma {:induction false} GotoJustified(x: Ctx, k: set<int>, it: int, t: int, c: int)
    requires CtxOk(x) && ClosedBySome(x, k, it, t) && IsItem(x, it) && x.mem[it] == c && c > 1
    ensures Justified(x, Goto0(x, k, c), it + 1, t)
  {
    var p :| ClosedBy(x, k, it, t, p);
    AfterStep(x, p, c);
    Kern1Step(x, p, c);
    assert it + 1 in Kern1(x, p + [c]);
    assert JustifiedBy(x, Goto0(x, k, c), it + 1, t, p + [c]);
  }
}
