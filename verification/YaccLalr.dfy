/**
 When the lookaheads that `stagen` leaves are exactly those of the LR(1) automaton, merged over all
 paths to the same kernel: the LALR(1) lookaheads.
 */
module YaccLalr {
  import opened YaccClosure
  import opened YaccLr
  import opened YaccSizes
  import opened YaccStates
  import opened YaccTurns

  ghost predicate ExactAt(x: Ctx, g: Gen, j: int)
    requires CtxOk(x) && 0 <= j < |g.states|
  {
    forall it, t {:trigger HasLook(g.states[j], it, t)} {:trigger Justified(x, KerSet(g.states[j]), it, t)} ::
      HasLook(g.states[j], it, t) <==> Justified(x, KerSet(g.states[j]), it, t)
  }

  /** Every state has exactly the lookaheads that some path to its kernel has in the LR(1) automaton. */
  ghost predicate LalrExact(x: Ctx, g: Gen)
    requires CtxOk(x)
  {
    forall j {:trigger ExactAt(x, g, j)} :: 0 <= j < |g.states| ==> ExactAt(x, g, j)
  }

  ghost predicate AllPropagated(x: Ctx, g: Gen)
    requires CtxOk(x)
  {
    forall j {:trigger Propagated(x, g, j)} :: 0 <= j < |g.states| ==> Propagated(x, g, j)
  }

  /** State `j` has all the lookaheads of the LR(1) kernel `k`. */
  ghost predicate Covers(g: Gen, j: int, k: Family)
    requires 0 <= j < |g.states|
  {
    forall it, t {:trigger HasLook(g.states[j], it, t)} :: it in k && t in k[it] ==> HasLook(g.states[j], it, t)
  }

  /** What the closure of an LR(1) kernel has, the closure of a state that covers it has. */
  lemma {:induction false} CoversClosed(x: Ctx, g: Gen, j: int, k: Family, it: int, t: int)
    requires CtxOk(x) && 0 <= j < |g.states| && Covers(g, j, k) && k.Keys == KerSet(g.states[j])
    requires it in LeastFam(x, k) && t in LeastFam(x, k)[it]
    ensures ClosesTo(x, g.states[j], it, t)
  {
    var ker := g.states[j];
    forall f: Family | ClosedFamily(x, f) && KernelIn(ker, f) ensures it in f && t in f[it] {
      forall s | s in k ensures s in f && k[s] <= f[s] {
        assert s in KerSet(ker);
        var i :| 0 <= i < |ker| && ker[i].pitem == s;
        forall u | u in k[s] ensures u in f[s] {
          assert HasLook(ker, s, u);
          var m :| 0 <= m < |ker| && ker[m].pitem == s && u in ker[m].look;
        }
      }
      assert InLeast(x, k, it, t) && FamIn(k, f);
    }
  }

  /** If every state has sent on what it has, the LR(1) kernel of any path is covered by the state it leads to. */
  lemma {:induction false} PathCovered(x: Ctx, g: Gen, path: seq<int>, j: int)
    requires GenOk(x, g) && AllPropagated(x, g) && PathOk(path) && IsState(g, j, After(x, path))
    requires forall i {:trigger GotosRegistered(x, g, KerSet(g.states[i]))} :: 0 <= i < |g.states| ==> GotosRegistered(x, g, KerSet(g.states[i]))
    ensures Covers(g, j, Kern1(x, path))
    decreases |path|
  {
    if path != [] {
      var p, c := path[..|path| - 1], path[|path| - 1];
      GoodIsDistinct(x, g, j);
      EmptyGoesNowhere(x, c);
      PathRegistered(x, g, p);
      var i :| IsState(g, i, After(x, p));
      PathCovered(x, g, p, i);
      forall it, t | it in Kern1(x, path) && t in Kern1(x, path)[it] ensures HasLook(g.states[j], it, t) {
        StepCovered(x, g, p, c, i, j, it, t);
      }
    }
  }

  lemma {:induction false} StepCovered(x: Ctx, g: Gen, p: seq<int>, c: int, i: int, j: int, it: int, t: int)
    requires GenOk(x, g) && AllPropagated(x, g) && PathOk(p) && c > 1
    requires IsState(g, i, After(x, p)) && IsState(g, j, Goto0(x, After(x, p), c)) && Covers(g, i, Kern1(x, p))
    requires var k := Advance(x, LeastFam(x, Kern1(x, p)), c); it in k && t in k[it]
    ensures HasLook(g.states[j], it, t)
  {
    Kern1Items(x, p);
    CoversClosed(x, g, i, Kern1(x, p), it - 1, t);
    assert Propagated(x, g, i);
    var to := Goto0(x, KerSet(g.states[i]), x.mem[it - 1]);
    assert Arrives(g, to, it, t);
    var r :| IsState(g, r, to) && HasLook(g.states[r], it, t);
    OneState(x, g, r, j, to);
  }

  lemma {:induction false} PropagatedIsExact(x: Ctx, g: Gen, j: int)
    requires GenOk(x, g) && AllPropagated(x, g) && 0 <= j < |g.states|
    requires forall i {:trigger GotosRegistered(x, g, KerSet(g.states[i]))} :: 0 <= i < |g.states| ==> GotosRegistered(x, g, KerSet(g.states[i]))
    ensures ExactAt(x, g, j)
  {
    var ker := g.states[j];
    assert StateOk(x, g, j);
    forall it, t ensures HasLook(ker, it, t) <==> Justified(x, KerSet(ker), it, t) {
      if HasLook(ker, it, t) {
        var k :| 0 <= k < |ker| && ker[k].pitem == it && t in ker[k].look;
        assert Justified(x, KerSet(ker), ker[k].pitem, t);
      }
      if Justified(x, KerSet(ker), it, t) {
        var path :| JustifiedBy(x, KerSet(ker), it, t, path);
        PathCovered(x, g, path, j);
      }
    }
  }

  /** In the LR(1) automaton what the closure has is carried over every symbol, so exact lookaheads have arrived everywhere. */
  lemma {:induction false} ExactIsPropagated(x: Ctx, g: Gen, j: int)
    requires GenOk(x, g) && LalrExact(x, g) && 0 <= j < |g.states| && GotosRegistered(x, g, KerSet(g.states[j]))
    ensures Propagated(x, g, j)
  {
    var ker := g.states[j];
    var k := KerSet(ker);
    assert StateOk(x, g, j);
    var path :| PathOk(path) && After(x, path) == k;
    forall it, t | IsItem(x, it) && x.mem[it] > 1 && ClosesTo(x, ker, it, t) ensures Arrives(g, Goto0(x, k, x.mem[it]), it + 1, t) {
      ClosesToPath(x, ker, path, it, t);
      GotoJustified(x, k, it, t, x.mem[it]);
      var to := Goto0(x, k, x.mem[it]);
      var p :| ClosedBy(x, k, it, t, p);
      Kern1Items(x, p);
      LeastFamItems(x, Kern1(x, p));
      assert it + 1 in to;
      var r :| IsState(g, r, to);
      assert ExactAt(x, g, r);
      assert HasLook(g.states[r], it + 1, t);
    }
  }

  lemma {:induction false} ClosesToPath(x: Ctx, ker: seq<Item>, path: seq<int>, it: int, t: int)
    requires CtxOk(x) && IsItem(x, START) && KernelOk(x, ker) && KernelJustified(x, ker)
    requires PathOk(path) && After(x, path) == KerSet(ker) && ClosesTo(x, ker, it, t)
    ensures ClosedBySome(x, KerSet(ker), it, t)
  {
    var k := KerSet(ker);
    var g := PathFam(x, k);
    PathFamClosed(x, k, path);
    JustifiedIn(x, ker, path);
    assert it in g && t in g[it];
  }

  lemma {:induction false} JustifiedIn(x: Ctx, ker: seq<Item>, path: seq<int>)
    requires CtxOk(x) && IsItem(x, START) && KernelOk(x, ker) && KernelJustified(x, ker)
    requires PathOk(path) && After(x, path) == KerSet(ker)
    ensures KernelIn(ker, PathFam(x, KerSet(ker)))
  {
    var k := KerSet(ker);
    var g := PathFam(x, k);
    AfterIsItemSet(x, path);
    Closure0Closed(x, k);
    forall i | 0 <= i < |ker| ensures ker[i].pitem in g && ker[i].look <= g[ker[i].pitem] {
      assert ker[i].pitem in k;
      forall t | t in ker[i].look ensures t in g[ker[i].pitem] {
        var p :| JustifiedBy(x, k, ker[i].pitem, t, p);
        Kern1Items(x, p);
        LeastFamClosed(x, Kern1(x, p));
        assert ClosedBy(x, k, ker[i].pitem, t, p);
      }
    }
  }

  /** The lookaheads are the LALR(1) lookaheads if and only if every state has sent on all it has. */
  lemma {:induction false} LalrExactly(x: Ctx, g: Gen)
    requires GenOk(x, g)
    requires forall i {:trigger GotosRegistered(x, g, KerSet(g.states[i]))} :: 0 <= i < |g.states| ==> GotosRegistered(x, g, KerSet(g.states[i]))
    ensures LalrExact(x, g) <==> AllPropagated(x, g)
  {
    if AllPropagated(x, g) {
      forall j | 0 <= j < |g.states| ensures ExactAt(x, g, j) {
        PropagatedIsExact(x, g, j);
      }
    }
    if LalrExact(x, g) {
      forall j | 0 <= j < |g.states| ensures Propagated(x, g, j) {
        assert GotosRegistered(x, g, KerSet(g.states[j]));
        ExactIsPropagated(x, g, j);
      }
    }
  }

  // ----- grammars for which no mark can be lost -----

  /** The kernel has a goto to itself. */
  ghost predicate Loops(x: Ctx, k: set<int>)
    requires CtxOk(x)
  {
    exists c {:trigger Goto0(x, k, c)} :: c > 1 && Goto0(x, k, c) == k
  }

  /** The closure has a reduction by an item outside the kernel. */
  ghost predicate Empties(x: Ctx, k: set<int>)
    requires CtxOk(x)
  {
    exists it :: it in Closure0(x, k) && it !in k && x.mem[it] <= 1
  }

  /** No kernel that a path leads to has both. */
  ghost predicate Untangled(x: Ctx)
    requires CtxOk(x)
  {
    forall k: set<int> {:trigger Reached(x, k)} :: Reached(x, k) && k != {} ==> !(Loops(x, k) && Empties(x, k))
  }

  /** A state can lose its mark only if its kernel has a goto to itself and a reduction by an item outside the kernel. */
  lemma {:induction false} LostIsTangled(x: Ctx, g: Gen, j: int)
    requires GenOk(x, g) && 0 <= j < |g.states| && MarkLost(x, g, j)
    ensures Loops(x, KerSet(g.states[j])) && Empties(x, KerSet(g.states[j]))
  {
    var ker: seq<Item>, w: seq<Wset> :| LostIn(x, g, j, ker, w);
    var k := KerSet(ker);
    SameItemsSameSet(ker, g.states[j]);
    var p, q :| p < q && SelfGain(x, ker, w, p) && Reduces(x, ker, w, q);
    var it, t :| Sends(x, k, w, k, it, t);
    assert Goto0(x, k, x.mem[it - 1]) == k;
    assert StateOk(x, g, j);
    LostItems(x, g.states[j], ker, w);
    ReducesOutside(x, ker, w, q);
  }

  lemma {:induction false} ReducesOutside(x: Ctx, ker: seq<Item>, w: seq<Wset>, q: int)
    requires ClosedSet(x, ker, w) && Items(w) == Closure0(x, KerSet(ker)) && Reduces(x, ker, w, q)
    ensures Empties(x, KerSet(ker))
  {
    var r := w[q].pitem;
    assert r in Items(w);
    forall i | 0 <= i < |ker| ensures ker[i].pitem != r {
      assert w[i].pitem == ker[i].pitem;
    }
    assert r !in KerSet(ker);
  }

  lemma {:induction false} LostItems(x: Ctx, a: seq<Item>, ker: seq<Item>, w: seq<Wset>)
    requires CtxOk(x) && KernelOk(x, a) && SameItems(ker, a) && LeastItems(x, ker, Items(w))
    ensures Items(w) == Closure0(x, KerSet(ker))
  {
    SameItemsSameSet(ker, a);
    assert forall s: set<int> :: KernelItemsIn(ker, s) <==> KernelItemsIn(a, s) by {
      forall s: set<int> ensures KernelItemsIn(ker, s) <==> KernelItemsIn(a, s) {
        assert forall i :: 0 <= i < |a| ==> a[i].pitem == ker[i].pitem;
      }
    }
    LeastItemsIsClosure0(x, a, Items(w));
  }

  /** For such a grammar the lookaheads are the LALR(1) lookaheads. */
  lemma {:induction false} UntangledIsExact(x: Ctx, g: Gen)
    requires GenOk(x, g) && SentOn(x, g) && Untangled(x)
    requires forall i {:trigger GotosRegistered(x, g, KerSet(g.states[i]))} :: 0 <= i < |g.states| ==> GotosRegistered(x, g, KerSet(g.states[i]))
    ensures LalrExact(x, g)
  {
    forall j | 0 <= j < |g.states| ensures Propagated(x, g, j) {
      assert StateOk(x, g, j) && Reached(x, KerSet(g.states[j]));
      GoodIsDistinct(x, g, j);
      if MarkLost(x, g, j) {
        LostIsTangled(x, g, j);
      }
    }
    LalrExactly(x, g);
  }

  /** No production is empty or begins with the end marker. */
  ghost predicate NoEmptySides(x: Ctx)
    requires CtxOk(x)
  {
    forall c, i :: 0 <= c < |x.starts| && 0 <= i < |x.starts[c]| ==> x.mem[x.starts[c][i]] > 1
  }

  /** So it is for every grammar without empty productions. */
  lemma {:induction false} NoEmptySidesUntangled(x: Ctx)
    requires CtxOk(x) && IsItem(x, START) && NoEmptySides(x)
    ensures Untangled(x)
  {
    forall k: set<int> | Reached(x, k) && k != {} ensures !Empties(x, k) {
      var path :| PathOk(path) && After(x, path) == k;
      AfterIsItemSet(x, path);
      Closure0Closed(x, k);
      var full := Closure0(x, k);
      var s := set it | it in full && (it in k || x.mem[it] > 1);
      forall it | it in s ensures IsItem(x, it) && forall n :: n in Next(x, it) ==> n in s {
        forall n | n in Next(x, it) ensures n in s {
          assert n in full;
          assert CellOk(x, x.mem[it]);
        }
      }
      assert ClosedItems(x, s) && k <= s;
    }
  }
}
