/**
 A grammar for which `stagen` does not find every lookahead: S is 'a' S 'b' or nothing.  The state after
 'a' gains 'b' from itself, and then the empty production takes away the mark that it must be done
 again, so 'b' is never sent on to the state after 'a' S.
 */
module YaccLostMark {
  import opened YaccClosure
  import opened YaccLr
  import opened YaccSizes
  import opened YaccStates
  import opened YaccTurns
  import opened YaccLalr
  import G = YaccGrammar
  import V = YaccViable

  const A := 3
  const B := 4
  const S := NTBASE + 1

  function Nested(): G.Grammar {
    G.Grammar([NTBASE, S, 1, 0, S, A, S, B, -1, S, -2], [0, 4, 9, 11], 4, 1)
  }

  /** The tables for that grammar, as far as they matter. */
  ghost predicate Tables(x: Ctx) {
    && CtxOk(x) && x.mem == [NTBASE, S, 1, 0, S, A, S, B, -1, S, -2] && |x.starts| == 2 && x.ntokens == 4
    && (forall it :: it in x.starts[0] <==> it == 1) && (forall it :: it in x.starts[1] <==> it == 5 || it == 10)
    && V.Ascends(x.starts[1])
  }

  lemma {:induction false} NestedTables(x: Ctx)
    requires V.ContextOf(Nested(), x)
    ensures Tables(x)
  {
    var g := Nested();
    NestedProds();
    forall c, it | 0 <= c <= 1 ensures it in x.starts[c] <==> (c == 0 && it == 1) || (c == 1 && (it == 5 || it == 10)) {
      assert V.StartOk(g, x, c, it);
      if c == 0 && it == 1 {
        assert V.StartsProd(g, c, it, 0);
      }
      if c == 1 && it == 5 {
        assert V.StartsProd(g, c, it, 1);
      }
      if c == 1 && it == 10 {
        assert V.StartsProd(g, c, it, 2);
      }
    }
  }

  lemma {:induction false} NestedProds()
    ensures var g := Nested();
      && G.Wf(g) && G.Lhs(g, 0) == NTBASE && G.Lhs(g, 1) == S && G.Lhs(g, 2) == S
      && g.prdptr[0] == 0 && g.prdptr[1] == 4 && g.prdptr[2] == 9
  {
    var g := Nested();
    assert g.prdptr[1] == 4 && g.prdptr[2] == 9 && g.prdptr[3] == 11;
    assert G.ProdOk(g, 0) && G.ProdOk(g, 1) && G.ProdOk(g, 2);
  }

  // ----- the LR(0) automaton -----

  lemma {:induction false} ClosureIs(x: Ctx, k: set<int>, full: set<int>)
    requires Tables(x) && k <= full && ClosedItems(x, full) && ItemSet(x, k)
    requires forall s: set<int> {:trigger ClosedItems(x, s)} :: ClosedItems(x, s) && k <= s ==> full <= s
    ensures Closure0(x, k) == full
  {
    Closure0Closed(x, k);
  }

  lemma {:induction false} NextOf(x: Ctx, it: int)
    requires Tables(x) && IsItem(x, it)
    ensures forall n :: n in Next(x, it) <==> (it == 1 || it == 4 || it == 6 || it == 9) && (n == 5 || n == 10)
  {
  }

  lemma {:induction false} OpenClosure(x: Ctx, it: int)
    requires Tables(x) && (it == 1 || it == 6)
    ensures Closure0(x, {it}) == {it, 5, 10}
  {
    var full := {it, 5, 10};
    NextOf(x, it);
    NextOf(x, 5);
    NextOf(x, 10);
    assert ClosedItems(x, full);
    forall s: set<int> | ClosedItems(x, s) && {it} <= s ensures full <= s {
      assert it in s;
      assert 5 in Next(x, it) && 10 in Next(x, it);
    }
    ClosureIs(x, {it}, full);
  }

  lemma {:induction false} ShutClosure(x: Ctx, it: int)
    requires Tables(x) && (it == 2 || it == 7 || it == 8)
    ensures Closure0(x, {it}) == {it}
  {
    NextOf(x, it);
    assert ClosedItems(x, {it});
    ClosureIs(x, {it}, {it});
  }

  ghost predicate Known(k: set<int>) { k == {} || k == {1} || k == {2} || k == {6} || k == {7} || k == {8} }

  lemma {:induction false} GotoKnown(x: Ctx, k: set<int>, c: int)
    requires Tables(x) && Known(k) && c > 1
    ensures Goto0(x, k, c) ==
      if k == {1} && c == S then {2} else if (k == {1} || k == {6}) && c == A then {6}
      else if k == {6} && c == S then {7} else if k == {7} && c == B then {8} else {}
  {
    if k == {1} {
      OpenClosure(x, 1);
    } else if k == {6} {
      OpenClosure(x, 6);
    } else if k == {2} {
      ShutClosure(x, 2);
    } else if k == {7} {
      ShutClosure(x, 7);
    } else if k == {8} {
      ShutClosure(x, 8);
    } else {
      EmptyGoesNowhere(x, c);
    }
  }

  lemma {:induction false} PathKnown(x: Ctx, path: seq<int>)
    requires Tables(x) && PathOk(path)
    ensures Known(After(x, path))
  {
    if path != [] {
      PathKnown(x, path[..|path| - 1]);
      GotoKnown(x, After(x, path[..|path| - 1]), path[|path| - 1]);
    }
  }

  lemma {:induction false} StateKnown(x: Ctx, g: Gen, j: int)
    requires Tables(x) && GenOk(x, g) && 0 <= j < |g.states|
    ensures Known(KerSet(g.states[j])) && KerSet(g.states[j]) != {}
  {
    assert StateOk(x, g, j);
    var path :| PathOk(path) && After(x, path) == KerSet(g.states[j]);
    PathKnown(x, path);
    GoodIsDistinct(x, g, j);
  }

  // ----- the lookaheads in a working set -----

  /** The closure of the start state sends the end marker after 'a'. */
  lemma {:induction false} StartSet(x: Ctx, g: Gen, i: int, w: seq<Wset>, t: int)
    requires Tables(x) && GenOk(x, g) && 0 <= i < |g.states| && KerSet(g.states[i]) == {1} && ClosedSet(x, g.states[i], w)
    ensures InSet(w, 5, t) <==> t == 1
  {
    var ker := g.states[i];
    StartKernel(x, g, i);
    var f: Family := map[1 := {}, 5 := {1}, 10 := {1}];
    NextOf(x, 1);
    NextOf(x, 5);
    NextOf(x, 10);
    assert Spread(x, 2, {}) == {1};
    assert Met(x, f, 1) && Met(x, f, 5) && Met(x, f, 10);
    assert ClosedFamily(x, f) && KernelIn(ker, f);
    ClosesToSet(x, ker, w, 5, t);
    forall h: Family | ClosedFamily(x, h) && KernelIn(ker, h) ensures 5 in h && 1 in h[5] {
      assert ker[0].pitem in h && Met(x, h, 1);
      assert 5 in Next(x, 1) && Spread(x, 2, h[1]) == {1};
    }
  }

  lemma {:induction false} StartKernel(x: Ctx, g: Gen, i: int)
    requires Tables(x) && GenOk(x, g) && 0 <= i < |g.states| && KerSet(g.states[i]) == {1}
    ensures g.states[i] == [Item(START, {})]
  {
    assert StateOk(x, g, 0) && StateOk(x, g, i);
    assert g.states[0][0].pitem == START;
    assert KerSet(g.states[0]) == {1};
    OneState(x, g, 0, i, {1});
  }

  lemma {:induction false} OneItem(x: Ctx, g: Gen, i: int, it: int)
    requires GenOk(x, g) && 0 <= i < |g.states| && KerSet(g.states[i]) == {it}
    ensures g.states[i] == [Item(it, g.states[i][0].look)] && TokenSet(x, g.states[i][0].look)
  {
    assert StateOk(x, g, i);
    var ker := g.states[i];
    KerSetCount(ker);
    assert ker[0].pitem in KerSet(ker);
  }

  /** The closure of the state after 'a' sends 'b' after 'a', and its own lookaheads after S. */
  lemma {:induction false} InnerSet(x: Ctx, g: Gen, i: int, w: seq<Wset>, t: int)
    requires Tables(x) && GenOk(x, g) && 0 <= i < |g.states| && KerSet(g.states[i]) == {6} && ClosedSet(x, g.states[i], w)
    ensures InSet(w, 5, t) <==> t == B
    ensures InSet(w, 6, t) <==> HasLook(g.states[i], 6, t)
  {
    var ker := g.states[i];
    OneItem(x, g, i, 6);
    var l := ker[0].look;
    var f: Family := map[6 := l, 5 := {B}, 10 := {B}];
    NextOf(x, 6);
    NextOf(x, 5);
    NextOf(x, 10);
    assert Spread(x, 7, l) == {B};
    assert Met(x, f, 6) && Met(x, f, 5) && Met(x, f, 10);
    assert ClosedFamily(x, f) && KernelIn(ker, f);
    ClosesToSet(x, ker, w, 5, t);
    ClosesToSet(x, ker, w, 6, t);
    InnerLeast(x, ker);
    if HasLook(ker, 6, t) {
      forall h: Family | ClosedFamily(x, h) && KernelIn(ker, h) ensures 6 in h && t in h[6] {
        assert ker[0].pitem in h && ker[0].look <= h[6];
      }
    }
  }

  lemma {:induction false} InnerLeast(x: Ctx, ker: seq<Item>)
    requires Tables(x) && |ker| == 1 && ker[0].pitem == 6
    ensures ClosesTo(x, ker, 5, B)
  {
    NextOf(x, 6);
    forall h: Family | ClosedFamily(x, h) && KernelIn(ker, h) ensures 5 in h && B in h[5] {
      assert ker[0].pitem in h && Met(x, h, 6);
      assert 5 in Next(x, 6) && Spread(x, 7, h[6]) == {B};
    }
  }

  // ----- what every turn keeps -----

  ghost predicate Kept6(g: Gen, j: int)
    requires 0 <= j < |g.states| == |g.tystate|
  {
    KerSet(g.states[j]) == {6} ==> HasLook(g.states[j], 6, 1) && (g.tystate[j] == MUSTDO ==> forall t :: HasLook(g.states[j], 6, t) ==> t == 1)
  }

  ghost predicate Kept7(g: Gen, j: int)
    requires 0 <= j < |g.states|
  {
    KerSet(g.states[j]) == {7} ==> forall t :: HasLook(g.states[j], 7, t) ==> t == 1
  }

  /** The state after 'a' has only the end marker as long as it must be done, and the state after 'a' S never gets another. */
  ghost predicate NoB(x: Ctx, g: Gen) {
    && GenOk(x, g)
    && (forall j {:trigger Kept6(g, j)} :: 0 <= j < |g.states| ==> Kept6(g, j))
    && (forall j {:trigger Kept7(g, j)} :: 0 <= j < |g.states| ==> Kept7(g, j))
  }

  lemma {:induction false} TurnKeeps7(x: Ctx, g: Gen, h: Gen, i: int, w: seq<Wset>, j: int)
    requires Tables(x) && TurnBy(x, g, h, i, w) && NoB(x, g) && 0 <= j < |h.states|
    ensures Kept7(h, j)
  {
    var k := KerSet(g.states[i]);
    assert Received(x, g, h, k, w, j);
    if KerSet(h.states[j]) == {7} {
      forall t | HasLook(h.states[j], 7, t) ensures t == 1 {
        if j < |g.states| && HasLook(g.states[j], 7, t) {
          SameItemsSameSet(g.states[j], h.states[j]);
          assert Kept7(g, j);
        } else {
          assert Sends(x, k, w, {7}, 7, t);
          StateKnown(x, g, i);
          GotoKnown(x, k, S);
          assert k == {6};
          InnerSet(x, g, i, w, t);
          assert Kept6(g, i);
        }
      }
    }
  }

  lemma {:induction false} OnlyOverA(x: Ctx, k: set<int>, c: int)
    requires Tables(x) && Known(k) && c > 1
    ensures Goto0(x, k, c) == {6} <==> c == A && (k == {1} || k == {6})
  {
    GotoKnown(x, k, c);
  }

  lemma {:induction false} CellA(x: Ctx, it: int)
    requires Tables(x) && IsItem(x, it)
    ensures x.mem[it] == A <==> it == 5
  {
  }

  /** What comes to the state after 'a' comes from the start state or from itself. */
  lemma {:induction false} SendsAfterA(x: Ctx, g: Gen, i: int, w: seq<Wset>, k: set<int>, it: int, t: int)
    requires Tables(x) && GenOk(x, g) && 0 <= i < |g.states| && ClosedSet(x, g.states[i], w) && k == KerSet(g.states[i])
    ensures Sends(x, k, w, {6}, it, t) <==> it == 6 && ((k == {1} && t == 1) || (k == {6} && t == B))
  {
    StateKnown(x, g, i);
    if k == {1} {
      StartSet(x, g, i, w, t);
    } else if k == {6} {
      InnerSet(x, g, i, w, t);
    }
    if IsItem(x, it - 1) && x.mem[it - 1] > 1 {
      CellA(x, it - 1);
      OnlyOverA(x, k, x.mem[it - 1]);
    }
  }

  /** In the closure of the state after 'a' the empty production comes after the other. */
  lemma {:induction false} EmptyIsLater(x: Ctx, ker: seq<Item>, w: seq<Wset>, p: int) returns (q: int)
    requires Tables(x) && ClosedSet(x, ker, w) && KerSet(ker) == {6} && |ker| == 1 && KernelOk(x, ker)
    requires 0 <= p < |w| && w[p].pitem == 5
    ensures p < q && Reduces(x, ker, w, q)
  {
    OpenClosure(x, 6);
    LeastItemsIsClosure0(x, ker, Items(w));
    assert 10 in Items(w);
    q :| 0 <= q < |w| && w[q].pitem == 10;
    assert ker[0].pitem in KerSet(ker) && w[0].pitem == 6;
    assert SomeTurn(x, w, q);
    var c, j :| InTurn(x, w, q, c, j);
    assert x.starts[c][j] in x.starts[c];
    assert c == 1 && 5 in x.starts[1];
    var n :| 0 <= n < |x.starts[1]| && x.starts[1][n] == 5;
    assert n < j;
    assert Before(w, q, x.starts[c][n]);
    var u :| 0 <= u < q && w[u].pitem == 5;
    assert u == p;
  }

  /** In its own turn the state after 'a' loses the mark. */
  lemma {:induction false} MarkIsLost(x: Ctx, g: Gen, h: Gen, i: int, w: seq<Wset>)
    requires Tables(x) && TurnBy(x, g, h, i, w) && KerSet(g.states[i]) == {6} && h.states[i] != g.states[i]
    ensures h.tystate[i] != MUSTDO
  {
    var ker := g.states[i];
    OneItem(x, g, i, 6);
    assert StateOk(x, g, i);
    GainsInTurn(x, g, h, i, w);
    var p :| SelfGain(x, ker, w, p);
    GainAtA(x, g, i, w, p);
    var q := EmptyIsLater(x, ker, w, p);
    LostExactly(x, g, h, i, w);
  }

  lemma {:induction false} GainAtA(x: Ctx, g: Gen, i: int, w: seq<Wset>, p: int)
    requires Tables(x) && GenOk(x, g) && 0 <= i < |g.states| && ClosedSet(x, g.states[i], w) && KerSet(g.states[i]) == {6}
    requires SelfGain(x, g.states[i], w, p)
    ensures w[p].pitem == 5
  {
    var it, t :| Sends(x, {6}, w, {6}, it, t) && x.mem[it - 1] == x.mem[w[p].pitem];
    SendsAfterA(x, g, i, w, {6}, it, t);
    CellA(x, w[p].pitem);
  }

  lemma {:induction false} TurnKeeps6(x: Ctx, g: Gen, h: Gen, i: int, w: seq<Wset>, j: int)
    requires Tables(x) && TurnBy(x, g, h, i, w) && NoB(x, g) && 0 <= j < |h.states| && KerSet(h.states[j]) == {6}
    ensures Kept6(h, j)
  {
    var k := KerSet(g.states[i]);
    assert Received(x, g, h, k, w, j);
    if j < |g.states| {
      SameItemsSameSet(g.states[j], h.states[j]);
      assert Kept6(g, j);
      if j == i {
        if h.states[i] != g.states[i] {
          MarkIsLost(x, g, h, i, w);
        }
      } else {
        OtherUnchanged(x, g, h, i, w, j);
        assert Typed(g, h, j);
      }
    } else {
      NewFromStart(x, g, h, i, w, j);
    }
  }

  lemma {:induction false} OtherUnchanged(x: Ctx, g: Gen, h: Gen, i: int, w: seq<Wset>, j: int)
    requires Tables(x) && TurnBy(x, g, h, i, w) && 0 <= j < |g.states| && j != i && KerSet(g.states[j]) == KerSet(h.states[j]) == {6}
    requires HasLook(g.states[j], 6, 1)
    ensures h.states[j] == g.states[j]
  {
    var k := KerSet(g.states[i]);
    assert Received(x, g, h, k, w, j);
    ChangedGains(x, g, h, j);
    if k == {6} {
      OneState(x, g, i, j, {6});
    }
    forall it, t | HasLook(h.states[j], it, t) ensures HasLook(g.states[j], it, t) {
      SendsAfterA(x, g, i, w, k, it, t);
    }
  }

  lemma {:induction false} NewFromStart(x: Ctx, g: Gen, h: Gen, i: int, w: seq<Wset>, j: int)
    requires Tables(x) && TurnBy(x, g, h, i, w) && |g.states| <= j < |h.states| && KerSet(h.states[j]) == {6}
    ensures forall t :: HasLook(h.states[j], 6, t) <==> t == 1
  {
    var k := KerSet(g.states[i]);
    assert Received(x, g, h, k, w, j);
    var c :| c > 1 && {6} == Goto0(x, k, c);
    StateKnown(x, g, i);
    GotoKnown(x, k, c);
    if k == {6} {
      SameItemsSameSet(g.states[i], h.states[i]);
      OneState(x, h, i, j, {6});
    }
    forall t ensures HasLook(h.states[j], 6, t) <==> t == 1 {
      SendsAfterA(x, g, i, w, k, 6, t);
    }
  }

  lemma {:induction false} TurnKeepsNoB(x: Ctx, g: Gen, h: Gen)
    requires Tables(x) && NoB(x, g) && Turn(x, g, h)
    ensures NoB(x, h)
  {
    var i, w :| TurnBy(x, g, h, i, w);
    forall j | 0 <= j < |h.states| ensures Kept6(h, j) && Kept7(h, j) {
      if KerSet(h.states[j]) == {6} {
        TurnKeeps6(x, g, h, i, w, j);
      }
      TurnKeeps7(x, g, h, i, w, j);
    }
  }

  lemma {:induction false} RunKeepsNoB(x: Ctx, gs: seq<Gen>, n: nat)
    requires Tables(x) && Run(x, gs) && n < |gs|
    ensures NoB(x, gs[n])
  {
    if n == 0 {
      StartHasNoB(x);
    } else {
      RunKeepsNoB(x, gs, n - 1);
      assert TurnAt(x, gs, n - 1);
      TurnKeepsNoB(x, gs[n - 1], gs[n]);
    }
  }

  lemma {:induction false} StartHasNoB(x: Ctx)
    requires Tables(x) && GenOk(x, Start(x))
    ensures NoB(x, Start(x))
  {
    var g := Start(x);
    assert g.states[0][0].pitem == START;
    assert START in KerSet(g.states[0]);
  }

  // ----- the lookahead is missing -----

  /** In the LR(1) automaton 'b' follows 'a' S: after 'a' 'a' S it does. */
  lemma {:induction false} BIsJustified(x: Ctx)
    requires Tables(x)
    ensures Justified(x, {7}, 7, B)
  {
    var p1, p2, p3 := [A], [A, A], [A, A, S];
    assert p1 == [] + [A] && p2 == p1 + [A] && p3 == p2 + [S];
    AfterStep(x, [], A);
    AfterStep(x, p1, A);
    AfterStep(x, p2, S);
    GotoKnown(x, {1}, A);
    GotoKnown(x, {6}, A);
    GotoKnown(x, {6}, S);
    assert After(x, p1) == {6} && After(x, p2) == {6} && After(x, p3) == {7};
    CarriesB(x, p1);
    CarriesOn(x, p2);
    assert JustifiedBy(x, {7}, 7, B, p3);
  }

  lemma {:induction false} AdvanceHas(x: Ctx, f: Family, c: int, it: int, t: int)
    requires CtxOk(x) && it in f && IsItem(x, it) && x.mem[it] == c && t in f[it]
    ensures it + 1 in Advance(x, f, c) && t in Advance(x, f, c)[it + 1]
  {
    assert it + 1 in Advanced0(x, f.Keys, c);
  }

  lemma {:induction false} CarriesB(x: Ctx, p: seq<int>)
    requires Tables(x) && PathOk(p) && After(x, p) == {6}
    ensures 6 in Kern1(x, p + [A]) && B in Kern1(x, p + [A])[6]
  {
    var k := Kern1(x, p);
    Kern1Items(x, p);
    LeastFamHas(x, k);
    Kern1Step(x, p, A);
    NextOf(x, 6);
    LeastFamStep(x, k, 6, 5);
    assert B in Spread(x, 7, LeastFam(x, k)[6]);
    AdvanceHas(x, LeastFam(x, k), A, 5, B);
  }

  lemma {:induction false} CarriesOn(x: Ctx, p: seq<int>)
    requires Tables(x) && PathOk(p) && After(x, p) == {6} && 6 in Kern1(x, p) && B in Kern1(x, p)[6]
    ensures 7 in Kern1(x, p + [S]) && B in Kern1(x, p + [S])[7]
  {
    Kern1Items(x, p);
    Kern1Step(x, p, S);
    KernelCarried(x, Kern1(x, p));
  }

  lemma {:induction false} KernelCarried(x: Ctx, k: Family)
    requires Tables(x) && FamOk(x, k) && 6 in k && B in k[6]
    ensures 7 in Advance(x, LeastFam(x, k), S) && B in Advance(x, LeastFam(x, k), S)[7]
  {
    LeastFamHas(x, k);
    AdvanceHas(x, LeastFam(x, k), S, 6, B);
  }

  lemma {:induction false} AfterAS(x: Ctx)
    requires Tables(x)
    ensures After(x, [A, S]) == {7}
  {
    assert [A, S] == ([] + [A]) + [S];
    AfterStep(x, [], A);
    AfterStep(x, [A], S);
    GotoKnown(x, {1}, A);
    GotoKnown(x, {6}, S);
    assert After(x, [A]) == {6};
  }

  /** State `j` is the one after 'a' S and lacks the lookahead 'b', although the LR(1) automaton has it. */
  ghost predicate Lacks(x: Ctx, g: Gen, j: int)
    requires CtxOk(x)
  {
    IsState(g, j, After(x, [A, S])) && !HasLook(g.states[j], 7, B) && Justified(x, KerSet(g.states[j]), 7, B)
  }

  /** However `stagen` goes about it, the state after 'a' S ends up without the lookahead 'b', although the LR(1)
      automaton has it. */
  lemma {:induction false} LookaheadIsLost(x: Ctx, g: Gen, j: int)
    requires V.ContextOf(Nested(), x) && Made(x, g) && IsState(g, j, After(x, [A, S]))
    ensures Lacks(x, g, j) && !LalrExact(x, g)
  {
    NestedTables(x);
    AfterAS(x);
    var gs :| Run(x, gs) && EndsIn(gs, g);
    RunKeepsNoB(x, gs, |gs| - 1);
    assert Kept7(g, j);
    BIsJustified(x);
    assert !ExactAt(x, g, j);
  }
}
