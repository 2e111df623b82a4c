/**
 What one turn of the main loop of `stagen` does to the lookaheads: a state is closed, and every
 lookahead that its closure carries over a symbol goes to the state of that goto.  A state that
 gains any must be done again, except that a state can lose this mark during its own turn.
 */
module YaccTurns {
  import opened YaccClosure
  import opened YaccLr
  import opened YaccSizes
  import opened YaccStates

  /** Token `t` is a lookahead of item `it` in the working set. */
  ghost predicate InSet(w: seq<Wset>, it: int, t: int) {
    exists v {:trigger w[v]} :: 0 <= v < |w| && w[v].pitem == it && t in w[v].ws
  }

  /** A closed working set of the kernel `ker`: kernel first, then the productions of each nonterminal in order. */
  ghost predicate ClosedSet(x: Ctx, ker: seq<Item>, w: seq<Wset>) {
    && CtxOk(x) && Distinct(w) && LeastItems(x, ker, Items(w)) && LeastFamily(x, ker, FamilyOf(w))
    && (forall v :: 0 <= v < |w| ==> 0 < w[v].pitem < |x.mem| && TokenSet(x, w[v].ws))
    && |ker| <= |w| && (forall v :: 0 <= v < |ker| ==> w[v].pitem == ker[v].pitem)
    && Orderly(x, |ker|, w)
  }

  /** The closure of kernel `k`, which is `w`, carries `t` to item `it` of the kernel `to`. */
  ghost predicate Sends(x: Ctx, k: set<int>, w: seq<Wset>, to: set<int>, it: int, t: int)
    requires CtxOk(x)
  {
    IsItem(x, it - 1) && x.mem[it - 1] > 1 && Goto0(x, k, x.mem[it - 1]) == to && InSet(w, it - 1, t)
  }

  /** Entry `p` is the first with its symbol after the dot, so that the goto is made here. */
  ghost predicate GoesAt(x: Ctx, w: seq<Wset>, p: int) {
    && 0 <= p < |w| && IsItem(x, w[p].pitem) && x.mem[w[p].pitem] > 1
    && forall v :: 0 <= v < p && IsItem(x, w[v].pitem) ==> x.mem[w[v].pitem] != x.mem[w[p].pitem]
  }

  /** The goto made at entry `p` leads from the state to itself, and the state gains a lookahead by it. */
  ghost predicate SelfGain(x: Ctx, ker: seq<Item>, w: seq<Wset>, p: int)
    requires CtxOk(x)
  {
    && GoesAt(x, w, p)
    && exists it, t {:trigger Sends(x, KerSet(ker), w, KerSet(ker), it, t)} ::
         Sends(x, KerSet(ker), w, KerSet(ker), it, t) && x.mem[it - 1] == x.mem[w[p].pitem] && !HasLook(ker, it, t)
  }

  /** Entry `q` is a reduction by an item outside the kernel. */
  ghost predicate Reduces(x: Ctx, ker: seq<Item>, w: seq<Wset>, q: int) {
    |ker| <= q < |w| && IsItem(x, w[q].pitem) && x.mem[w[q].pitem] <= 1
  }

  ghost predicate GainStands(x: Ctx, ker: seq<Item>, w: seq<Wset>, n: int, p: int)
    requires CtxOk(x)
  {
    0 <= p < n && SelfGain(x, ker, w, p) && forall q {:trigger Reduces(x, ker, w, q)} :: p < q < n ==> !Reduces(x, ker, w, q)
  }

  /** The mark of a state after the first `n` entries of its working set: it must be done again exactly if it has gained
      a lookahead from itself and no reduction has come since. */
  ghost predicate MarkAfter(x: Ctx, ker: seq<Item>, w: seq<Wset>, n: int, mark: int)
    requires CtxOk(x)
  {
    && (mark == DONE || mark == MUSTDO || mark == MUSTLOOKAHEAD)
    && (mark == MUSTDO <==> exists p {:trigger GainStands(x, ker, w, n, p)} :: GainStands(x, ker, w, n, p))
    && (mark == DONE <==> forall p {:trigger SelfGain(x, ker, w, p)} {:trigger Reduces(x, ker, w, p)} ::
          0 <= p < n ==> !SelfGain(x, ker, w, p) && !Reduces(x, ker, w, p))
  }

  lemma {:induction false} MarkStep(x: Ctx, ker: seq<Item>, w: seq<Wset>, n: int, m: int, mark: int)
    requires CtxOk(x) && MarkAfter(x, ker, w, n, mark) && 0 <= n && m == n + 1
    ensures SelfGain(x, ker, w, n) ==> MarkAfter(x, ker, w, m, MUSTDO)
    ensures Reduces(x, ker, w, n) ==> MarkAfter(x, ker, w, m, MUSTLOOKAHEAD)
    ensures !SelfGain(x, ker, w, n) && !Reduces(x, ker, w, n) ==> MarkAfter(x, ker, w, m, mark)
  {
    if SelfGain(x, ker, w, n) {
      assert GainStands(x, ker, w, m, n);
    } else if !Reduces(x, ker, w, n) {
      forall p ensures GainStands(x, ker, w, m, p) <==> GainStands(x, ker, w, n, p) {
      }
    }
  }

  // ----- in the middle of a turn -----

  /** State `j` has the lookaheads it had and those sent to it so far over the symbols of `done`; if it is new, it is a goto
      over one of them. */
  ghost predicate Told(x: Ctx, g: Gen, h: Gen, k: set<int>, w: seq<Wset>, done: set<int>, j: int)
    requires CtxOk(x) && 0 <= j < |h.states|
  {
    && (forall it, t {:trigger HasLook(h.states[j], it, t)} {:trigger Sends(x, k, w, KerSet(h.states[j]), it, t)} :: HasLook(h.states[j], it, t) <==>
          (j < |g.states| && HasLook(g.states[j], it, t)) || (Sends(x, k, w, KerSet(h.states[j]), it, t) && x.mem[it - 1] in done))
    && (j >= |g.states| ==> exists c {:trigger Goto0(x, k, c)} :: c in done && KerSet(h.states[j]) == Goto0(x, k, c))
  }

  /** A state other than the one whose turn it is must be done if it is new or has gained a lookahead, else as before. */
  ghost predicate Typed(g: Gen, h: Gen, j: int)
    requires |g.tystate| == |g.states| && 0 <= j < |h.states| == |h.tystate|
  {
    h.tystate[j] == if j < |g.states| && h.states[j] == g.states[j] then g.tystate[j] else MUSTDO
  }

  /** The turn of state `i` after `n` entries of the working set; `g` is what it began with. */
  ghost predicate Midway(x: Ctx, g: Gen, h: Gen, i: int, ker: seq<Item>, w: seq<Wset>, done: set<int>, n: int)
    requires CtxOk(x)
  {
    && |g.tystate| == |g.states| <= |h.states| == |h.tystate| && 0 <= i < |g.states| && g.states[i] == ker
    && (forall j {:trigger Told(x, g, h, KerSet(ker), w, done, j)} :: 0 <= j < |h.states| ==> Told(x, g, h, KerSet(ker), w, done, j))
    && (forall j {:trigger Typed(g, h, j)} :: 0 <= j < |h.states| && j != i ==> Typed(g, h, j))
    && MarkAfter(x, ker, w, n, h.tystate[i])
  }

  /** Gotos over different symbols lead to different kernels. */
  lemma {:induction false} GotoSymbol(x: Ctx, k: set<int>, c: int, d: int)
    requires CtxOk(x) && c > 0 && d > 0 && Goto0(x, k, c) == Goto0(x, k, d) != {}
    ensures c == d
  {
    var it :| it in Goto0(x, k, c);
    GotoIsItemSet(x, k, c);
    GotoIsItemSet(x, k, d);
  }

  lemma {:induction false} OnlyOver(x: Ctx, k: set<int>, c: int, it: int)
    requires CtxOk(x) && c > 1 && Goto0(x, k, c) != {}
    ensures IsItem(x, it) && x.mem[it] > 1 && Goto0(x, k, x.mem[it]) == Goto0(x, k, c) ==> x.mem[it] == c
  {
    if IsItem(x, it) && x.mem[it] > 1 && Goto0(x, k, x.mem[it]) == Goto0(x, k, c) {
      GotoSymbol(x, k, c, x.mem[it]);
    }
  }

  /** The kernel collected over `c` has just the lookaheads that the working set has before `c`. */
  lemma {:induction false} CandLooks(x: Ctx, w: seq<Wset>, c: int, cand: seq<Item>, it: int, t: int)
    requires CtxOk(x) && IsGotoKernel(x, w, c, cand)
    ensures HasLook(cand, it, t) <==> IsItem(x, it - 1) && x.mem[it - 1] == c && InSet(w, it - 1, t)
  {
    if HasLook(cand, it, t) {
      var k :| 0 <= k < |cand| && cand[k].pitem == it && t in cand[k].look;
      assert Carried(x, w, c, cand[k]);
      var v :| CarriedFrom(x, w, c, cand[k], v);
      assert w[v].pitem == it - 1;
    }
    if IsItem(x, it - 1) && x.mem[it - 1] == c && InSet(w, it - 1, t) {
      var v :| 0 <= v < |w| && w[v].pitem == it - 1 && t in w[v].ws;
      var e := Item(w[v].pitem + 1, w[v].ws);
      assert e in cand;
      var k :| 0 <= k < |cand| && cand[k] == e;
      assert cand[k].pitem == it;
    }
  }

  /** State `r` takes the kernel collected over `c`. */
  lemma {:induction false} ToldTaker(x: Ctx, g: Gen, h: Gen, h1: Gen, k: set<int>, w: seq<Wset>, done: set<int>, c: int, cand: seq<Item>, r: int)
    requires CtxOk(x) && c > 1 && c !in done && Goto0(x, k, c) != {} && (forall d :: d in done ==> d > 1)
    requires IsGotoKernel(x, w, c, cand) && |g.states| <= |h.states| <= |h1.states| && Took(h, h1, r, cand)
    requires KerSet(h1.states[r]) == Goto0(x, k, c)
    requires r < |h.states| ==> KerSet(h.states[r]) == KerSet(h1.states[r]) && Told(x, g, h, k, w, done, r)
    ensures Told(x, g, h1, k, w, done + {c}, r)
  {
    var to := KerSet(h1.states[r]);
    forall it, t ensures HasLook(h1.states[r], it, t) <==>
          (r < |g.states| && HasLook(g.states[r], it, t)) || (Sends(x, k, w, to, it, t) && x.mem[it - 1] in done + {c})
    {
      CandLooks(x, w, c, cand, it, t);
      OnlyOver(x, k, c, it - 1);
      assert HasLook(h1.states[r], it, t) <==> (r < |h.states| && HasLook(h.states[r], it, t)) || HasLook(cand, it, t);
    }
    assert c in done + {c} && to == Goto0(x, k, c);
  }

  /** Any other state is sent nothing over `c`. */
  lemma {:induction false} ToldOther(x: Ctx, g: Gen, h: Gen, h1: Gen, k: set<int>, w: seq<Wset>, done: set<int>, c: int, r: int, j: int)
    requires GenOk(x, h1) && 0 <= j < |h.states| && j < |h1.states| && 0 <= r < |h1.states| && j != r
    requires KerSet(h1.states[r]) == Goto0(x, k, c) && h1.states[j] == h.states[j] && Told(x, g, h, k, w, done, j)
    ensures Told(x, g, h1, k, w, done + {c}, j)
  {
    if KerSet(h1.states[j]) == Goto0(x, k, c) {
      OneState(x, h1, j, r, Goto0(x, k, c));
    }
    if j >= |g.states| {
      var d :| d in done && KerSet(h.states[j]) == Goto0(x, k, d);
      assert d in done + {c} && KerSet(h1.states[j]) == Goto0(x, k, d);
    }
  }

  /** Kernels with the same items and lookaheads are the same. */
  lemma {:induction false} SameLooksSame(a: seq<Item>, b: seq<Item>)
    requires SameItems(a, b) && DistinctItems(a) && DistinctItems(b)
    requires forall it, t {:trigger HasLook(a, it, t)} {:trigger HasLook(b, it, t)} :: HasLook(a, it, t) <==> HasLook(b, it, t)
    ensures a == b
  {
    forall k | 0 <= k < |a| ensures a[k] == b[k] {
      var it := a[k].pitem;
      forall t ensures t in a[k].look <==> t in b[k].look {
        LookAt(a, k, t);
        LookAt(b, k, t);
        assert HasLook(a, it, t) <==> HasLook(b, it, t);
      }
    }
  }

  lemma {:induction false} LookAt(a: seq<Item>, k: int, t: int)
    requires DistinctItems(a) && 0 <= k < |a|
    ensures HasLook(a, a[k].pitem, t) <==> t in a[k].look
  {
    if HasLook(a, a[k].pitem, t) {
      var m :| 0 <= m < |a| && a[m].pitem == a[k].pitem && t in a[m].look;
      assert m == k;
    }
  }

  lemma {:induction false} GoodIsDistinct(x: Ctx, g: Gen, j: int)
    requires GenOk(x, g) && 0 <= j < |g.states|
    ensures DistinctItems(g.states[j]) && g.states[j] != [] && KerSet(g.states[j]) != {}
  {
    assert StateOk(x, g, j);
    assert g.states[j][0].pitem in KerSet(g.states[j]);
  }

  /** A state has changed exactly if it has a lookahead that it did not have. */
  lemma {:induction false} ChangedGains(x: Ctx, g: Gen, h: Gen, j: int)
    requires GenOk(x, g) && GenOk(x, h) && Extends(g, h) && 0 <= j < |g.states|
    requires forall it, t {:trigger HasLook(h.states[j], it, t)} :: HasLook(g.states[j], it, t) ==> HasLook(h.states[j], it, t)
    ensures h.states[j] != g.states[j] <==> exists it, t {:trigger HasLook(h.states[j], it, t)} :: HasLook(h.states[j], it, t) && !HasLook(g.states[j], it, t)
  {
    GoodIsDistinct(x, g, j);
    GoodIsDistinct(x, h, j);
    if forall it, t {:trigger HasLook(h.states[j], it, t)} :: HasLook(h.states[j], it, t) ==> HasLook(g.states[j], it, t) {
      SameLooksSame(g.states[j], h.states[j]);
    }
  }

  /** What a turn has got to when the goto over `c` is made at entry `n`: state `r` takes the kernel `cand`. */
  ghost predicate GotoStep(x: Ctx, g: Gen, h: Gen, h1: Gen, i: int, ker: seq<Item>, w: seq<Wset>, done: set<int>, n: int, c: int, cand: seq<Item>, r: int) {
    && GenOk(x, g) && GenOk(x, h) && GenOk(x, h1) && Extends(g, h) && Extends(h, h1)
    && Midway(x, g, h, i, ker, w, done, n)
    && GoesAt(x, w, n) && x.mem[w[n].pitem] == c && c !in done && (forall d :: d in done ==> d > 1)
    && IsGotoKernel(x, w, c, cand) && Took(h, h1, r, cand) && KerSet(h1.states[r]) == Goto0(x, KerSet(ker), c)
  }

  lemma {:induction false} GotoTells(x: Ctx, g: Gen, h: Gen, h1: Gen, i: int, ker: seq<Item>, w: seq<Wset>, done: set<int>, n: int, c: int, cand: seq<Item>, r: int, j: int)
    requires GotoStep(x, g, h, h1, i, ker, w, done, n, c, cand, r) && 0 <= j < |h1.states|
    ensures Told(x, g, h1, KerSet(ker), w, done + {c}, j)
  {
    GoodIsDistinct(x, h1, r);
    if j == r {
      if r < |h.states| {
        SameItemsSameSet(h.states[r], h1.states[r]);
        assert Told(x, g, h, KerSet(ker), w, done, r);
      }
      ToldTaker(x, g, h, h1, KerSet(ker), w, done, c, cand, r);
    } else {
      var same := h1.states[j];
      assert j < |h.states| && h.states[j] == same;
      assert Told(x, g, h, KerSet(ker), w, done, j);
      ToldOther(x, g, h, h1, KerSet(ker), w, done, c, r, j);
    }
  }

  lemma {:induction false} GotoTypes(x: Ctx, g: Gen, h: Gen, h1: Gen, i: int, ker: seq<Item>, w: seq<Wset>, done: set<int>, n: int, c: int, cand: seq<Item>, r: int, j: int)
    requires GotoStep(x, g, h, h1, i, ker, w, done, n, c, cand, r) && 0 <= j < |h1.states| && j != i
    ensures Typed(g, h1, j)
  {
    if j != r {
      assert h1.states[j] == h.states[j];
      assert Typed(g, h, j);
    } else if r < |h.states| {
      assert Typed(g, h, r) && Told(x, g, h, KerSet(ker), w, done, r);
      if h1.states[r] != h.states[r] && r < |g.states| {
        ChangedGains(x, h, h1, r);
        var it, t :| HasLook(h1.states[r], it, t) && !HasLook(h.states[r], it, t);
        assert !HasLook(g.states[r], it, t);
      }
    }
  }

  /** Before the goto over `c` the state whose turn it is cannot have been sent anything by a goto to the same kernel. */
  lemma {:induction false} SelfUntouched(x: Ctx, g: Gen, h: Gen, h1: Gen, i: int, ker: seq<Item>, w: seq<Wset>, done: set<int>, n: int, c: int, cand: seq<Item>, r: int)
    requires GotoStep(x, g, h, h1, i, ker, w, done, n, c, cand, r) && Goto0(x, KerSet(ker), c) == KerSet(ker)
    ensures h.states[i] == ker
  {
    var k := KerSet(ker);
    GoodIsDistinct(x, g, i);
    GoodIsDistinct(x, h, i);
    SameItemsSameSet(g.states[i], h.states[i]);
    assert Told(x, g, h, k, w, done, i);
    forall it, t ensures HasLook(h.states[i], it, t) <==> HasLook(ker, it, t) {
      OnlyOver(x, k, c, it - 1);
      assert HasLook(h.states[i], it, t) <==> HasLook(ker, it, t) || (Sends(x, k, w, KerSet(h.states[i]), it, t) && x.mem[it - 1] in done);
    }
    SameLooksSame(ker, h.states[i]);
  }

  lemma {:induction false} SelfTakes(x: Ctx, g: Gen, h: Gen, h1: Gen, i: int, ker: seq<Item>, w: seq<Wset>, done: set<int>, n: int, c: int, cand: seq<Item>)
    requires GotoStep(x, g, h, h1, i, ker, w, done, n, c, cand, i)
    ensures Goto0(x, KerSet(ker), c) == KerSet(ker) && h.states[i] == ker
    ensures h1.states[i] != ker <==> SelfGain(x, ker, w, n)
  {
    var k := KerSet(ker);
    SameItemsSameSet(g.states[i], h.states[i]);
    SameItemsSameSet(h.states[i], h1.states[i]);
    SelfUntouched(x, g, h, h1, i, ker, w, done, n, c, cand, i);
    forall it, t ensures HasLook(h1.states[i], it, t) <==> HasLook(ker, it, t) || (Sends(x, k, w, k, it, t) && x.mem[it - 1] == c) {
      CandLooks(x, w, c, cand, it, t);
      assert HasLook(h1.states[i], it, t) <==> HasLook(h.states[i], it, t) || HasLook(cand, it, t);
    }
    ChangedGains(x, h, h1, i);
    if h1.states[i] != ker {
      var it, t :| HasLook(h1.states[i], it, t) && !HasLook(ker, it, t);
      assert Sends(x, k, w, k, it, t);
    }
    if SelfGain(x, ker, w, n) {
      var it, t :| Sends(x, k, w, k, it, t) && x.mem[it - 1] == c && !HasLook(ker, it, t);
      assert HasLook(h1.states[i], it, t);
    }
  }

  lemma {:induction false} GotoMarks(x: Ctx, g: Gen, h: Gen, h1: Gen, i: int, ker: seq<Item>, w: seq<Wset>, done: set<int>, n: int, m: int, c: int, cand: seq<Item>, r: int)
    requires GotoStep(x, g, h, h1, i, ker, w, done, n, c, cand, r) && m == n + 1
    ensures MarkAfter(x, ker, w, m, h1.tystate[i])
  {
    MarkStep(x, ker, w, n, m, h.tystate[i]);
    assert !Reduces(x, ker, w, n);
    if r == i {
      SelfTakes(x, g, h, h1, i, ker, w, done, n, c, cand);
    } else {
      assert h1.states[i] == h.states[i] && h1.tystate[i] == h.tystate[i];
      if SelfGain(x, ker, w, n) {
        var it, t :| Sends(x, KerSet(ker), w, KerSet(ker), it, t) && x.mem[it - 1] == c;
        SameItemsSameSet(g.states[i], h1.states[i]);
        OneState(x, h1, i, r, KerSet(ker));
      }
    }
  }

  lemma {:induction false} MidwayGoto(x: Ctx, g: Gen, h: Gen, h1: Gen, i: int, ker: seq<Item>, w: seq<Wset>, done: set<int>, n: int, m: int, c: int, cand: seq<Item>, r: int)
    requires GotoStep(x, g, h, h1, i, ker, w, done, n, c, cand, r) && m == n + 1
    ensures Midway(x, g, h1, i, ker, w, done + {c}, m)
  {
    forall j | 0 <= j < |h1.states| ensures Told(x, g, h1, KerSet(ker), w, done + {c}, j) {
      GotoTells(x, g, h, h1, i, ker, w, done, n, c, cand, r, j);
    }
    forall j | 0 <= j < |h1.states| && j != i ensures Typed(g, h1, j) {
      GotoTypes(x, g, h, h1, i, ker, w, done, n, c, cand, r, j);
    }
    GotoMarks(x, g, h, h1, i, ker, w, done, n, m, c, cand, r);
  }

  lemma {:induction false} MidwayStart(x: Ctx, g: Gen, i: int, w: seq<Wset>)
    requires CtxOk(x) && |g.tystate| == |g.states| && 0 <= i < |g.states| && g.tystate[i] == DONE
    ensures Midway(x, g, g, i, g.states[i], w, {}, 0)
  {
  }

  /** Nothing happens at an entry whose goto has been made, or at a reduction by an item of the kernel. */
  lemma {:induction false} MidwaySkip(x: Ctx, g: Gen, h: Gen, i: int, ker: seq<Item>, w: seq<Wset>, done: set<int>, n: int, m: int)
    requires CtxOk(x) && Midway(x, g, h, i, ker, w, done, n) && 0 <= n && m == n + 1 && !GoesAt(x, w, n) && !Reduces(x, ker, w, n)
    ensures Midway(x, g, h, i, ker, w, done, m)
  {
    MarkStep(x, ker, w, n, m, h.tystate[i]);
  }

  lemma {:induction false} MidwayReduce(x: Ctx, g: Gen, h: Gen, h1: Gen, i: int, ker: seq<Item>, w: seq<Wset>, done: set<int>, n: int, m: int)
    requires CtxOk(x) && Midway(x, g, h, i, ker, w, done, n) && 0 <= n && m == n + 1 && Reduces(x, ker, w, n)
    requires h1.states == h.states && h1.tystate == h.tystate[i := MUSTLOOKAHEAD]
    ensures Midway(x, g, h1, i, ker, w, done, m)
  {
    MarkStep(x, ker, w, n, m, h.tystate[i]);
    forall j | 0 <= j < |h1.states| ensures Told(x, g, h1, KerSet(ker), w, done, j) {
      assert Told(x, g, h, KerSet(ker), w, done, j);
    }
    forall j | 0 <= j < |h1.states| && j != i ensures Typed(g, h1, j) {
      assert Typed(g, h, j);
    }
  }

  // ----- flags -----

  /** Entries with the same items and lookaheads; only flags may differ. */
  ghost predicate SameButFlags(w: seq<Wset>, w0: seq<Wset>) {
    |w| == |w0| && forall v :: 0 <= v < |w| ==> w[v].pitem == w0[v].pitem && w[v].ws == w0[v].ws
  }

  lemma FlagsDontMatter(w: seq<Wset>, w0: seq<Wset>)
    requires SameButFlags(w, w0) && Distinct(w0)
    ensures Distinct(w) && Items(w) == Items(w0) && FamilyOf(w) == FamilyOf(w0)
  {
    assert Items(w) == Items(w0) by {
      forall it | it in Items(w) ensures it in Items(w0) {
        var v :| 0 <= v < |w| && w[v].pitem == it;
        assert w0[v].pitem == it;
      }
      forall it | it in Items(w0) ensures it in Items(w) {
        var v :| 0 <= v < |w0| && w0[v].pitem == it;
        assert w[v].pitem == it;
      }
    }
    FamilyAt(w);
    FamilyAt(w0);
    forall it | it in FamilyOf(w) ensures FamilyOf(w)[it] == FamilyOf(w0)[it] {
      assert it in Items(w);
      var v :| 0 <= v < |w| && w[v].pitem == it;
    }
  }

  lemma ClosedSetOn(x: Ctx, ker: seq<Item>, w0: seq<Wset>, w: seq<Wset>)
    requires ClosedSet(x, ker, w0) && SameButFlags(w, w0)
    ensures ClosedSet(x, ker, w)
  {
    FlagsDontMatter(w, w0);
    OrderlyOn(x, |ker|, w0, w);
  }

  lemma {:induction false} SameGotoKernel(x: Ctx, w: seq<Wset>, w0: seq<Wset>, c: int, cand: seq<Item>)
    requires SameButFlags(w, w0) && IsGotoKernel(x, w, c, cand)
    ensures IsGotoKernel(x, w0, c, cand)
  {
    forall k | 0 <= k < |cand| ensures Carried(x, w0, c, cand[k]) {
      assert Carried(x, w, c, cand[k]);
      var v :| CarriedFrom(x, w, c, cand[k], v);
      assert CarriedFrom(x, w0, c, cand[k], v);
    }
    forall v | 0 <= v < |w0| && IsItem(x, w0[v].pitem) && x.mem[w0[v].pitem] == c ensures Item(w0[v].pitem + 1, w0[v].ws) in cand {
      assert w[v].pitem == w0[v].pitem && w[v].ws == w0[v].ws;
    }
  }

  /** The symbols above 1 after the dots of the first `p` entries. */
  ghost function SymsBefore(x: Ctx, w: seq<Wset>, p: nat): set<int>
    requires p <= |w| && forall v :: 0 <= v < |w| ==> 0 < w[v].pitem < |x.mem|
  {
    set v | 0 <= v < p && x.mem[w[v].pitem] > 1 :: x.mem[w[v].pitem]
  }

  /** The flags once the first `p` entries have been dealt with, and with them the gotos over the symbols of `done`. */
  ghost function Flagged(x: Ctx, w: seq<Wset>, p: nat, done: set<int>): (r: seq<Wset>)
    requires forall v :: 0 <= v < |w| ==> 0 < w[v].pitem < |x.mem|
    ensures |r| == |w| && forall v :: 0 <= v < |w| ==> r[v] == Wset(w[v].pitem, v < p || x.mem[w[v].pitem] in done, w[v].ws)
  {
    seq(|w|, v requires 0 <= v < |w| => Wset(w[v].pitem, v < p || x.mem[w[v].pitem] in done, w[v].ws))
  }

  lemma {:induction false} SymsStep(x: Ctx, w: seq<Wset>, p: nat, q: nat)
    requires p < |w| && q == p + 1 && forall v :: 0 <= v < |w| ==> 0 < w[v].pitem < |x.mem|
    ensures x.mem[w[p].pitem] <= 1 || x.mem[w[p].pitem] in SymsBefore(x, w, p) ==> SymsBefore(x, w, q) == SymsBefore(x, w, p)
    ensures x.mem[w[p].pitem] > 1 ==> SymsBefore(x, w, q) == SymsBefore(x, w, p) + {x.mem[w[p].pitem]}
  {
  }

  lemma FlagsOnly(x: Ctx, w: seq<Wset>, p: nat, done: set<int>)
    requires forall v :: 0 <= v < |w| ==> 0 < w[v].pitem < |x.mem|
    ensures SameButFlags(Flagged(x, w, p, done), w)
  {
  }

  /** Once entry `p` is flagged, or its symbol done, the flags are those for one entry more. */
  lemma {:induction false} FlaggedStep(x: Ctx, w: seq<Wset>, p: nat, done: set<int>)
    requires p < |w| && forall v :: 0 <= v < |w| ==> 0 < w[v].pitem < |x.mem|
    ensures x.mem[w[p].pitem] in done ==> Flagged(x, w, p, done) == Flagged(x, w, p + 1, done)
    ensures Flagged(x, w, p, done)[p := Flagged(x, w, p, done)[p].(flag := true)] == Flagged(x, w, p + 1, done)
  {
  }

  lemma {:induction false} MarkIsFlagged(x: Ctx, w: seq<Wset>, p: nat, done: set<int>, c: int)
    requires p < |w| && (forall v :: 0 <= v < |w| ==> 0 < w[v].pitem < |x.mem|) && x.mem[w[p].pitem] == c
    ensures Mark(x, Flagged(x, w, p, done), c) == Flagged(x, w, p + 1, done + {c})
  {
  }

  lemma {:induction false} FirstHere(x: Ctx, w: seq<Wset>, p: nat, c: int)
    requires p < |w| && (forall v :: 0 <= v < |w| ==> 0 < w[v].pitem < |x.mem|) && x.mem[w[p].pitem] == c > 1 && c !in SymsBefore(x, w, p)
    ensures GoesAt(x, w, p) && forall v :: 0 <= v < p ==> x.mem[w[v].pitem] != c
  {
  }

  /** Where the turn of state `i` has got to: it began with `g`, has made `h`, and its working set is `w`. */
  ghost predicate Turning(x: Ctx, g: Gen, h: Gen, i: int, ker: seq<Item>, w: seq<Wset>, done: set<int>, p: int)
    requires CtxOk(x)
  {
    Extends(g, h) && Midway(x, g, h, i, ker, w, done, p) && forall d :: d in done ==> d > 1
  }

  lemma {:induction false} TurnsOn(x: Ctx, g: Gen, h: Gen, h1: Gen, i: int, ker: seq<Item>, w: seq<Wset>, w0: seq<Wset>, done: set<int>, p: nat, c: int, cand: seq<Item>, r: int)
    requires GenOk(x, g) && GenOk(x, h) && GenOk(x, h1) && Extends(h, h1) && Turning(x, g, h, i, ker, w0, done, p)
    requires SameButFlags(w, w0) && c !in done && GoesAt(x, w0, p) && x.mem[w0[p].pitem] == c
    requires IsGotoKernel(x, w, c, cand) && Took(h, h1, r, cand) && KerSet(h1.states[r]) == Goto0(x, KerSet(ker), c)
    ensures Turning(x, g, h1, i, ker, w0, done + {c}, p + 1)
  {
    SameGotoKernel(x, w, w0, c, cand);
    MidwayGoto(x, g, h, h1, i, ker, w0, done, p, p + 1, c, cand, r);
  }

  /** The goto over the symbol of a flagged entry was made before. */
  lemma {:induction false} FlaggedIsOld(x: Ctx, g: Gen, h: Gen, i: int, ker: seq<Item>, w: seq<Wset>, done: set<int>, p: nat)
    requires CtxOk(x) && p < |w| && (forall v :: 0 <= v < |w| ==> 0 < w[v].pitem < |x.mem|)
    requires done == SymsBefore(x, w, p) && x.mem[w[p].pitem] in done && Turning(x, g, h, i, ker, w, done, p)
    ensures Turning(x, g, h, i, ker, w, done, p + 1)
  {
    var v :| 0 <= v < p && x.mem[w[v].pitem] == x.mem[w[p].pitem];
    MidwaySkip(x, g, h, i, ker, w, done, p, p + 1);
  }

  // ----- a whole turn -----

  /** State `j` has the lookaheads it had and those sent to it; if it is new, it is a goto of the kernel. */
  ghost predicate Received(x: Ctx, g: Gen, h: Gen, k: set<int>, w: seq<Wset>, j: int)
    requires CtxOk(x) && 0 <= j < |h.states|
  {
    && (forall it, t {:trigger HasLook(h.states[j], it, t)} {:trigger Sends(x, k, w, KerSet(h.states[j]), it, t)} ::
          HasLook(h.states[j], it, t) <==> (j < |g.states| && HasLook(g.states[j], it, t)) || Sends(x, k, w, KerSet(h.states[j]), it, t))
    && (j >= |g.states| ==> exists c {:trigger Goto0(x, k, c)} :: c > 1 && KerSet(h.states[j]) == Goto0(x, k, c))
  }

  /** What the turn of state `i`, closed to the working set `w`, makes of the states `g`. */
  ghost predicate TurnBy(x: Ctx, g: Gen, h: Gen, i: int, w: seq<Wset>) {
    && GenOk(x, g) && GenOk(x, h) && Extends(g, h) && 0 <= i < |g.states| && g.tystate[i] == MUSTDO
    && ClosedSet(x, g.states[i], w) && GotosRegistered(x, h, KerSet(g.states[i]))
    && (forall j {:trigger Received(x, g, h, KerSet(g.states[i]), w, j)} :: 0 <= j < |h.states| ==> Received(x, g, h, KerSet(g.states[i]), w, j))
    && (forall j {:trigger Typed(g, h, j)} :: 0 <= j < |h.states| && j != i ==> Typed(g, h, j))
    && MarkAfter(x, g.states[i], w, |w|, h.tystate[i])
  }

  lemma {:induction false} WholeTurn(x: Ctx, g: Gen, g1: Gen, h: Gen, i: int, w: seq<Wset>, done: set<int>)
    requires GenOk(x, g) && GenOk(x, h) && Extends(g, h) && 0 <= i < |g.states| && g.tystate[i] == MUSTDO
    requires g1 == g.(tystate := g.tystate[i := DONE]) && Midway(x, g1, h, i, g.states[i], w, done, |w|)
    requires ClosedSet(x, g.states[i], w) && GotosRegistered(x, h, KerSet(g.states[i]))
    requires forall c :: c in done ==> c > 1
    requires forall v :: 0 <= v < |w| && x.mem[w[v].pitem] > 1 ==> x.mem[w[v].pitem] in done
    ensures TurnBy(x, g, h, i, w)
  {
    var k := KerSet(g.states[i]);
    forall j | 0 <= j < |h.states| ensures Received(x, g, h, k, w, j) {
      assert Told(x, g1, h, k, w, done, j);
      forall it, t ensures Sends(x, k, w, KerSet(h.states[j]), it, t) ==> x.mem[it - 1] in done {
        if Sends(x, k, w, KerSet(h.states[j]), it, t) {
          var v :| 0 <= v < |w| && w[v].pitem == it - 1 && t in w[v].ws;
        }
      }
      if j >= |g.states| {
        var c :| c in done && KerSet(h.states[j]) == Goto0(x, k, c);
        assert c > 1;
      }
    }
    forall j | 0 <= j < |h.states| && j != i ensures Typed(g, h, j) {
      assert Typed(g1, h, j);
    }
  }

  /** The states with which `stagen` begins. */
  function Start(x: Ctx): Gen {
    Gen([[Item(START, {})]], [MUSTDO], seq(x.ntokens + 1, _ => 0), seq(|x.starts|, _ => 0), [0])
  }

  ghost predicate Turn(x: Ctx, g: Gen, h: Gen) { exists i, w :: TurnBy(x, g, h, i, w) }

  ghost predicate TurnAt(x: Ctx, gs: seq<Gen>, n: nat) { n + 1 < |gs| && Turn(x, gs[n], gs[n + 1]) }

  /** A run of `stagen`, turn by turn from the start state. */
  ghost predicate Run(x: Ctx, gs: seq<Gen>) {
    && |gs| > 0 && gs[0] == Start(x) && GenOk(x, gs[0])
    && forall n: nat {:trigger TurnAt(x, gs, n)} :: n + 1 < |gs| ==> TurnAt(x, gs, n)
  }

  ghost predicate EndsIn(gs: seq<Gen>, g: Gen) { |gs| > 0 && gs[|gs| - 1] == g }

  /** The states `g` come from the start state by some turns. */
  ghost predicate Made(x: Ctx, g: Gen) { exists gs {:trigger Run(x, gs)} :: Run(x, gs) && EndsIn(gs, g) }

  lemma {:induction false} MadeAtStart(x: Ctx)
    requires GenOk(x, Start(x))
    ensures Made(x, Start(x))
  {
    assert Run(x, [Start(x)]) && EndsIn([Start(x)], Start(x));
  }

  lemma {:induction false} MadeTurn(x: Ctx, g: Gen, h: Gen, i: int, w: seq<Wset>)
    requires Made(x, g) && TurnBy(x, g, h, i, w)
    ensures Made(x, h)
  {
    var gs :| Run(x, gs) && EndsIn(gs, g);
    assert Turn(x, g, h);
    RunOn(x, gs, h);
  }

  lemma {:induction false} RunOn(x: Ctx, gs: seq<Gen>, h: Gen)
    requires Run(x, gs) && Turn(x, gs[|gs| - 1], h)
    ensures Run(x, gs + [h]) && EndsIn(gs + [h], h)
  {
    var hs := gs + [h];
    forall n: nat | n + 1 < |hs| ensures TurnAt(x, hs, n) {
      if n + 1 < |gs| {
        assert TurnAt(x, gs, n);
      }
    }
  }

  // ----- what is sent on -----

  /** Every closed family with the kernel has `t` for item `it`: the closure of the kernel gives it this lookahead. */
  ghost predicate ClosesTo(x: Ctx, ker: seq<Item>, it: int, t: int)
    requires CtxOk(x)
  {
    forall f: Family {:trigger ClosedFamily(x, f)} :: ClosedFamily(x, f) && KernelIn(ker, f) ==> it in f && t in f[it]
  }

  lemma {:induction false} ClosesToSet(x: Ctx, ker: seq<Item>, w: seq<Wset>, it: int, t: int)
    requires ClosedSet(x, ker, w)
    ensures ClosesTo(x, ker, it, t) <==> InSet(w, it, t)
  {
    var f := FamilyOf(w);
    FamilyAt(w);
    if ClosesTo(x, ker, it, t) {
      assert it in f && t in f[it];
      var v :| 0 <= v < |w| && w[v].pitem == it;
    }
    if InSet(w, it, t) {
      var v :| 0 <= v < |w| && w[v].pitem == it && t in w[v].ws;
      assert it in f && t in f[it];
      assert LeastFamily(x, ker, f);
    }
  }

  /** The state with kernel `k` has `t` for item `it`. */
  ghost predicate Arrives(g: Gen, k: set<int>, it: int, t: int) {
    exists j {:trigger g.states[j]} :: IsState(g, j, k) && HasLook(g.states[j], it, t)
  }

  /** Every lookahead that the closure of state `j` carries over a symbol has arrived at the goto. */
  ghost predicate Propagated(x: Ctx, g: Gen, j: int)
    requires CtxOk(x) && 0 <= j < |g.states|
  {
    forall it, t {:trigger ClosesTo(x, g.states[j], it, t)} :: IsItem(x, it) && x.mem[it] > 1 && ClosesTo(x, g.states[j], it, t) ==>
      Arrives(g, Goto0(x, KerSet(g.states[j]), x.mem[it]), it + 1, t)
  }

  /** State `j` is what its turn with the kernel `ker` left, in which it gained a lookahead from itself before a reduction. */
  ghost predicate LostIn(x: Ctx, g: Gen, j: int, ker: seq<Item>, w: seq<Wset>)
    requires 0 <= j < |g.states|
  {
    && ClosedSet(x, ker, w) && SameItems(ker, g.states[j])
    && (forall it, t {:trigger HasLook(g.states[j], it, t)} :: HasLook(g.states[j], it, t) <==> HasLook(ker, it, t) || Sends(x, KerSet(ker), w, KerSet(ker), it, t))
    && exists p, q {:trigger SelfGain(x, ker, w, p), Reduces(x, ker, w, q)} :: p < q && SelfGain(x, ker, w, p) && Reduces(x, ker, w, q)
  }

  ghost predicate MarkLost(x: Ctx, g: Gen, j: int)
    requires 0 <= j < |g.states|
  {
    exists ker, w :: LostIn(x, g, j, ker, w)
  }

  /** A state gains from itself exactly if its kernel changes in its own turn. */
  lemma {:induction false} GainsInTurn(x: Ctx, g: Gen, h: Gen, i: int, w: seq<Wset>)
    requires TurnBy(x, g, h, i, w)
    ensures h.states[i] != g.states[i] <==> exists p {:trigger SelfGain(x, g.states[i], w, p)} :: SelfGain(x, g.states[i], w, p)
  {
    var ker, k := g.states[i], KerSet(g.states[i]);
    SameItemsSameSet(ker, h.states[i]);
    assert Received(x, g, h, k, w, i);
    ChangedGains(x, g, h, i);
    if h.states[i] != ker {
      var it, t :| HasLook(h.states[i], it, t) && !HasLook(ker, it, t);
      assert Sends(x, k, w, k, it, t);
      var v :| 0 <= v < |w| && w[v].pitem == it - 1 && t in w[v].ws;
      var p := FirstOver(x, w, v);
      assert SelfGain(x, ker, w, p);
    }
    if p :| SelfGain(x, ker, w, p) {
      var it, t :| Sends(x, k, w, k, it, t) && x.mem[it - 1] == x.mem[w[p].pitem] && !HasLook(ker, it, t);
      assert HasLook(h.states[i], it, t);
    }
  }

  lemma {:induction false} FirstOver(x: Ctx, w: seq<Wset>, v: int) returns (p: int)
    requires 0 <= v < |w| && IsItem(x, w[v].pitem) && x.mem[w[v].pitem] > 1
    ensures GoesAt(x, w, p) && x.mem[w[p].pitem] == x.mem[w[v].pitem]
    decreases v
  {
    if u :| 0 <= u < v && IsItem(x, w[u].pitem) && x.mem[w[u].pitem] == x.mem[w[v].pitem] {
      p := FirstOver(x, w, u);
    } else {
      p := v;
    }
  }

  /** There is only one entry at which a state can gain from itself. */
  lemma {:induction false} OneGain(x: Ctx, ker: seq<Item>, w: seq<Wset>, p: int, q: int)
    requires CtxOk(x) && KerSet(ker) != {} && SelfGain(x, ker, w, p) && SelfGain(x, ker, w, q)
    ensures p == q
  {
    GotoSymbol(x, KerSet(ker), x.mem[w[p].pitem], x.mem[w[q].pitem]);
  }

  /** Exactly when the mark is lost: a state has gained in its turn and need not be done again if and only if the gain
      comes before a reduction by an item outside the kernel. */
  lemma {:induction false} LostExactly(x: Ctx, g: Gen, h: Gen, i: int, w: seq<Wset>)
    requires TurnBy(x, g, h, i, w)
    ensures h.states[i] != g.states[i] && h.tystate[i] != MUSTDO <==>
      exists p, q {:trigger SelfGain(x, g.states[i], w, p), Reduces(x, g.states[i], w, q)} :: p < q && SelfGain(x, g.states[i], w, p) && Reduces(x, g.states[i], w, q)
  {
    var ker := g.states[i];
    GoodIsDistinct(x, g, i);
    GainsInTurn(x, g, h, i, w);
    if h.states[i] != ker && h.tystate[i] != MUSTDO {
      var p :| SelfGain(x, ker, w, p);
      assert !GainStands(x, ker, w, |w|, p);
    }
    if p, q :| p < q && SelfGain(x, ker, w, p) && Reduces(x, ker, w, q) {
      forall r ensures !GainStands(x, ker, w, |w|, r) {
        if SelfGain(x, ker, w, r) {
          OneGain(x, ker, w, p, r);
        }
      }
    }
  }

  // ----- every turn settles its state -----

  ghost predicate SettledAt(x: Ctx, g: Gen, j: int)
    requires CtxOk(x) && 0 <= j < |g.states| == |g.tystate|
  {
    g.tystate[j] != MUSTDO ==> Propagated(x, g, j) || MarkLost(x, g, j)
  }

  lemma {:induction false} ArrivesOn(x: Ctx, g: Gen, h: Gen, i: int, w: seq<Wset>, k: set<int>, it: int, t: int)
    requires TurnBy(x, g, h, i, w) && Arrives(g, k, it, t)
    ensures Arrives(h, k, it, t)
  {
    var j :| IsState(g, j, k) && HasLook(g.states[j], it, t);
    IsStateOn(g, h, j, k);
    assert Received(x, g, h, KerSet(g.states[i]), w, j);
    assert HasLook(h.states[j], it, t);
  }

  lemma {:induction false} OtherSettled(x: Ctx, g: Gen, h: Gen, i: int, w: seq<Wset>, j: int)
    requires TurnBy(x, g, h, i, w) && 0 <= j < |h.states| && j != i && (j < |g.states| ==> SettledAt(x, g, j))
    ensures SettledAt(x, h, j)
  {
    assert Typed(g, h, j);
    if h.tystate[j] != MUSTDO {
      assert h.states[j] == g.states[j];
      if Propagated(x, g, j) {
        forall it, t | IsItem(x, it) && x.mem[it] > 1 && ClosesTo(x, h.states[j], it, t)
          ensures Arrives(h, Goto0(x, KerSet(h.states[j]), x.mem[it]), it + 1, t)
        {
          assert ClosesTo(x, g.states[j], it, t);
          ArrivesOn(x, g, h, i, w, Goto0(x, KerSet(h.states[j]), x.mem[it]), it + 1, t);
        }
      } else {
        var ker, v :| LostIn(x, g, j, ker, v);
        assert LostIn(x, h, j, ker, v);
      }
    }
  }

  /** A lookahead that is sent has arrived. */
  lemma {:induction false} SentArrives(x: Ctx, g: Gen, h: Gen, i: int, w: seq<Wset>, it: int, t: int)
    requires TurnBy(x, g, h, i, w) && IsItem(x, it) && x.mem[it] > 1 && InSet(w, it, t)
    ensures Arrives(h, Goto0(x, KerSet(g.states[i]), x.mem[it]), it + 1, t)
  {
    var k, ker := KerSet(g.states[i]), g.states[i];
    assert StateOk(x, g, i);
    LeastItemsIsClosure0(x, ker, Items(w));
    var v :| 0 <= v < |w| && w[v].pitem == it && t in w[v].ws;
    var to := Goto0(x, k, x.mem[it]);
    assert it in Items(w) && it + 1 in to;
    var r :| IsState(h, r, to);
    assert Received(x, g, h, k, w, r);
    assert Sends(x, k, w, KerSet(h.states[r]), it + 1, t);
  }

  lemma {:induction false} OwnSettled(x: Ctx, g: Gen, h: Gen, i: int, w: seq<Wset>)
    requires TurnBy(x, g, h, i, w)
    ensures SettledAt(x, h, i)
  {
    var ker := g.states[i];
    if h.states[i] == ker {
      forall it, t | IsItem(x, it) && x.mem[it] > 1 && ClosesTo(x, h.states[i], it, t)
        ensures Arrives(h, Goto0(x, KerSet(h.states[i]), x.mem[it]), it + 1, t)
      {
        ClosesToSet(x, ker, w, it, t);
        SentArrives(x, g, h, i, w, it, t);
      }
    } else if h.tystate[i] != MUSTDO {
      LostExactly(x, g, h, i, w);
      SameItemsSameSet(ker, h.states[i]);
      assert Received(x, g, h, KerSet(ker), w, i);
      assert LostIn(x, h, i, ker, w);
    }
  }

  ghost predicate AllSettled(x: Ctx, g: Gen) {
    GenOk(x, g) && forall j {:trigger SettledAt(x, g, j)} :: 0 <= j < |g.states| ==> SettledAt(x, g, j)
  }

  lemma {:induction false} TurnSettles(x: Ctx, g: Gen, h: Gen)
    requires AllSettled(x, g) && Turn(x, g, h)
    ensures AllSettled(x, h)
  {
    var i, w :| TurnBy(x, g, h, i, w);
    forall j | 0 <= j < |h.states| ensures SettledAt(x, h, j) {
      if j == i {
        OwnSettled(x, g, h, i, w);
      } else {
        assert j < |g.states| ==> SettledAt(x, g, j);
        OtherSettled(x, g, h, i, w, j);
      }
    }
  }

  lemma {:induction false} StartSettled(x: Ctx)
    requires GenOk(x, Start(x))
    ensures AllSettled(x, Start(x))
  {
  }

  /** After any number of turns every state that need not be done has sent on all it has, or has lost its mark. */
  lemma {:induction false} RunSettles(x: Ctx, gs: seq<Gen>, n: nat)
    requires Run(x, gs) && n < |gs|
    ensures AllSettled(x, gs[n])
  {
    if n == 0 {
      StartSettled(x);
    } else {
      RunSettles(x, gs, n - 1);
      assert TurnAt(x, gs, n - 1);
      TurnSettles(x, gs[n - 1], gs[n]);
    }
  }

  lemma {:induction false} MadeIsSettled(x: Ctx, g: Gen)
    requires Made(x, g)
    ensures AllSettled(x, g)
  {
    var gs :| Run(x, gs) && EndsIn(gs, g);
    RunSettles(x, gs, |gs| - 1);
  }

  /** Each state has sent on all it has, or has lost its mark. */
  ghost predicate SentOn(x: Ctx, g: Gen)
    requires CtxOk(x)
  {
    forall j {:trigger Propagated(x, g, j)} {:trigger MarkLost(x, g, j)} :: 0 <= j < |g.states| ==> Propagated(x, g, j) || MarkLost(x, g, j)
  }

  lemma {:induction false} AllSentOn(x: Ctx, g: Gen)
    requires Made(x, g) && GenOk(x, g) && forall j :: 0 <= j < |g.states| ==> g.tystate[j] != MUSTDO
    ensures SentOn(x, g)
  {
    MadeIsSettled(x, g);
    forall j | 0 <= j < |g.states| ensures Propagated(x, g, j) || MarkLost(x, g, j) {
      assert SettledAt(x, g, j);
    }
  }
}
