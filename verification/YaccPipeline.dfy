/**
 The whole run of yacc, from productions to packed tables, and what the tables then do.
 */
module YaccPipeline {
  import opened YaccDerivation
  import F = YaccFirst
  import G = YaccGrammar
  import C = YaccClosure
  import L = YaccLr
  import S = YaccStates
  import R = YaccGoto
  import T = YaccTables
  import V = YaccViable
  import N = YaccGenerator
  import U = YaccTurns
  import A = YaccLalr
  import K = YaccLostMark
  import opened YaccSizes

  // ----- from the grammar to the context of closure -----

  function MakeCtx(g: G.Grammar, pres: seq<seq<nat>>, pempty: seq<int>, pfirst: seq<set<int>>): C.Ctx
    requires G.Wf(g) && G.PresOk(g, pres)
  {
    C.Ctx(g.mem, seq(|pres|, c requires 0 <= c < |pres| => StartItems(g, pres[c])), g.ntokens, pempty, pfirst)
  }

  function StartItems(g: G.Grammar, list: seq<nat>): (r: seq<int>)
    requires G.Wf(g) && forall i :: 0 <= i < |list| ==> list[i] < G.Nprod(g)
    ensures |r| == |list| && forall i :: 0 <= i < |list| ==> r[i] == g.prdptr[list[i]] + 1
  {
    seq(|list|, i requires 0 <= i < |list| => g.prdptr[list[i]] + 1)
  }

  /** Every cell of the production memory belongs to a production. */
  lemma {:induction false} FindProd(g: G.Grammar, k: int, n: nat) returns (i: int)
    requires G.Wf(g) && n <= G.Nprod(g) && 0 <= k < g.prdptr[n]
    ensures 0 <= i < n && g.prdptr[i] <= k < g.prdptr[i + 1]
  {
    assert G.ProdOk(g, n - 1);
    if g.prdptr[n - 1] <= k {
      i := n - 1;
    } else {
      i := FindProd(g, k, n - 1);
    }
  }

  lemma {:induction false} CellFits(g: G.Grammar, x: C.Ctx, k: int)
    requires G.Wf(g) && 0 <= k < |g.mem| && x.mem == g.mem && x.ntokens == g.ntokens && |x.starts| == g.nnonter + 1
    ensures C.CellOk(x, x.mem[k])
  {
    var i := FindProd(g, k, G.Nprod(g));
    assert G.ProdOk(g, i);
    if g.prdptr[i] < k < g.prdptr[i + 1] - 1 {
      assert G.IsRhs(g, g.mem[k]);
    }
  }

  /** The tables computed from a grammar are fit for `closure`. */
  lemma {:induction false} CtxFits(g: G.Grammar, pres: seq<seq<nat>>, pempty: seq<int>, pfirst: seq<set<int>>)
    requires G.Wf(g) && G.PresOk(g, pres) && F.EmptyExact(G.Abs(g), pempty) && F.FirstExact(G.Abs(g), pfirst)
    ensures C.CtxOk(MakeCtx(g, pres, pempty, pfirst))
    ensures C.IsItem(MakeCtx(g, pres, pempty, pfirst), L.START)
  {
    var x := MakeCtx(g, pres, pempty, pfirst);
    assert G.ProdOk(g, G.Nprod(g) - 1);
    forall k | 0 <= k < |x.mem| ensures C.CellOk(x, x.mem[k]) {
      CellFits(g, x, k);
    }
    forall c, i | 0 <= c < |x.starts| && 0 <= i < |x.starts[c]| ensures C.IsItem(x, x.starts[c][i]) {
      assert G.Yields(g, pres[c], c, G.Nprod(g));
      G.ProdInMemory(g, pres[c][i]);
    }
    forall c | 0 <= c < |x.pfirst| ensures C.TokenSet(x, x.pfirst[c]) {
      forall t | t in pfirst[c] ensures 1 <= t <= x.ntokens {
        assert F.TokenBegins(G.Abs(g), c, t);
      }
    }
  }

  /** The productions in order, as `go2gen` reads them. */
  function Corners(g: G.Grammar): (r: seq<R.Corner>)
    requires G.Wf(g)
    ensures |r| == G.Nprod(g) && forall i :: 0 <= i < |r| ==> r[i] == R.Corner(G.Lhs(g, i) - NTBASE, g.prdptr[i] + 1)
  {
    seq(G.Nprod(g), i requires 0 <= i < G.Nprod(g) => R.Corner(G.Lhs(g, i) - NTBASE, g.prdptr[i] + 1))
  }

  lemma {:induction false} CornersFit(g: G.Grammar, pres: seq<seq<nat>>, pempty: seq<int>, pfirst: seq<set<int>>)
    requires G.Wf(g) && G.PresOk(g, pres) && C.CtxOk(MakeCtx(g, pres, pempty, pfirst))
    ensures R.CornersOk(MakeCtx(g, pres, pempty, pfirst), Corners(g))
  {
    var x, ps := MakeCtx(g, pres, pempty, pfirst), Corners(g);
    forall i | 0 <= i < |ps| ensures 0 <= ps[i].lhs < |x.starts| && ps[i].first in x.starts[ps[i].lhs] {
      var c := G.Lhs(g, i) - NTBASE;
      assert G.ProdOk(g, i);
      assert G.Yields(g, pres[c], c, G.Nprod(g));
      assert i in pres[c];
      var k :| 0 <= k < |pres[c]| && pres[c][k] == i;
      assert x.starts[c][k] == ps[i].first;
    }
    forall a, s | 0 <= a < |x.starts| && s in x.starts[a] ensures R.Corner(a, s) in ps {
      assert G.Yields(g, pres[a], a, G.Nprod(g));
      var k :| 0 <= k < |x.starts[a]| && x.starts[a][k] == s;
      assert ps[pres[a][k]] == R.Corner(a, s);
    }
  }

  // ----- what the lookahead rule means -----

  /** The symbols from cell `k` to the end of its production. */
  function RestOf(x: C.Ctx, k: int): seq<int>
    requires C.CtxOk(x) && 0 <= k < |x.mem|
    decreases |x.mem| - k
  {
    if x.mem[k] <= 0 then [] else [x.mem[k]] + RestOf(x, k + 1)
  }

  lemma {:induction false} SpreadIsFirstOf(g: F.Cfg, x: C.Ctx, k: int, l: set<int>)
    requires C.CtxOk(x) && 0 <= k < |x.mem| && |x.starts| == g.nnonter + 1 && g.ntokens == x.ntokens < NTBASE
    requires forall c :: 0 <= c < |x.pempty| ==> x.pempty[c] == 0 || x.pempty[c] == 1
    ensures C.Spread(x, k, l)
      == F.FirstOf(g, x.pempty, x.pfirst, RestOf(x, k)) + if F.NullString(g, x.pempty, RestOf(x, k)) then l else {}
    decreases |x.mem| - k
  {
    assert C.CellOk(x, x.mem[k]);
    if x.mem[k] > 0 {
      var r := RestOf(x, k);
      assert r[1..] == RestOf(x, k + 1);
      F.NullTail(g, x.pempty, r);
      if x.mem[k] >= NTBASE {
        SpreadIsFirstOf(g, x, k + 1, l);
      }
    }
  }

  /** A token can follow a nonterminal in an item exactly when what comes after it derives a string
      beginning with the token, or derives the empty string and the token is a lookahead of the item. */
  lemma {:induction false} SpreadMeaning(g: F.Cfg, x: C.Ctx, k: int, l: set<int>, t: int)
    requires C.CtxOk(x) && 0 <= k < |x.mem| && |x.starts| == g.nnonter + 1 && g.ntokens == x.ntokens < NTBASE
    requires F.FirstArgs(g, x.pempty, x.pfirst) && F.FirstExact(g, x.pfirst)
    requires F.IsToken(g, t)
    ensures t in C.Spread(x, k, l) <==>
      F.Begins(g.ps, RestOf(x, k), t) || (Derives(g.ps, RestOf(x, k), []) && t in l)
  {
    var r := RestOf(x, k);
    ExactIsClosed(g, x.pempty, x.pfirst);
    SpreadIsFirstOf(g, x, k, l);
    if t in F.FirstOf(g, x.pempty, x.pfirst, r) {
      FirstOfBegins(g, x.pempty, x.pfirst, r, t);
    }
    if F.NullString(g, x.pempty, r) {
      F.NullStringDerives(g, x.pempty, r);
    }
    if F.Begins(g.ps, r, t) {
      var b :| Derives(g.ps, r, [t] + b);
      var n: nat :| DerivesIn(g.ps, r, [t] + b, n);
      F.FirstComplete(g, x.pempty, x.pfirst, r, [t] + b, n);
    }
    if Derives(g.ps, r, []) {
      EmptyMeansNull(g, x.pempty, r);
    }
  }

  lemma {:induction false} FirstOfBegins(g: F.Cfg, pempty: seq<int>, first: seq<set<int>>, a: seq<int>, t: int)
    requires F.EmptyExact(g, pempty) && F.FirstExact(g, first) && t in F.FirstOf(g, pempty, first, a) && g.ntokens < NTBASE
    ensures F.Begins(g.ps, a, t)
  {
    assert a == [] + ([a[0]] + a[1..]);
    if F.IsNonterm(g, a[0]) && t !in first[a[0] - NTBASE] {
      FirstOfBegins(g, pempty, first, a[1..], t);
      F.NullStringDerives(g, pempty, [a[0]]);
      F.BeginsConcat(g.ps, [a[0]], a[1..], [], t);
      assert [a[0]] + (a[1..] + []) == a;
    } else {
      if F.IsNonterm(g, a[0]) {
        assert F.TokenBegins(g, a[0] - NTBASE, t) && F.Nt(a[0] - NTBASE) == [a[0]];
      } else {
        F.TokenBeginsItself(g.ps, t);
      }
      DerivesRefl(g.ps, []);
      F.BeginsConcat(g.ps, [], [a[0]], a[1..], t);
    }
  }

  lemma {:induction false} FirstOfTokens(g: F.Cfg, pempty: seq<int>, first: seq<set<int>>, a: seq<int>, t: int)
    requires |pempty| == g.nnonter + 1 && F.FirstExact(g, first) && t in F.FirstOf(g, pempty, first, a)
    requires forall k :: 0 <= k < |a| ==> F.IsSym(g, a[k])
    ensures F.IsToken(g, t)
  {
    if F.IsNonterm(g, a[0]) {
      if t in first[a[0] - NTBASE] {
        assert F.TokenBegins(g, a[0] - NTBASE, t);
      } else {
        FirstOfTokens(g, pempty, first, a[1..], t);
      }
    }
  }

  /** Exact first sets are closed under the productions. */
  lemma {:induction false} ExactIsClosed(g: F.Cfg, pempty: seq<int>, first: seq<set<int>>)
    requires F.FirstArgs(g, pempty, first) && F.FirstExact(g, first)
    ensures F.FirstClosed(g, pempty, first)
  {
    forall p | 0 <= p < |g.ps| ensures F.SideIn(g, pempty, first, g.ps[p]) {
      assert F.ProdSyms(g, g.ps[p]);
      forall t | t in F.FirstOf(g, pempty, first, g.ps[p].rhs) ensures t in first[g.ps[p].lhs - NTBASE] {
        FirstOfTokens(g, pempty, first, g.ps[p].rhs, t);
        FirstOfBegins(g, pempty, first, g.ps[p].rhs, t);
        F.BeginsByProduction(g.ps, p, t);
        assert F.Nt(g.ps[p].lhs - NTBASE) == [g.ps[p].lhs];
        assert F.TokenBegins(g, g.ps[p].lhs - NTBASE, t);
      }
    }
  }

  lemma {:induction false} EmptyMeansNull(g: F.Cfg, pempty: seq<int>, a: seq<int>)
    requires F.CfgOk(g) && F.EmptyExact(g, pempty) && Derives(g.ps, a, [])
    ensures F.NullString(g, pempty, a)
  {
    var good := Vanishing(g, pempty);
    forall p | 0 <= p < |g.ps| && Over(g.ps[p].rhs, good) ensures g.ps[p].lhs in good {
      assert F.NullString(g, pempty, g.ps[p].rhs);
      F.NullSide(g, pempty, p);
    }
    var n: nat :| DerivesIn(g.ps, a, [], n);
    ClosedUpBackwards(g.ps, good, a, [], n);
  }

  ghost function Vanishing(g: F.Cfg, pempty: seq<int>): set<int>
    requires |pempty| == g.nnonter + 1
  {
    set s | NTBASE <= s <= NTBASE + g.nnonter && F.Vanishes(g, pempty, s)
  }

  // ----- rows -----

  /** The shift row of a state: its token gotos, less those that a conflict was decided against. */
  method ShiftRow(temp1: seq<int>, drop: set<int>) returns (r: seq<T.Entry>)
    requires |temp1| >= 2 && forall t :: 0 <= t < |temp1| ==> temp1[t] >= 0
    ensures T.Ascending(r)
    ensures forall e :: e in r ==> 2 <= e.sym < |temp1| && e.target == temp1[e.sym] != 0
    ensures forall t :: 2 <= t < |temp1| ==> T.RowTarget(r, t) == if t in drop then 0 else temp1[t]
  {
    r := [];
    for t := 2 to |temp1|
      invariant T.Ascending(r)
      invariant forall e :: e in r ==> 2 <= e.sym < t && e.target == temp1[e.sym] != 0 && e.sym !in drop
      invariant forall u :: 2 <= u < t && temp1[u] != 0 && u !in drop ==> T.Entry(u, temp1[u]) in r
    {
      if temp1[t] != 0 && t !in drop {
        r := r + [T.Entry(t, temp1[t])];
      }
    }
    forall t | 2 <= t < |temp1| ensures T.RowTarget(r, t) == if t in drop then 0 else temp1[t] {
      if temp1[t] != 0 && t !in drop {
        T.RowTargetListed(r, T.Entry(t, temp1[t]));
      } else if T.RowTarget(r, t) != 0 {
        T.RowTargetAbsent(r, t);
      }
    }
  }

  /** The goto row of a nonterminal: the default, and the states that differ from it. */
  method GotoRow(ty: seq<int>) returns (r: T.GotoRow)
    requires forall j :: 0 <= j < |ty| ==> ty[j] >= 0
    ensures T.Ascending(r.entries)
    ensures forall e :: e in r.entries ==> e.sym < |ty| && e.target == ty[e.sym] != 0
    ensures r.dflt == 0 ==> r.entries == [] && forall j :: 0 <= j < |ty| ==> ty[j] == 0
    ensures r.dflt != 0 ==> r.dflt in ty
    ensures forall j :: 0 <= j < |ty| && ty[j] != 0 ==>
      ty[j] == if T.RowTarget(r.entries, j) != 0 then T.RowTarget(r.entries, j) else r.dflt
  {
    var best := R.BestDefault(ty);
    assert best >= 0;
    var list: seq<T.Entry> := [];
    for j := 0 to |ty|
      invariant T.Ascending(list)
      invariant forall e :: e in list ==> e.sym < j && e.target == ty[e.sym] != 0 && e.target != best
      invariant forall k :: 0 <= k < j && ty[k] != 0 && ty[k] != best ==> T.Entry(k, ty[k]) in list
      invariant best == 0 ==> list == []
    {
      if ty[j] != 0 && ty[j] != best {
        list := list + [T.Entry(j, ty[j])];
      }
    }
    r := T.GotoRow(list, best);
    forall j | 0 <= j < |ty| && ty[j] != 0
      ensures ty[j] == if T.RowTarget(list, j) != 0 then T.RowTarget(list, j) else best
    {
      if ty[j] != best {
        T.RowTargetListed(list, T.Entry(j, ty[j]));
      } else if T.RowTarget(list, j) != 0 {
        T.RowTargetAbsent(list, j);
      }
    }
  }

  /** A state that a goto over `c` leads to is entered over `c`. */
  lemma {:induction false} EnteredOver(x: C.Ctx, g: S.Gen, chk: seq<int>, j: int, k: set<int>, c: int)
    requires S.GenOk(x, g) && R.ChkRight(x, g, chk) && c > 1
    requires L.Goto0(x, k, c) != {} && S.IsState(g, j, L.Goto0(x, k, c))
    ensures 0 < j < |chk| && chk[j] == R.Code(c)
  {
    L.GotoIsItemSet(x, k, c);
    assert S.StateOk(x, g, j);
    var ker := g.states[j];
    assert ker[0].pitem in L.KerSet(ker);
    assert ker[0].pitem >= 2 && x.mem[ker[0].pitem - 1] == c;
    var d :| S.IsSymbol(g, d) && d > 1 && S.Over(x, ker, d) && S.OnChain(g, d, j);
    assert d == c;
  }

  /** What the shift row of state `i` gives for token `t`. */
  ghost predicate ShiftRight(x: C.Ctx, g: S.Gen, i: int, t: int, dropped: bool, v: int)
    requires C.CtxOk(x) && 0 <= i < |g.states|
  {
    var k := L.Goto0(x, L.KerSet(g.states[i]), t);
    if dropped || k == {} then v == 0 else v != 0 && S.IsState(g, v, k)
  }

  ghost predicate ShiftRowRight(x: C.Ctx, g: S.Gen, i: int, drop: set<int>, r: seq<T.Entry>)
    requires C.CtxOk(x) && 0 <= i < |g.states|
  {
    forall t {:trigger T.RowTarget(r, t)} :: 2 <= t <= x.ntokens ==> ShiftRight(x, g, i, t, t in drop, T.RowTarget(r, t))
  }

  method StateRow(x: C.Ctx, g: S.Gen, chk: seq<int>, i: nat, drop: set<int>) returns (r: seq<T.Entry>)
    requires S.GenOk(x, g) && R.ChkRight(x, g, chk) && 1 <= x.ntokens < NTERMS
    requires i < |g.states| && S.GotosRegistered(x, g, L.KerSet(g.states[i])) && L.Fits(x, L.KerSet(g.states[i]))
    ensures ShiftRowRight(x, g, i, drop, r) && T.ShiftRowOk(r, chk)
  {
    var temp1 := S.OutputShifts(x, g, i);
    ghost var k := L.KerSet(g.states[i]);
    temp1 := temp1[0 := 0][1 := 0];
    forall t | 0 <= t < |temp1| ensures temp1[t] >= 0 {
      if t >= 2 { assert L.Goto0(x, k, t) == L.Goto0(x, k, t); }
    }
    r := ShiftRow(temp1, drop);
    forall e | e in r ensures 1 <= e.sym < NTERMS && 1 <= e.target < |chk| && chk[e.target] == e.sym {
      EnteredOver(x, g, chk, e.target, k, e.sym);
    }
    forall t | 2 <= t <= x.ntokens ensures ShiftRight(x, g, i, t, t in drop, T.RowTarget(r, t)) {
      assert L.Goto0(x, k, t) == L.Goto0(x, k, t);
    }
  }

  /** What the goto row of nonterminal `a` gives for state `i`. */
  ghost predicate GotoRowRight(x: C.Ctx, g: S.Gen, a: int, r: T.GotoRow)
    requires C.CtxOk(x)
  {
    forall i {:trigger T.RowTarget(r.entries, i)} :: 0 <= i < |g.states| && S.NtGoto(x, L.KerSet(g.states[i]), a) != {} ==>
      && r.dflt != 0
      && S.IsState(g, if T.RowTarget(r.entries, i) != 0 then T.RowTarget(r.entries, i) else r.dflt, S.NtGoto(x, L.KerSet(g.states[i]), a))
  }

  method NontermRow(x: C.Ctx, g: S.Gen, ps: seq<R.Corner>, amem: seq<int>, indgo: seq<int>, chk: seq<int>, a: int) returns (r: T.GotoRow)
    requires S.GenOk(x, g) && R.ChkRight(x, g, chk) && R.CornersOk(x, ps) && 1 <= a < |x.starts| && |indgo| >= |g.states|
    requires forall j :: 0 <= j < |g.states| ==> S.RowRight(x, g, amem, indgo[j], L.KerSet(g.states[j]))
    ensures GotoRowRight(x, g, a, r) && T.GotoRowOk(r, a, chk)
  {
    var ty := R.Go2gen(x, g, ps, amem, indgo, a);
    forall j | 0 <= j < |ty| ensures ty[j] >= 0 && (ty[j] != 0 ==> 1 <= ty[j] < |chk| && chk[ty[j]] == -a) {
      if ty[j] != 0 {
        EnteredOver(x, g, chk, ty[j], L.KerSet(g.states[j]), NTBASE + a);
      }
    }
    r := GotoRow(ty);
    if r.dflt != 0 {
      var j :| 0 <= j < |ty| && ty[j] == r.dflt;
    }
    forall i | 0 <= i < |g.states| && S.NtGoto(x, L.KerSet(g.states[i]), a) != {}
      ensures r.dflt != 0 && S.IsState(g, if T.RowTarget(r.entries, i) != 0 then T.RowTarget(r.entries, i) else r.dflt, S.NtGoto(x, L.KerSet(g.states[i]), a))
    {
      assert ty[i] != 0;
    }
  }

  /** The rows that are handed to the optimizer. */
  ghost predicate RowsRight(x: C.Ctx, g: S.Gen, drop: nat -> set<int>, w: T.Rows)
    requires C.CtxOk(x)
  {
    && |w.shift| == |g.states| && |w.goto| == |x.starts|
    && (forall i {:trigger w.shift[i]} :: 0 <= i < |g.states| ==> ShiftRowRight(x, g, i, drop(i), w.shift[i]))
    && (forall a {:trigger w.goto[a]} :: 1 <= a < |x.starts| ==> GotoRowRight(x, g, a, w.goto[a]))
  }

  method MakeRows(x: C.Ctx, g: S.Gen, ps: seq<R.Corner>, amem: seq<int>, indgo: seq<int>, drop: nat -> set<int>) returns (w: T.Rows)
    requires S.GenOk(x, g) && R.CornersOk(x, ps) && 1 <= x.ntokens < NTERMS && |x.starts| <= NNONTERM && |indgo| >= |g.states|
    requires forall j :: 0 <= j < |g.states| ==> S.Finished(x, g, amem, indgo, j)
    ensures T.RowsOk(w) && RowsRight(x, g, drop, w) && R.ChkRight(x, g, w.acc)
  {
    var chk := R.Yychk(x, g);
    w := T.Rows([], [T.GotoRow([], 0)], chk);
    for i := 0 to |g.states|
      invariant w.acc == chk && |w.shift| == i && w.goto == [T.GotoRow([], 0)]
      invariant forall j :: 0 <= j < i ==> ShiftRowRight(x, g, j, drop(j), w.shift[j]) && T.ShiftRowOk(w.shift[j], chk)
    {
      assert S.Finished(x, g, amem, indgo, i);
      var r := StateRow(x, g, chk, i, drop(i));
      w := w.(shift := w.shift + [r]);
    }
    forall j | 0 <= j < |g.states| ensures S.RowRight(x, g, amem, indgo[j], L.KerSet(g.states[j])) {
      assert S.Finished(x, g, amem, indgo, j);
    }
    ghost var shift := w.shift;
    for a := 1 to |x.starts|
      invariant w.acc == chk && w.shift == shift && |w.goto| == a
      invariant forall b :: 1 <= b < a ==> GotoRowRight(x, g, b, w.goto[b]) && T.GotoRowOk(w.goto[b], b, chk)
    {
      var r := NontermRow(x, g, ps, amem, indgo, chk, a);
      w := w.(goto := w.goto + [r]);
    }
  }

  // ----- the tables -----

  /** What is written out: `yyact`, `yypact`, `yypgo`, `yychk`. */
  datatype Output = Output(act: seq<int>, pact: seq<int>, pgo: seq<int>, chk: seq<int>)

  /** Where the tables lead from state `i` over symbol `s`. */
  function Move(o: Output, i: int, s: int): int {
    if s >= NTBASE then
      if s - NTBASE < |o.pgo| then T.GotoAt(o.act, o.pgo[s - NTBASE], o.chk, s - NTBASE, i) else 0
    else if 0 <= i < |o.pact| then T.ShiftAt(o.act, o.pact[i], o.chk, s)
    else 0
  }

  /** The tables agree with the automaton at every state and symbol. */
  ghost predicate TablesRight(x: C.Ctx, g: S.Gen, drop: nat -> set<int>, o: Output)
    requires C.CtxOk(x)
  {
    && (forall i, t {:trigger Move(o, i, t)} :: 0 <= i < |g.states| && 2 <= t <= x.ntokens ==> ShiftRight(x, g, i, t, t in drop(i), Move(o, i, t)))
    && (forall i, s {:trigger Move(o, i, s)} :: 0 <= i < |g.states| && NTBASE < s < NTBASE + |x.starts| ==>
          var k := L.Goto0(x, L.KerSet(g.states[i]), s);
          k != {} ==> S.IsState(g, Move(o, i, s), k))
  }

  lemma {:induction false} PackedRight(x: C.Ctx, g: S.Gen, drop: nat -> set<int>, w: T.Rows, o: Output)
    requires C.CtxOk(x) && RowsRight(x, g, drop, w) && w.acc == o.chk && x.ntokens < NTBASE
    requires |o.pact| == |w.shift| && |o.pgo| == |w.goto|
    requires forall i, s :: 0 <= i < |o.pact| && s >= 1 ==> T.ShiftAt(o.act, o.pact[i], w.acc, s) == T.RowTarget(w.shift[i], s)
    requires forall a, s :: 1 <= a < |o.pgo| && w.goto[a].dflt != 0 && s >= 0 ==>
      T.GotoAt(o.act, o.pgo[a], w.acc, a, s) == if T.RowTarget(w.goto[a].entries, s) != 0 then T.RowTarget(w.goto[a].entries, s) else w.goto[a].dflt
    ensures TablesRight(x, g, drop, o)
  {
    forall i, t | 0 <= i < |g.states| && 2 <= t <= x.ntokens ensures ShiftRight(x, g, i, t, t in drop(i), Move(o, i, t)) {
      assert ShiftRowRight(x, g, i, drop(i), w.shift[i]);
      assert T.ShiftAt(o.act, o.pact[i], w.acc, t) == T.RowTarget(w.shift[i], t);
    }
    forall i, s | 0 <= i < |g.states| && NTBASE < s < NTBASE + |x.starts| && L.Goto0(x, L.KerSet(g.states[i]), s) != {}
      ensures S.IsState(g, Move(o, i, s), L.Goto0(x, L.KerSet(g.states[i]), s))
    {
      var a := s - NTBASE;
      assert GotoRowRight(x, g, a, w.goto[a]);
      assert S.NtGoto(x, L.KerSet(g.states[i]), a) == L.Goto0(x, L.KerSet(g.states[i]), s);
      var v := T.RowTarget(w.goto[a].entries, i);
      assert w.goto[a].dflt != 0;
    }
  }

  /** The state that the tables lead to from state 0 over the symbols of `path`. */
  function Follow(o: Output, path: seq<int>): int {
    if path == [] then 0 else Move(o, Follow(o, path[..|path| - 1]), path[|path| - 1])
  }

  /** No shift along the path was given up to a conflict. */
  ghost predicate KeptPath(drop: nat -> set<int>, o: Output, path: seq<int>) {
    forall n {:trigger path[n]} :: 0 <= n < |path| ==> Follow(o, path[..n]) >= 0 && path[n] !in drop(Follow(o, path[..n]))
  }

  /** The packed tables simulate the LR(0) automaton: over any path of symbols that leads to a kernel
      they lead to the state with that kernel. */
  lemma {:induction false} TablesSimulate(x: C.Ctx, g: S.Gen, drop: nat -> set<int>, o: Output, path: seq<int>)
    requires S.GenOk(x, g) && TablesRight(x, g, drop, o)
    requires L.PathOk(path) && L.After(x, path) != {} && KeptPath(drop, o, path)
    requires forall n :: 0 <= n < |path| ==> path[n] <= x.ntokens || NTBASE < path[n] < NTBASE + |x.starts|
    ensures S.IsState(g, Follow(o, path), L.After(x, path))
    decreases |path|
  {
    if path == [] {
      assert S.StateOk(x, g, 0);
      assert g.states[0][0].pitem == L.START;
      assert L.KerSet(g.states[0]) == {L.START};
    } else {
      var n := |path| - 1;
      var p, s := path[..n], path[n];
      S.EmptyGoesNowhere(x, s);
      forall m | 0 <= m < |p| ensures Follow(o, p[..m]) >= 0 && p[m] !in drop(Follow(o, p[..m])) {
        assert p[m] == path[m] && p[..m] == path[..m];
      }
      TablesSimulate(x, g, drop, o, p);
      var i := Follow(o, p);
      assert Follow(o, path) == Move(o, i, s);
      assert s !in drop(i);
      TablesStep(x, g, drop, o, i, L.After(x, p), s);
    }
  }

  lemma {:induction false} TablesStep(x: C.Ctx, g: S.Gen, drop: nat -> set<int>, o: Output, i: int, k: set<int>, s: int)
    requires C.CtxOk(x) && TablesRight(x, g, drop, o) && S.IsState(g, i, k)
    requires 2 <= s <= x.ntokens || NTBASE < s < NTBASE + |x.starts|
    requires s !in drop(i) && L.Goto0(x, k, s) != {}
    ensures S.IsState(g, Move(o, i, s), L.Goto0(x, k, s))
  {
    if s <= x.ntokens {
      assert ShiftRight(x, g, i, s, s in drop(i), Move(o, i, s));
    }
  }

  /** The packed tables follow every viable prefix of the grammar on which no shift was given up. */
  lemma {:induction false} PrefixFollowed(g: G.Grammar, x: C.Ctx, states: S.Gen, drop: nat -> set<int>, o: Output, path: seq<int>)
    requires V.ContextOf(g, x) && V.Productive(g) && S.GenOk(x, states) && TablesRight(x, states, drop, o)
    requires L.PathOk(path) && V.Viable(G.Abs(g), path) && KeptPath(drop, o, path)
    ensures S.IsState(states, Follow(o, path), L.After(x, path))
  {
    V.ViableExactly(g, x, path);
    V.PathSyms(g, x, path);
    forall n | 0 <= n < |path| ensures path[n] <= x.ntokens || NTBASE < path[n] < NTBASE + |x.starts| {
      assert F.IsSym(G.Abs(g), path[n]);
    }
    TablesSimulate(x, states, drop, o, path);
  }

  // ----- the whole -----

  /** Every nonterminal has a production, and each but `$accept` derives a token string. */
  ghost predicate Acceptable(g: G.Grammar)
    requires G.Wf(g)
  {
    (forall c :: 0 <= c <= g.nnonter ==> G.Defined(g, c)) && V.Productive(g)
  }

  /** What the automaton is built from: the items of the grammar, which nonterminals can vanish, and
      the tokens that each can begin with.  The grammar is refused exactly if it is not acceptable. */
  method Context(g: G.Grammar) returns (ok: bool, x: C.Ctx)
    requires G.Wf(g)
    ensures ok <==> Acceptable(g)
    ensures ok ==> V.ContextOf(g, x) && C.IsItem(x, L.START) && R.CornersOk(x, Corners(g))
    ensures ok ==> F.EmptyExact(G.Abs(g), x.pempty) && F.FirstExact(G.Abs(g), x.pfirst)
  {
    x := C.Ctx([], [], 0, [], []);
    var pres: seq<seq<nat>>;
    ok, pres := G.Cpres(g);
    if !ok {
      return;
    }
    var pempty: seq<int>;
    ok, pempty := G.Cempty(g);
    if !ok {
      return;
    }
    var pfirst := G.Cpfir(g, pres, pempty);
    x := MakeCtx(g, pres, pempty, pfirst);
    CtxFits(g, pres, pempty, pfirst);
    CornersFit(g, pres, pempty, pfirst);
    StartsAscend(g, pres, pempty, pfirst);
    StartsFit(g, x);
  }

  lemma {:induction false} ProdsAscend(g: G.Grammar, a: nat, b: nat)
    requires G.Wf(g) && a < b < G.Nprod(g)
    ensures g.prdptr[a] < g.prdptr[b]
  {
    assert G.ProdOk(g, b - 1);
    if a < b - 1 {
      ProdsAscend(g, a, b - 1);
    }
  }

  lemma {:induction false} StartsAscend(g: G.Grammar, pres: seq<seq<nat>>, pempty: seq<int>, pfirst: seq<set<int>>)
    requires G.Wf(g) && G.PresOk(g, pres)
    ensures forall c :: 0 <= c <= g.nnonter ==> V.Ascends(MakeCtx(g, pres, pempty, pfirst).starts[c])
  {
    forall c | 0 <= c <= g.nnonter ensures V.Ascends(StartItems(g, pres[c])) {
      assert G.Yields(g, pres[c], c, G.Nprod(g));
      forall i, j | 0 <= i < j < |pres[c]| ensures StartItems(g, pres[c])[i] < StartItems(g, pres[c])[j] {
        ProdsAscend(g, pres[c][i], pres[c][j]);
      }
    }
  }

  /** The corners of a context are its start items, in both directions. */
  lemma {:induction false} StartsFit(g: G.Grammar, x: C.Ctx)
    requires G.Wf(g) && C.CtxOk(x) && x.mem == g.mem && x.ntokens == g.ntokens && |x.starts| == g.nnonter + 1 && R.CornersOk(x, Corners(g))
    requires forall c :: 0 <= c <= g.nnonter ==> V.Ascends(x.starts[c])
    ensures V.ContextOf(g, x)
  {
    var ps := Corners(g);
    forall c, it | 0 <= c <= g.nnonter ensures V.StartOk(g, x, c, it) {
      if it in x.starts[c] {
        assert R.Corner(c, it) in ps;
        var p :| 0 <= p < |ps| && ps[p] == R.Corner(c, it);
        assert V.StartsProd(g, c, it, p);
      }
      if p :| V.StartsProd(g, c, it, p) {
        assert ps[p] == R.Corner(c, it);
      }
    }
  }

  /** What the lookaheads of the states are: those that come from the start state by turns, of which each sends on all that a
      state has unless the state loses its mark.  They are the LALR(1) lookaheads exactly if every state has sent on all
      it has, and so for every grammar in which no state has both a goto to itself and a reduction outside its kernel. */
  ghost predicate LooksOf(x: C.Ctx, states: S.Gen)
    requires C.CtxOk(x)
  {
    && U.Made(x, states) && U.SentOn(x, states)
    && (A.LalrExact(x, states) <==> A.AllPropagated(x, states))
    && (A.Untangled(x) ==> A.LalrExact(x, states))
  }

  /** The automaton: every path that leads anywhere leads to a state, and every state is finished.  This fails only
      if the closure of some kernel is too large, if there are too many kernels, or if a row of gotos has no room. */
  method Automaton(x: C.Ctx) returns (ok: bool, states: S.Gen, amem: seq<int>, indgo: seq<int>)
    requires C.CtxOk(x) && C.IsItem(x, L.START) && x.ntokens < NTBASE && |x.starts| >= 1
    ensures ok ==> S.GenOk(x, states) && |indgo| >= |states.states|
    ensures ok ==> forall j :: 0 <= j < |states.states| ==> S.Finished(x, states, amem, indgo, j)
    ensures ok ==> forall path :: L.PathOk(path) && L.After(x, path) != {} ==> S.HasState(states, L.After(x, path))
    ensures ok ==> LooksOf(x, states)
    ensures ok ==> !S.Unfit(x) && !S.Crowded(x)
    ensures !ok ==> S.Unfit(x) || S.Crowded(x) || S.Cramped(x, states, amem, indgo)
  {
    var gen := new N.Generator(x);
    U.MadeAtStart(x);
    ok := gen.Stagen();
    states, amem, indgo := gen.Now(), gen.amem[..], gen.indgo;
    if ok {
      forall j | 0 <= j < |states.states| ensures S.Finished(x, states, amem, indgo, j) {
        assert S.Finished(gen.x, gen.Now(), gen.amem[..], gen.indgo, j);
      }
      LooksAreRight(x, states, amem, indgo);
    }
  }

  lemma {:induction false} LooksAreRight(x: C.Ctx, states: S.Gen, amem: seq<int>, indgo: seq<int>)
    requires S.GenOk(x, states) && U.Made(x, states) && U.SentOn(x, states)
    requires forall j :: 0 <= j < |states.states| ==> S.Finished(x, states, amem, indgo, j)
    ensures LooksOf(x, states)
  {
    forall j | 0 <= j < |states.states| ensures S.GotosRegistered(x, states, L.KerSet(states.states[j])) {
      assert S.Finished(x, states, amem, indgo, j);
    }
    A.LalrExactly(x, states);
    if A.Untangled(x) {
      A.UntangledIsExact(x, states);
    }
  }

  /** The tables, packed from the rows of the automaton.  This fails only if a row has no place left; `t` is what the
      optimizer then leaves behind. */
  method Pack(x: C.Ctx, g: S.Gen, drop: nat -> set<int>, w: T.Rows) returns (ok: bool, o: Output, ghost t: T.Tables)
    requires C.CtxOk(x) && x.ntokens < NTBASE && T.RowsOk(w) && RowsRight(x, g, drop, w)
    ensures ok ==> TablesRight(x, g, drop, o)
    ensures !ok ==> T.Jammed(w, t)
  {
    o := Output([], [], [], []);
    var opt := new T.Optimizer(w);
    ok := opt.CallOpt();
    t := opt.Now();
    if ok {
      o := Output(opt.Yyact(), opt.indgo[..], opt.pgo[..], w.acc);
      PackedRight(x, g, drop, w, o);
    }
  }

  /** The states are those of the viable prefixes of the grammar. */
  ghost predicate StatesOf(g: G.Grammar, x: C.Ctx, states: S.Gen)
    requires V.ContextOf(g, x)
  {
    && S.GenOk(x, states)
    && (forall path {:trigger V.Viable(G.Abs(g), path)} :: L.PathOk(path) ==> (V.Viable(G.Abs(g), path) <==> S.HasState(states, L.After(x, path))))
    && (forall j {:trigger states.states[j]} :: 0 <= j < |states.states| ==> SomePrefix(g, x, states, j))
  }

  /** Some viable prefix leads to state `j`. */
  ghost predicate SomePrefix(g: G.Grammar, x: C.Ctx, states: S.Gen, j: int)
    requires V.ContextOf(g, x)
  {
    exists path :: L.PathOk(path) && V.Viable(G.Abs(g), path) && S.IsState(states, j, L.After(x, path))
  }

  lemma {:induction false} StatesAreViable(g: G.Grammar, x: C.Ctx, states: S.Gen)
    requires V.ContextOf(g, x) && V.Productive(g) && C.IsItem(x, L.START) && S.GenOk(x, states)
    requires forall path :: L.PathOk(path) && L.After(x, path) != {} ==> S.HasState(states, L.After(x, path))
    ensures StatesOf(g, x, states)
  {
    forall path | L.PathOk(path) ensures V.Viable(G.Abs(g), path) <==> S.HasState(states, L.After(x, path)) {
      V.ViableExactly(g, x, path);
      if S.HasState(states, L.After(x, path)) {
        var j :| S.IsState(states, j, L.After(x, path));
        KernelIsThere(x, states, j);
      }
    }
    forall j | 0 <= j < |states.states| ensures SomePrefix(g, x, states, j) {
      assert S.StateOk(x, states, j);
      KernelIsThere(x, states, j);
      var path :| L.PathOk(path) && L.After(x, path) == L.KerSet(states.states[j]);
      V.ViableExactly(g, x, path);
    }
  }

  lemma {:induction false} KernelIsThere(x: C.Ctx, states: S.Gen, j: int)
    requires S.GenOk(x, states) && 0 <= j < |states.states|
    ensures L.KerSet(states.states[j]) != {}
  {
    assert S.StateOk(x, states, j);
    assert states.states[j][0].pitem in L.KerSet(states.states[j]);
  }

  /** How a run ends: with tables, with the grammar refused, or with some table overflowing. */
  datatype Outcome = Fine | Refused | Overflow

  /** What overflowed: the working set, the states, the action table, or the array of the optimizer, which has been given the
      rows of the automaton. */
  ghost predicate Overflowed(g: G.Grammar, x: C.Ctx, states: S.Gen, drop: nat -> set<int>, amem: seq<int>, indgo: seq<int>, w: T.Rows, t: T.Tables)
    requires V.ContextOf(g, x)
  {
    || S.Unfit(x) || S.Crowded(x) || S.Cramped(x, states, amem, indgo)
    || (StatesOf(g, x, states) && T.RowsOk(w) && RowsRight(x, states, drop, w) && T.Jammed(w, t))
  }

  /** The whole of yacc after the grammar has been read; `drop` says which shifts of which state lose
      a conflict.  A grammar is refused exactly if it is not acceptable.  If no table overflows, the states are
      those of the viable prefixes of the grammar, and the packed tables agree with the automaton everywhere. */
  method Yacc(g: G.Grammar, drop: nat -> set<int>)
    returns (e: Outcome, x: C.Ctx, states: S.Gen, o: Output, amem: seq<int>, indgo: seq<int>, w: T.Rows, ghost t: T.Tables)
    requires G.Wf(g) && g.nnonter < NNONTERM
    ensures e.Refused? <==> !Acceptable(g)
    ensures !e.Refused? ==> V.ContextOf(g, x) && F.EmptyExact(G.Abs(g), x.pempty) && F.FirstExact(G.Abs(g), x.pfirst)
    ensures e.Fine? ==> StatesOf(g, x, states) && LooksOf(x, states) && TablesRight(x, states, drop, o)
    ensures e.Overflow? ==> Overflowed(g, x, states, drop, amem, indgo, w, t)
    ensures e.Fine? ==> !S.Unfit(x) && !S.Crowded(x)
  {
    o, states, amem, indgo, w := Output([], [], [], []), S.Gen([], [], [], [], []), [], [], T.Rows([], [], []);
    t := T.Tables([], [], [], {});
    var ok: bool;
    ok, x := Context(g);
    if !ok {
      e := Refused;
      return;
    }
    e := Overflow;
    ok, states, amem, indgo := Automaton(x);
    if !ok {
      return;
    }
    StatesAreViable(g, x, states);
    w := MakeRows(x, states, Corners(g), amem, indgo, drop);
    ok, o, t := Pack(x, states, drop, w);
    if ok {
      e := Fine;
    }
  }

  // ----- a grammar with a lookahead lost -----

  lemma {:induction false} NestedAccepted()
    ensures G.Wf(K.Nested()) && Acceptable(K.Nested())
  {
    var g := K.Nested();
    K.NestedProds();
    forall c | 0 <= c <= g.nnonter ensures G.Defined(g, c) {
      assert G.Lhs(g, c) == NTBASE + c;
    }
    assert G.ProdOk(g, 2);
    assert G.Rhs(g, 2) == [];
    var ps := G.Abs(g).ps;
    ByProduction(ps, 2);
    forall c | 1 <= c <= g.nnonter ensures DerivesInto(ps, F.Nt(c), G.Tokens(G.Abs(g))) {
      assert F.Nt(c) == [ps[2].lhs];
      assert Over([], G.Tokens(G.Abs(g)));
    }
  }

  lemma {:induction false} NestedState(x: C.Ctx, states: S.Gen) returns (j: int)
    requires V.ContextOf(K.Nested(), x) && StatesOf(K.Nested(), x, states)
    ensures S.IsState(states, j, L.After(x, [K.A, K.S]))
  {
    var path := [K.A, K.S];
    NestedAccepted();
    K.NestedTables(x);
    K.AfterAS(x);
    V.ViableExactly(K.Nested(), x, path);
    assert V.Viable(G.Abs(K.Nested()), path) && S.HasState(states, L.After(x, path));
    j :| S.IsState(states, j, L.After(x, path));
  }

  /** yacc accepts the grammar S: 'a' S 'b' or nothing, and whenever it makes states for it, the state after 'a' S is there
      and lacks the lookahead 'b' that the LR(1) automaton has. */
  lemma {:induction false} NestedLoses(x: C.Ctx, states: S.Gen)
    requires V.ContextOf(K.Nested(), x) && StatesOf(K.Nested(), x, states) && LooksOf(x, states)
    ensures Acceptable(K.Nested()) && !A.LalrExact(x, states) && exists j :: K.Lacks(x, states, j)
  {
    NestedAccepted();
    var j := NestedState(x, states);
    K.LookaheadIsLost(x, states, j);
  }
}
