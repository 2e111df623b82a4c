/**
 What the automaton is for: a path of symbols leads to a kernel exactly when it is a viable prefix, that is, when a
 rightmost derivation from the start symbol shows it to the left of what has not been read.
 */
module YaccViable {
  import opened YaccDerivation
  import opened YaccFirst
  import opened YaccSizes
  import G = YaccGrammar
  import C = YaccClosure
  import L = YaccLr

  // ----- rightmost derivations -----

  ghost predicate TokenString(c: Cfg, w: seq<int>) { forall k :: 0 <= k < |w| ==> IsToken(c, w[k]) }

  /** Production `p` replaces the symbol at position `k`, and only tokens come after that. */
  ghost predicate RightAt(c: Cfg, a: seq<int>, b: seq<int>, k: int, p: int) {
    StepAt(c.ps, a, b, k, p) && TokenString(c, a[k + 1..])
  }

  ghost predicate RightStep(c: Cfg, a: seq<int>, b: seq<int>) { exists k, p :: RightAt(c, a, b, k, p) }

  ghost predicate RightIn(c: Cfg, a: seq<int>, b: seq<int>, n: nat)
    decreases n
  {
    if n == 0 then a == b else exists m :: RightIn(c, a, m, n - 1) && RightStep(c, m, b)
  }

  ghost predicate RightDerives(c: Cfg, a: seq<int>, b: seq<int>) { exists n: nat :: RightIn(c, a, b, n) }

  lemma RightRefl(c: Cfg, a: seq<int>)
    ensures RightDerives(c, a, a)
  {
    assert RightIn(c, a, a, 0);
  }

  lemma {:induction false} RightInTrans(c: Cfg, a: seq<int>, b: seq<int>, d: seq<int>, n: nat, m: nat)
    requires RightIn(c, a, b, n) && RightIn(c, b, d, m)
    ensures RightIn(c, a, d, n + m)
    decreases m
  {
    if m > 0 {
      var x :| RightIn(c, b, x, m - 1) && RightStep(c, x, d);
      RightInTrans(c, a, b, x, n, m - 1);
      assert RightIn(c, a, x, n + m - 1) && RightStep(c, x, d);
    }
  }

  lemma {:induction false} RightTrans(c: Cfg, a: seq<int>, b: seq<int>, d: seq<int>)
    requires RightDerives(c, a, b) && RightDerives(c, b, d)
    ensures RightDerives(c, a, d)
  {
    var n: nat :| RightIn(c, a, b, n);
    var m: nat :| RightIn(c, b, d, m);
    RightInTrans(c, a, b, d, n, m);
  }

  lemma {:induction false} RightOneStep(c: Cfg, a: seq<int>, b: seq<int>)
    requires RightStep(c, a, b)
    ensures RightDerives(c, a, b)
  {
    assert RightIn(c, a, a, 0) && RightStep(c, a, b);
    assert RightIn(c, a, b, 1);
  }

  lemma {:induction false} RightStepInContext(c: Cfg, x: seq<int>, a: seq<int>, b: seq<int>, w: seq<int>)
    requires RightStep(c, a, b) && TokenString(c, w)
    ensures RightStep(c, x + a + w, x + b + w)
  {
    var k, p :| RightAt(c, a, b, k, p);
    var a1 := x + a + w;
    assert a1[..|x| + k] == x + a[..k];
    assert a1[|x| + k + 1..] == a[k + 1..] + w;
    assert x + b + w == a1[..|x| + k] + c.ps[p].rhs + a1[|x| + k + 1..];
    assert RightAt(c, a1, x + b + w, |x| + k, p);
  }

  lemma {:induction false} RightInContext(c: Cfg, x: seq<int>, a: seq<int>, b: seq<int>, w: seq<int>, n: nat)
    requires RightIn(c, a, b, n) && TokenString(c, w)
    ensures RightIn(c, x + a + w, x + b + w, n)
    decreases n
  {
    if n > 0 {
      var m :| RightIn(c, a, m, n - 1) && RightStep(c, m, b);
      RightInContext(c, x, a, m, w, n - 1);
      RightStepInContext(c, x, m, b, w);
    }
  }

  /** A rightmost derivation may be carried out to the left of tokens. */
  lemma {:induction false} RightContext(c: Cfg, x: seq<int>, a: seq<int>, b: seq<int>, w: seq<int>)
    requires RightDerives(c, a, b) && TokenString(c, w)
    ensures RightDerives(c, x + a + w, x + b + w)
  {
    var n: nat :| RightIn(c, a, b, n);
    RightInContext(c, x, a, b, w, n);
  }

  lemma {:induction false} RightByProduction(c: Cfg, x: seq<int>, p: int, w: seq<int>)
    requires 0 <= p < |c.ps| && TokenString(c, w)
    ensures RightDerives(c, x + [c.ps[p].lhs] + w, x + c.ps[p].rhs + w)
  {
    var a, b := x + [c.ps[p].lhs] + w, x + c.ps[p].rhs + w;
    assert a[..|x|] == x && a[|x| + 1..] == w;
    assert RightAt(c, a, b, |x|, p);
    RightOneStep(c, a, b);
  }

  // ----- whatever derives tokens does so from the right -----

  lemma {:induction false} StepInLeft(ps: seq<Prod>, a: seq<int>, b: seq<int>, m: seq<int>, k: int, p: int) returns (a1: seq<int>)
    requires StepAt(ps, a + b, m, k, p) && k < |a|
    ensures m == a1 + b && Step(ps, a, a1)
  {
    a1 := a[..k] + ps[p].rhs + a[k + 1..];
    assert (a + b)[..k] == a[..k] && (a + b)[k + 1..] == a[k + 1..] + b;
    assert StepAt(ps, a, a1, k, p);
  }

  lemma {:induction false} StepInRight(ps: seq<Prod>, a: seq<int>, b: seq<int>, m: seq<int>, k: int, p: int) returns (b1: seq<int>)
    requires StepAt(ps, a + b, m, k, p) && k >= |a|
    ensures m == a + b1 && Step(ps, b, b1)
  {
    var j := k - |a|;
    b1 := b[..j] + ps[p].rhs + b[j + 1..];
    assert (a + b)[..k] == a + b[..j] && (a + b)[k + 1..] == b[j + 1..];
    assert StepAt(ps, b, b1, j, p);
  }

  lemma {:induction false} StepSplits(ps: seq<Prod>, a: seq<int>, b: seq<int>, m: seq<int>) returns (left: bool, a1: seq<int>, b1: seq<int>)
    requires Step(ps, a + b, m)
    ensures m == a1 + b1 && if left then Step(ps, a, a1) && b1 == b else a1 == a && Step(ps, b, b1)
  {
    var k, p :| StepAt(ps, a + b, m, k, p);
    left, a1, b1 := k < |a|, a, b;
    if left {
      a1 := StepInLeft(ps, a, b, m, k, p);
    } else {
      b1 := StepInRight(ps, a, b, m, k, p);
    }
  }

  lemma DerivesAfterStep(ps: seq<Prod>, a: seq<int>, m: seq<int>, w: seq<int>, n: nat)
    requires Step(ps, a, m) && DerivesIn(ps, m, w, n)
    ensures DerivesIn(ps, a, w, n + 1)
  {
  }

  /** What two strings derive together is what each derives. */
  lemma {:induction false} DerivesSplits(ps: seq<Prod>, a: seq<int>, b: seq<int>, w: seq<int>, n: nat)
    returns (u: seq<int>, v: seq<int>, i: nat, j: nat)
    requires DerivesIn(ps, a + b, w, n)
    ensures w == u + v && DerivesIn(ps, a, u, i) && DerivesIn(ps, b, v, j) && i + j == n
    decreases n
  {
    if n == 0 {
      u, v, i, j := a, b, 0, 0;
    } else {
      var m :| Step(ps, a + b, m) && DerivesIn(ps, m, w, n - 1);
      var left, a1, b1 := StepSplits(ps, a, b, m);
      u, v, i, j := DerivesSplits(ps, a1, b1, w, n - 1);
      if left {
        DerivesAfterStep(ps, a, a1, u, i);
        i := i + 1;
      } else {
        DerivesAfterStep(ps, b, b1, v, j);
        j := j + 1;
      }
    }
  }

  lemma {:induction false} SymbolFromRight(c: Cfg, s: int, w: seq<int>, n: nat)
    requires DerivesIn(c.ps, [s], w, n) && n > 0 && TokenString(c, w)
    ensures RightDerives(c, [s], w)
    decreases n, 0
  {
    var m :| Step(c.ps, [s], m) && DerivesIn(c.ps, m, w, n - 1);
    var k, p :| StepAt(c.ps, [s], m, k, p);
    assert m == c.ps[p].rhs;
    FromRight(c, m, w, n - 1);
    RightByProduction(c, [], p, []);
    assert [] + [s] + [] == [s] && [] + m + [] == m;
    RightTrans(c, [s], m, w);
  }

  lemma {:induction false} EmptyStays(ps: seq<Prod>, w: seq<int>, n: nat)
    requires DerivesIn(ps, [], w, n)
    ensures w == []
  {
  }

  /** First the last symbol, then the rest. */
  lemma {:induction false} LastFirst(c: Cfg, b: seq<int>, s: int, u: seq<int>, v: seq<int>)
    requires RightDerives(c, b, u) && RightDerives(c, [s], v) && TokenString(c, v)
    ensures RightDerives(c, b + [s], u + v)
  {
    RightContext(c, b, [s], v, []);
    assert b + [s] + [] == b + [s] && b + v + [] == b + v;
    RightContext(c, [], b, u, v);
    assert [] + b + v == b + v && [] + u + v == u + v;
    RightTrans(c, b + [s], b + v, u + v);
  }

  lemma {:induction false} TokenParts(c: Cfg, u: seq<int>, v: seq<int>)
    requires TokenString(c, u + v)
    ensures TokenString(c, u) && TokenString(c, v)
  {
    assert forall k :: 0 <= k < |u| ==> u[k] == (u + v)[k];
    assert forall k :: 0 <= k < |v| ==> v[k] == (u + v)[|u| + k];
  }

  lemma {:induction false} FromRight(c: Cfg, a: seq<int>, w: seq<int>, n: nat)
    requires DerivesIn(c.ps, a, w, n) && TokenString(c, w)
    ensures RightDerives(c, a, w)
    decreases n, 1 + |a|
  {
    if a == [] {
      EmptyStays(c.ps, w, n);
      RightRefl(c, a);
    } else {
      var b, s := a[..|a| - 1], a[|a| - 1];
      assert a == b + [s];
      var u, v, i, j := DerivesSplits(c.ps, b, [s], w, n);
      TokenParts(c, u, v);
      FromRight(c, b, u, i);
      if j == 0 {
        RightRefl(c, [s]);
      } else {
        SymbolFromRight(c, s, v, j);
      }
      LastFirst(c, b, s, u, v);
    }
  }

  // ----- viable prefixes -----

  ghost predicate ViableBy(c: Cfg, path: seq<int>, alpha: seq<int>, p: int, w: seq<int>) {
    && 0 <= p < |c.ps| && TokenString(c, w) && RightDerives(c, [NTBASE], alpha + [c.ps[p].lhs] + w)
    && path <= alpha + c.ps[p].rhs
  }

  /** Some rightmost derivation from `$accept` replaces a symbol by a right side that ends no earlier than `path` does,
      with only tokens to come after it. */
  ghost predicate Viable(c: Cfg, path: seq<int>) { exists alpha, p, w :: ViableBy(c, path, alpha, p, w) }

  // ----- the automaton of a grammar -----

  ghost predicate StartsProd(g: G.Grammar, c: int, it: int, p: int)
    requires G.Wf(g)
  {
    0 <= p < G.Nprod(g) && G.Lhs(g, p) == NTBASE + c && it == g.prdptr[p] + 1
  }

  ghost predicate StartOk(g: G.Grammar, x: C.Ctx, c: int, it: int)
    requires G.Wf(g) && 0 <= c < |x.starts|
  {
    it in x.starts[c] <==> exists p :: StartsProd(g, c, it, p)
  }

  /** The items that begin the productions of a nonterminal are in the order of the productions. */
  ghost predicate Ascends(starts: seq<int>) { forall i, j :: 0 <= i < j < |starts| ==> starts[i] < starts[j] }

  /** The tables are those of the grammar: its production memory, its tokens, and for each nonterminal just the items
      that begin its productions, in order. */
  ghost predicate ContextOf(g: G.Grammar, x: C.Ctx) {
    && G.Wf(g) && C.CtxOk(x) && x.mem == g.mem && x.ntokens == g.ntokens && |x.starts| == g.nnonter + 1
    && (forall c, it {:trigger StartOk(g, x, c, it)} :: 0 <= c <= g.nnonter ==> StartOk(g, x, c, it))
    && (forall c {:trigger Ascends(x.starts[c])} :: 0 <= c <= g.nnonter ==> Ascends(x.starts[c]))
  }

  ghost predicate Symbols(path: seq<int>) { forall i :: 0 <= i < |path| ==> path[i] > 0 }

  lemma {:induction false} AfterItems(x: C.Ctx, path: seq<int>)
    requires C.CtxOk(x) && C.IsItem(x, L.START) && Symbols(path)
    ensures L.ItemSet(x, L.After(x, path)) && C.ClosedItems(x, L.Closure0(x, L.After(x, path))) && L.After(x, path) <= L.Closure0(x, L.After(x, path))
  {
    if path != [] {
      L.GotoIsItemSet(x, L.After(x, path[..|path| - 1]), path[|path| - 1]);
    }
    L.Closure0Closed(x, L.After(x, path));
  }

  // ----- every viable prefix leads to a kernel -----

  /** The closure of what `path` leads to has an item before the symbol `s`. */
  ghost predicate Expects(x: C.Ctx, path: seq<int>, s: int)
    requires C.CtxOk(x)
  {
    exists it :: it in L.Closure0(x, L.After(x, path)) && x.mem[it] == s
  }

  lemma {:induction false} ExpectedLeads(x: C.Ctx, path: seq<int>, s: int)
    requires C.CtxOk(x) && Expects(x, path, s)
    ensures L.After(x, path + [s]) != {}
  {
    L.AfterStep(x, path, s);
    var it :| it in L.Closure0(x, L.After(x, path)) && x.mem[it] == s;
    assert it + 1 in L.Goto0(x, L.After(x, path), s);
  }

  /** Where a nonterminal is expected, its productions begin. */
  lemma {:induction false} Opens(g: G.Grammar, x: C.Ctx, path: seq<int>, q: int)
    requires ContextOf(g, x) && C.IsItem(x, L.START) && Symbols(path) && 0 <= q < G.Nprod(g) && Expects(x, path, G.Lhs(g, q))
    ensures g.prdptr[q] + 1 in L.Closure0(x, L.After(x, path))
  {
    AfterItems(x, path);
    var it :| it in L.Closure0(x, L.After(x, path)) && x.mem[it] == G.Lhs(g, q);
    assert G.ProdOk(g, q);
    var c := G.Lhs(g, q) - NTBASE;
    assert StartOk(g, x, c, g.prdptr[q] + 1) && StartsProd(g, c, g.prdptr[q] + 1, q);
    assert g.prdptr[q] + 1 in C.Next(x, it);
  }

  /** After `path` the automaton may be at item `it`. */
  ghost predicate AtItem(x: C.Ctx, path: seq<int>, it: int)
    requires C.CtxOk(x)
  {
    Symbols(path) && forall k: set<int> {:trigger Kernel(k)} :: Kernel(k) && k == L.After(x, path) ==> it in L.Closure0(x, k)
  }

  /** Names a kernel where its closure is to be looked at. */
  ghost predicate Kernel(k: set<int>) { true }

  lemma {:induction false} OneAlong(x: C.Ctx, path: seq<int>, it: int, s: int, next: seq<int>, to: int)
    requires C.CtxOk(x) && C.IsItem(x, L.START) && s > 0 && AtItem(x, path, it) && C.IsItem(x, it) && x.mem[it] == s
    requires next == path + [s] && to == it + 1
    ensures AtItem(x, next, to)
  {
    L.AfterStep(x, path, s);
    assert Kernel(L.After(x, path));
    assert to in L.Goto0(x, L.After(x, path), s);
    AfterItems(x, next);
  }

  /** The symbols of `r` are in memory from cell `it` on. */
  ghost predicate InCells(x: C.Ctx, it: int, r: seq<int>) {
    forall k: nat {:trigger InCell(x, it, r, k)} :: k < |r| ==> InCell(x, it, r, k)
  }

  ghost predicate InCell(x: C.Ctx, it: int, r: seq<int>, k: nat)
    requires k < |r|
  {
    0 < it + k < |x.mem| && x.mem[it + k] == r[k] > 0
  }

  lemma {:induction false} AlongCells(x: C.Ctx, path: seq<int>, it: int, r: seq<int>, d: nat)
    requires C.CtxOk(x) && C.IsItem(x, L.START) && d <= |r| && InCells(x, it, r) && AtItem(x, path, it)
    ensures AtItem(x, path + r[..d], it + d)
    decreases d
  {
    if d == 0 {
      assert path + r[..0] == path;
    } else {
      AlongCells(x, path, it, r, d - 1);
      assert InCell(x, it, r, d - 1);
      assert path + r[..d] == path + r[..d - 1] + [r[d - 1]];
      OneAlong(x, path + r[..d - 1], it + (d - 1), r[d - 1], path + r[..d], it + d);
    }
  }

  lemma Arrives(x: C.Ctx, path: seq<int>, it: int)
    requires C.CtxOk(x) && Symbols(path) && it in L.Closure0(x, L.After(x, path))
    ensures AtItem(x, path, it)
  {
  }

  lemma {:induction false} SideInCells(g: G.Grammar, x: C.Ctx, q: int, it: int, r: seq<int>)
    requires G.Wf(g) && x.mem == g.mem && 0 <= q < G.Nprod(g) && it == g.prdptr[q] + 1 && r == G.Rhs(g, q)
    ensures InCells(x, it, r)
  {
    forall k: nat | k < |r| ensures InCell(x, it, r, k) {
      SideCell(g, q, k);
    }
  }

  /** The dot moves along the right side. */
  lemma {:induction false} Along(g: G.Grammar, x: C.Ctx, path: seq<int>, q: int, d: nat)
    requires ContextOf(g, x) && C.IsItem(x, L.START) && Symbols(path) && 0 <= q < G.Nprod(g) && d <= |G.Rhs(g, q)|
    requires g.prdptr[q] + 1 in L.Closure0(x, L.After(x, path))
    ensures AtItem(x, path + G.Rhs(g, q)[..d], g.prdptr[q] + 1 + d)
  {
    SideInCells(g, x, q, g.prdptr[q] + 1, G.Rhs(g, q));
    Arrives(x, path, g.prdptr[q] + 1);
    AlongCells(x, path, g.prdptr[q] + 1, G.Rhs(g, q), d);
  }

  /** Symbol `d` of a right side, in memory. */
  lemma {:induction false} SideCell(g: G.Grammar, q: int, d: nat)
    requires G.Wf(g) && 0 <= q < G.Nprod(g) && d < |G.Rhs(g, q)|
    ensures g.prdptr[q] + 1 + d < |g.mem| && g.mem[g.prdptr[q] + 1 + d] == G.Rhs(g, q)[d] > 0 && IsSym(G.Abs(g), G.Rhs(g, q)[d])
  {
    G.ProdInMemory(g, q);
    assert IsSym(G.Abs(g), G.Rhs(g, q)[d]);
  }

  /** Position `k` of a form is at or before its last nonterminal. */
  ghost predicate Open(f: seq<int>, k: int) { exists j :: 0 <= j < |f| && k <= j && f[j] >= NTBASE }

  ghost predicate ExpectedAt(x: C.Ctx, f: seq<int>, k: int)
    requires C.CtxOk(x)
  {
    0 <= k < |f| ==> f[k] > 0 && Expects(x, f[..k], f[k])
  }

  /** What stands at or before the last nonterminal of a form is expected there. */
  ghost predicate FormOk(x: C.Ctx, f: seq<int>)
    requires C.CtxOk(x)
  {
    f == [NTBASE] || forall k {:trigger ExpectedAt(x, f, k)} :: 0 <= k < |f| && Open(f, k) ==> ExpectedAt(x, f, k)
  }

  lemma {:induction false} ExpectedPrefix(x: C.Ctx, f: seq<int>, n: nat)
    requires C.CtxOk(x) && n <= |f| && forall k {:trigger ExpectedAt(x, f, k)} :: 0 <= k < n ==> ExpectedAt(x, f, k)
    ensures Symbols(f[..n])
  {
    forall i | 0 <= i < n ensures f[i] > 0 {
      assert ExpectedAt(x, f, i);
    }
  }

  /** After a rightmost step the whole of the new right side is expected, and so is what was before it. */
  lemma {:induction false} StepExpected(g: G.Grammar, x: C.Ctx, m: seq<int>, f: seq<int>, j: int, q: int, k: int)
    requires ContextOf(g, x) && C.IsItem(x, L.START) && FormOk(x, m) && RightAt(G.Abs(g), m, f, j, q)
    requires 0 <= k < j + |G.Rhs(g, q)|
    ensures ExpectedAt(x, f, k)
  {
    var r := G.Rhs(g, q);
    assert G.ProdOk(g, q) && m[j] == G.Lhs(g, q) && f == m[..j] + r + m[j + 1..];
    assert Open(m, j);
    if k < j {
      assert Open(m, k) && ExpectedAt(x, m, k);
      assert f[..k] == m[..k];
    } else {
      var d := k - j;
      OpensHere(g, x, m, j, q);
      Along(g, x, m[..j], q, d);
      assert f[..k] == m[..j] + r[..d];
      SideCell(g, q, d);
      assert f[k] == r[d] && Kernel(L.After(x, f[..k]));
      assert g.prdptr[q] + 1 + d in L.Closure0(x, L.After(x, f[..k]));
    }
  }

  lemma {:induction false} OpensHere(g: G.Grammar, x: C.Ctx, m: seq<int>, j: int, q: int)
    requires ContextOf(g, x) && C.IsItem(x, L.START) && FormOk(x, m) && 0 <= j < |m| && 0 <= q < G.Nprod(g) && m[j] == G.Lhs(g, q)
    ensures Symbols(m[..j]) && g.prdptr[q] + 1 in L.Closure0(x, L.After(x, m[..j]))
  {
    assert G.ProdOk(g, q);
    if m == [NTBASE] {
      assert m[..j] == [] && q == 0;
      AfterItems(x, []);
    } else {
      assert Open(m, j) && ExpectedAt(x, m, j);
      forall k | 0 <= k < j ensures ExpectedAt(x, m, k) {
        assert Open(m, k);
      }
      ExpectedPrefix(x, m, j);
      Opens(g, x, m[..j], q);
    }
  }

  /** Past the new right side there are only tokens. */
  lemma {:induction false} NotPastSide(c: Cfg, m: seq<int>, f: seq<int>, j: int, q: int, i: int)
    requires RightAt(c, m, f, j, q) && c.ntokens < NTBASE && 0 <= i < |f|
    ensures f[i] >= NTBASE ==> i < j + |c.ps[q].rhs|
  {
    var r := c.ps[q].rhs;
    if i >= j + |r| {
      assert f[i] == m[j + 1..][i - j - |r|];
    }
  }

  lemma {:induction false} FormsOk(g: G.Grammar, x: C.Ctx, f: seq<int>, n: nat)
    requires ContextOf(g, x) && C.IsItem(x, L.START) && RightIn(G.Abs(g), [NTBASE], f, n)
    ensures FormOk(x, f)
    decreases n
  {
    if n > 0 {
      var c := G.Abs(g);
      var m :| RightIn(c, [NTBASE], m, n - 1) && RightStep(c, m, f);
      FormsOk(g, x, m, n - 1);
      var j, q :| RightAt(c, m, f, j, q);
      forall k | 0 <= k < |f| && Open(f, k) ensures ExpectedAt(x, f, k) {
        var i :| 0 <= i < |f| && k <= i && f[i] >= NTBASE;
        G.AbsOk(g);
        NotPastSide(c, m, f, j, q, i);
        StepExpected(g, x, m, f, j, q, k);
      }
    }
  }

  lemma {:induction false} PrefixOfForm(path: seq<int>, a: seq<int>, w: seq<int>)
    requires path != [] && path <= a
    ensures var k := |path| - 1; k < |a + w| && (a + w)[..k] == path[..k] && (a + w)[k] == path[k]
  {
  }

  lemma {:induction false} ViableLeads(g: G.Grammar, x: C.Ctx, path: seq<int>)
    requires ContextOf(g, x) && C.IsItem(x, L.START) && Viable(G.Abs(g), path)
    ensures L.After(x, path) != {}
  {
    var c := G.Abs(g);
    var alpha, p, w :| ViableBy(c, path, alpha, p, w);
    var m, r := alpha + [c.ps[p].lhs] + w, c.ps[p].rhs;
    var n: nat :| RightIn(c, [NTBASE], m, n);
    FormsOk(g, x, m, n);
    var f := alpha + r + w;
    assert m[..|alpha|] == alpha && m[|alpha| + 1..] == w;
    assert RightAt(c, m, f, |alpha|, p);
    if path != [] {
      var k := |path| - 1;
      StepExpected(g, x, m, f, |alpha|, p, k);
      PrefixOfForm(path, alpha + r, w);
      ExpectedLeads(x, path[..k], path[k]);
      assert path[..k] + [path[k]] == path;
    }
  }

  // ----- every kernel belongs to viable prefixes -----

  ghost predicate ValidBy(g: G.Grammar, path: seq<int>, p: int, d: int, alpha: seq<int>, w: seq<int>)
    requires G.Wf(g)
  {
    && 0 <= p < G.Nprod(g) && 0 <= d <= |G.Rhs(g, p)| && TokenString(G.Abs(g), w)
    && RightDerives(G.Abs(g), [NTBASE], alpha + [G.Lhs(g, p)] + w)
    && path == alpha + G.Rhs(g, p)[..d]
  }

  ghost predicate ValidAt(g: G.Grammar, path: seq<int>, it: int, p: int, d: int)
    requires G.Wf(g)
  {
    0 <= p < G.Nprod(g) && it == g.prdptr[p] + 1 + d && exists alpha, w :: ValidBy(g, path, p, d, alpha, w)
  }

  /** A rightmost derivation reaches the item with `path` to the left of its dot. */
  ghost predicate Valid(g: G.Grammar, path: seq<int>, it: int)
    requires G.Wf(g)
  {
    exists p, d :: ValidAt(g, path, it, p, d)
  }

  /** Every nonterminal but `$accept` derives a token string, as `cempty` makes sure. */
  ghost predicate Productive(g: G.Grammar)
    requires G.Wf(g)
  {
    forall c {:trigger Nt(c)} :: 1 <= c <= g.nnonter ==> DerivesInto(G.Abs(g).ps, Nt(c), G.Tokens(G.Abs(g)))
  }

  lemma {:induction false} SideFromRight(g: G.Grammar, a: seq<int>) returns (u: seq<int>)
    requires G.Wf(g) && Productive(g) && forall k :: 0 <= k < |a| ==> IsSym(G.Abs(g), a[k])
    ensures TokenString(G.Abs(g), u) && RightDerives(G.Abs(g), a, u)
  {
    var c, t := G.Abs(g), G.Tokens(G.Abs(g));
    forall k | 0 <= k < |a| ensures DerivesInto(c.ps, [a[k]], t) {
      assert IsSym(c, a[k]);
      if IsToken(c, a[k]) {
        DerivesRefl(c.ps, [a[k]]);
        assert Over([a[k]], t);
      } else {
        assert Nt(a[k] - NTBASE) == [a[k]];
      }
    }
    SymbolsDeriveInto(c.ps, a, t);
    u :| Over(u, t) && Derives(c.ps, a, u);
    forall k | 0 <= k < |u| ensures IsToken(c, u[k]) {
      assert u[k] in t;
    }
    var n: nat :| DerivesIn(c.ps, a, u, n);
    FromRight(c, a, u, n);
  }

  /** A form with `B` in the right side that comes next, and what follows `B` turned into tokens. */
  lemma {:induction false} RestToTokens(c: Cfg, alpha: seq<int>, p: int, d: int, w: seq<int>, u: seq<int>)
    requires 0 <= p < |c.ps| && 0 <= d < |c.ps[p].rhs| && TokenString(c, w) && RightDerives(c, c.ps[p].rhs[d + 1..], u)
    ensures var r := c.ps[p].rhs; RightDerives(c, alpha + [c.ps[p].lhs] + w, (alpha + r[..d]) + [r[d]] + (u + w))
  {
    var r := c.ps[p].rhs;
    var x, rest := alpha + r[..d] + [r[d]], r[d + 1..];
    RightByProduction(c, alpha, p, w);
    RightContext(c, x, rest, u, w);
    assert r == r[..d] + [r[d]] + rest;
    assert alpha + r + w == x + rest + w;
    assert x + u + w == x + (u + w);
    RightTrans(c, alpha + [c.ps[p].lhs] + w, x + rest + w, x + u + w);
  }

  /** If an item before nonterminal `B` is valid, so are the items that begin the productions of `B`. */
  lemma {:induction false} ValidOpens(g: G.Grammar, path: seq<int>, p: int, d: int, alpha: seq<int>, w: seq<int>, q: int)
    requires G.Wf(g) && Productive(g) && ValidBy(g, path, p, d, alpha, w) && d < |G.Rhs(g, p)|
    requires 0 <= q < G.Nprod(g) && G.Lhs(g, q) == G.Rhs(g, p)[d]
    ensures Valid(g, path, g.prdptr[q] + 1)
  {
    var c, r := G.Abs(g), G.Rhs(g, p);
    var rest := r[d + 1..];
    forall k | 0 <= k < |rest| ensures IsSym(c, rest[k]) {
      SideCell(g, p, d + 1 + k);
      assert rest[k] == r[d + 1 + k];
    }
    var u := SideFromRight(g, rest);
    RestToTokens(c, alpha, p, d, w, u);
    RightTrans(c, [NTBASE], alpha + [G.Lhs(g, p)] + w, path + [r[d]] + (u + w));
    assert path + G.Rhs(g, q)[..0] == path;
    assert ValidBy(g, path, q, 0, path, u + w);
    assert ValidAt(g, path, g.prdptr[q] + 1, q, 0);
  }

  lemma {:induction false} ValidSymbol(g: G.Grammar, path: seq<int>, it: int, p: int, d: int)
    requires G.Wf(g) && ValidAt(g, path, it, p, d)
    ensures 0 < it < |g.mem|
    ensures if d < |G.Rhs(g, p)| then g.mem[it] == G.Rhs(g, p)[d] > 0 else g.mem[it] <= 0
  {
    var alpha, w :| ValidBy(g, path, p, d, alpha, w);
    assert G.ProdOk(g, p);
    G.ProdInMemory(g, p);
    if d < |G.Rhs(g, p)| {
      assert IsSym(G.Abs(g), G.Rhs(g, p)[d]);
    }
  }

  /** A start item of the nonterminal after the dot begins one of its productions. */
  lemma {:induction false} NextProd(g: G.Grammar, x: C.Ctx, it: int, n: int) returns (q: int)
    requires ContextOf(g, x) && C.IsItem(x, it) && n in C.Next(x, it)
    ensures 0 <= q < G.Nprod(g) && G.Lhs(g, q) == x.mem[it] && n == g.prdptr[q] + 1 && x.mem[it] > 0
  {
    var c := x.mem[it] - NTBASE;
    assert C.CellOk(x, x.mem[it]);
    assert StartOk(g, x, c, n);
    q :| StartsProd(g, c, n, q);
  }

  lemma {:induction false} ValidNext(g: G.Grammar, x: C.Ctx, path: seq<int>, it: int, n: int)
    requires ContextOf(g, x) && Productive(g) && Valid(g, path, it) && C.IsItem(x, it) && n in C.Next(x, it)
    ensures Valid(g, path, n)
  {
    var q := NextProd(g, x, it, n);
    var p, d :| ValidAt(g, path, it, p, d);
    ValidSymbol(g, path, it, p, d);
    var alpha, w :| ValidBy(g, path, p, d, alpha, w);
    ValidOpens(g, path, p, d, alpha, w, q);
  }

  lemma {:induction false} ValidClosed(g: G.Grammar, x: C.Ctx, path: seq<int>, k: set<int>)
    requires ContextOf(g, x) && Productive(g) && forall it :: it in k ==> Valid(g, path, it)
    ensures forall it :: it in L.Closure0(x, k) ==> Valid(g, path, it)
  {
    var v := set it | 0 < it < |x.mem| && Valid(g, path, it);
    forall it | it in v ensures C.IsItem(x, it) && forall n :: n in C.Next(x, it) ==> n in v {
      forall n | n in C.Next(x, it) ensures n in v {
        L.NextIsItem(x, it, n);
        ValidNext(g, x, path, it, n);
      }
    }
    forall it | it in k ensures it in v {
      var p, d :| ValidAt(g, path, it, p, d);
      ValidSymbol(g, path, it, p, d);
    }
    assert C.ClosedItems(x, v) && k <= v;
  }

  lemma {:induction false} ValidGoes(g: G.Grammar, x: C.Ctx, path: seq<int>, it: int)
    requires ContextOf(g, x) && Valid(g, path, it) && 0 < it < |x.mem| && x.mem[it] > 0
    ensures Valid(g, path + [x.mem[it]], it + 1)
  {
    var p, d :| ValidAt(g, path, it, p, d);
    ValidSymbol(g, path, it, p, d);
    var alpha, w :| ValidBy(g, path, p, d, alpha, w);
    var r := G.Rhs(g, p);
    assert alpha + r[..d] + [r[d]] == alpha + r[..d + 1];
    assert ValidBy(g, path + [r[d]], p, d + 1, alpha, w);
    assert ValidAt(g, path + [r[d]], it + 1, p, d + 1);
  }

  /** Every item that a path leads to is valid for it. */
  lemma {:induction false} AfterValid(g: G.Grammar, x: C.Ctx, path: seq<int>)
    requires ContextOf(g, x) && Productive(g) && Symbols(path)
    ensures forall it :: it in L.After(x, path) ==> Valid(g, path, it)
    decreases |path|
  {
    if path == [] {
      var none: seq<int> := [];
      RightRefl(G.Abs(g), [NTBASE]);
      assert G.ProdOk(g, 0);
      assert none + [NTBASE] + none == [NTBASE] && none + G.Rhs(g, 0)[..0] == none;
      assert ValidBy(g, [], 0, 0, [], []);
      assert ValidAt(g, [], 1, 0, 0);
    } else {
      var n := |path| - 1;
      var before, s := path[..n], path[n];
      AfterValid(g, x, before);
      ValidClosed(g, x, before, L.After(x, before));
      assert before + [s] == path;
      forall it | it in L.After(x, path) ensures Valid(g, path, it) {
        assert it - 1 in L.Closure0(x, L.After(x, before)) && x.mem[it - 1] == s;
        ValidGoes(g, x, before, it - 1);
      }
    }
  }

  /** A path of symbols leads to a kernel exactly if it is a viable prefix of the grammar. */
  lemma {:induction false} ViableExactly(g: G.Grammar, x: C.Ctx, path: seq<int>)
    requires ContextOf(g, x) && Productive(g) && C.IsItem(x, L.START) && Symbols(path)
    ensures L.After(x, path) != {} <==> Viable(G.Abs(g), path)
  {
    if L.After(x, path) != {} {
      AfterValid(g, x, path);
      var it :| it in L.After(x, path);
      var p, d :| ValidAt(g, path, it, p, d);
      var alpha, w :| ValidBy(g, path, p, d, alpha, w);
      assert ViableBy(G.Abs(g), path, alpha, p, w);
    }
    if Viable(G.Abs(g), path) {
      ViableLeads(g, x, path);
    }
  }

  lemma {:induction false} NothingLeadsOn(x: C.Ctx, s: int)
    requires C.CtxOk(x)
    ensures L.Goto0(x, {}, s) == {}
  {
    var none: set<int> := {};
    assert C.ClosedItems(x, none);
    L.Closure0Closed(x, none);
    assert L.Closure0(x, none) <= none;
  }

  lemma {:induction false} ExpectedIsSym(g: G.Grammar, x: C.Ctx, path: seq<int>, it: int)
    requires ContextOf(g, x) && Productive(g) && Symbols(path) && it in L.Closure0(x, L.After(x, path)) && x.mem[it] > 0
    ensures IsSym(G.Abs(g), x.mem[it])
  {
    AfterValid(g, x, path);
    ValidClosed(g, x, path, L.After(x, path));
    var p, d :| ValidAt(g, path, it, p, d);
    ValidSymbol(g, path, it, p, d);
    SideCell(g, p, d);
  }

  lemma {:induction false} CameFrom(x: C.Ctx, path: seq<int>) returns (it: int)
    requires C.CtxOk(x) && path != [] && L.After(x, path) != {}
    ensures L.After(x, path[..|path| - 1]) != {} && it in L.Closure0(x, L.After(x, path[..|path| - 1])) && x.mem[it] == path[|path| - 1]
  {
    NothingLeadsOn(x, path[|path| - 1]);
    var to :| to in L.After(x, path);
    it := to - 1;
  }

  /** A path that leads to a kernel consists of symbols of right sides. */
  lemma {:induction false} PathSyms(g: G.Grammar, x: C.Ctx, path: seq<int>)
    requires ContextOf(g, x) && Productive(g) && Symbols(path) && L.After(x, path) != {}
    ensures forall k {:trigger path[k]} :: 0 <= k < |path| ==> IsSym(G.Abs(g), path[k])
    decreases |path|
  {
    if path != [] {
      var before := path[..|path| - 1];
      var it := CameFrom(x, path);
      PathSyms(g, x, before);
      ExpectedIsSym(g, x, before, it);
      assert forall k :: 0 <= k < |before| ==> path[k] == before[k];
    }
  }
}
