/**
 Context-free derivation over productions, independent of how yacc stores them.
 Symbols are integers.
 */
module YaccDerivation {

  datatype Prod = Prod(lhs: int, rhs: seq<int>)

  /** `b` is `a` with the symbol at position `k` replaced by production `p`. */
  ghost predicate StepAt(ps: seq<Prod>, a: seq<int>, b: seq<int>, k: int, p: int) {
    && 0 <= k < |a| && 0 <= p < |ps|
    && a[k] == ps[p].lhs
    && b == a[..k] + ps[p].rhs + a[k + 1..]
  }

  ghost predicate Step(ps: seq<Prod>, a: seq<int>, b: seq<int>) {
    exists k, p :: StepAt(ps, a, b, k, p)
  }

  ghost predicate DerivesIn(ps: seq<Prod>, a: seq<int>, b: seq<int>, n: nat)
    decreases n
  {
    if n == 0 then a == b else exists m :: Step(ps, a, m) && DerivesIn(ps, m, b, n - 1)
  }

  /** The derivation relation of the grammar on strings of symbols. */
  ghost predicate Derives(ps: seq<Prod>, a: seq<int>, b: seq<int>) {
    exists n: nat :: DerivesIn(ps, a, b, n)
  }

  lemma DerivesRefl(ps: seq<Prod>, a: seq<int>)
    ensures Derives(ps, a, a)
  {
    assert DerivesIn(ps, a, a, 0);
  }

  lemma {:induction false} DerivesInTrans(ps: seq<Prod>, a: seq<int>, b: seq<int>, c: seq<int>, n: nat, m: nat)
    requires DerivesIn(ps, a, b, n) && DerivesIn(ps, b, c, m)
    ensures DerivesIn(ps, a, c, n + m)
    decreases n
  {
    if n > 0 {
      var x :| Step(ps, a, x) && DerivesIn(ps, x, b, n - 1);
      DerivesInTrans(ps, x, b, c, n - 1, m);
      assert Step(ps, a, x) && DerivesIn(ps, x, c, n + m - 1);
    }
  }

  lemma {:induction false} DerivesTrans(ps: seq<Prod>, a: seq<int>, b: seq<int>, c: seq<int>)
    requires Derives(ps, a, b) && Derives(ps, b, c)
    ensures Derives(ps, a, c)
  {
    var n: nat :| DerivesIn(ps, a, b, n);
    var m: nat :| DerivesIn(ps, b, c, m);
    DerivesInTrans(ps, a, b, c, n, m);
  }

  lemma {:induction false} StepInContext(ps: seq<Prod>, x: seq<int>, a: seq<int>, b: seq<int>, y: seq<int>)
    requires Step(ps, a, b)
    ensures Step(ps, x + a + y, x + b + y)
  {
    var k, p :| StepAt(ps, a, b, k, p);
    var a1 := x + a + y;
    assert a1[..|x| + k] == x + a[..k];
    assert a1[|x| + k + 1..] == a[k + 1..] + y;
    assert x + b + y == a1[..|x| + k] + ps[p].rhs + a1[|x| + k + 1..];
    assert StepAt(ps, a1, x + b + y, |x| + k, p);
  }

  lemma {:induction false} DerivesInContext(ps: seq<Prod>, x: seq<int>, a: seq<int>, b: seq<int>, y: seq<int>, n: nat)
    requires DerivesIn(ps, a, b, n)
    ensures DerivesIn(ps, x + a + y, x + b + y, n)
    decreases n
  {
    if n > 0 {
      var m :| Step(ps, a, m) && DerivesIn(ps, m, b, n - 1);
      StepInContext(ps, x, a, m, y);
      DerivesInContext(ps, x, m, b, y, n - 1);
    }
  }

  /** A derivation may be carried out inside a longer string. */
  lemma {:induction false} Congruence(ps: seq<Prod>, x: seq<int>, a: seq<int>, b: seq<int>, y: seq<int>)
    requires Derives(ps, a, b)
    ensures Derives(ps, x + a + y, x + b + y)
  {
    var n: nat :| DerivesIn(ps, a, b, n);
    DerivesInContext(ps, x, a, b, y, n);
  }

  lemma {:induction false} ByProduction(ps: seq<Prod>, p: int)
    requires 0 <= p < |ps|
    ensures Derives(ps, [ps[p].lhs], ps[p].rhs)
  {
    var a, b := [ps[p].lhs], ps[p].rhs;
    assert b == a[..0] + ps[p].rhs + a[1..];
    assert StepAt(ps, a, b, 0, p);
    assert Step(ps, a, b) && DerivesIn(ps, b, b, 0);
    assert DerivesIn(ps, a, b, 1);
  }

  // ----- strings over an alphabet -----

  ghost predicate Over(w: seq<int>, t: set<int>) { forall k :: 0 <= k < |w| ==> w[k] in t }

  lemma OnlyEmptyOverNothing()
    ensures forall w :: Over(w, {}) ==> w == []
  {
    forall w: seq<int> | w != [] ensures !Over(w, {}) {
      var none: set<int> := {};
      assert w[0] !in none;
    }
  }

  /** `a` derives some string over `t`.  With `t` empty: `a` derives the empty string;
      with `t` the tokens: `a` derives a token string. */
  ghost predicate DerivesInto(ps: seq<Prod>, a: seq<int>, t: set<int>) {
    exists w :: Over(w, t) && Derives(ps, a, w)
  }

  lemma {:induction false} DerivesIntoConcat(ps: seq<Prod>, a: seq<int>, b: seq<int>, t: set<int>)
    requires DerivesInto(ps, a, t) && DerivesInto(ps, b, t)
    ensures DerivesInto(ps, a + b, t)
  {
    var u :| Over(u, t) && Derives(ps, a, u);
    var v :| Over(v, t) && Derives(ps, b, v);
    ConcatDerives(ps, a, u, b, v);
    assert Over(u + v, t);
  }

  lemma {:induction false} ConcatDerives(ps: seq<Prod>, a: seq<int>, u: seq<int>, b: seq<int>, v: seq<int>)
    requires Derives(ps, a, u) && Derives(ps, b, v)
    ensures Derives(ps, a + b, u + v)
  {
    Congruence(ps, [], a, u, b);
    assert [] + a + b == a + b && [] + u + b == u + b;
    Congruence(ps, u, b, v, []);
    assert u + b + [] == u + b && u + v + [] == u + v;
    DerivesTrans(ps, a + b, u + b, u + v);
  }

  /** If each symbol derives into `t`, so does the string. */
  lemma {:induction false} SymbolsDeriveInto(ps: seq<Prod>, a: seq<int>, t: set<int>)
    requires forall k :: 0 <= k < |a| ==> DerivesInto(ps, [a[k]], t)
    ensures DerivesInto(ps, a, t)
  {
    if a == [] {
      DerivesRefl(ps, a);
      assert Over(a, t);
    } else {
      forall k | 0 <= k < |a[1..]| ensures DerivesInto(ps, [a[1..][k]], t) {
        assert a[1..][k] == a[k + 1];
      }
      SymbolsDeriveInto(ps, a[1..], t);
      DerivesIntoConcat(ps, [a[0]], a[1..], t);
      assert a == [a[0]] + a[1..];
    }
  }

  /** A set of symbols that contains every left side whose right side it contains. */
  ghost predicate ClosedUp(ps: seq<Prod>, good: set<int>) {
    forall p :: 0 <= p < |ps| && Over(ps[p].rhs, good) ==> ps[p].lhs in good
  }

  lemma {:induction false} StepBackwards(ps: seq<Prod>, good: set<int>, a: seq<int>, m: seq<int>)
    requires ClosedUp(ps, good) && Step(ps, a, m) && Over(m, good)
    ensures Over(a, good)
  {
    var k, p :| StepAt(ps, a, m, k, p);
    var r := ps[p].rhs;
    assert forall x :: 0 <= x < |r| ==> m[k + x] == r[x];
    forall x | 0 <= x < |a| ensures a[x] in good {
      if x < k {
        assert m[x] == a[x];
      } else if x > k {
        assert m[x - 1 + |r|] == a[x];
      }
    }
  }

  /** Derivations cannot enter such a set from outside. */
  lemma {:induction false} ClosedUpBackwards(ps: seq<Prod>, good: set<int>, a: seq<int>, w: seq<int>, n: nat)
    requires ClosedUp(ps, good) && DerivesIn(ps, a, w, n) && Over(w, good)
    ensures Over(a, good)
    decreases n
  {
    if n > 0 {
      var m :| Step(ps, a, m) && DerivesIn(ps, m, w, n - 1);
      ClosedUpBackwards(ps, good, m, w, n - 1);
      StepBackwards(ps, good, a, m);
    }
  }
}

/**
 Empty strings and first tokens, for a grammar given by its productions.  Tokens are numbered
 from 1, nonterminals from `NTBASE`.
 */
module YaccFirst {
  import opened Sets
  import opened YaccDerivation
  import opened YaccSizes

  datatype Cfg = Cfg(ntokens: nat, nnonter: nat, ps: seq<Prod>)

  predicate IsToken(g: Cfg, s: int) { 1 <= s <= g.ntokens }

  predicate IsNonterm(g: Cfg, s: int) { NTBASE <= s <= NTBASE + g.nnonter }

  /** A symbol that may stand on a right side: a token or a nonterminal other than `$accept`. */
  predicate IsSym(g: Cfg, s: int) { IsToken(g, s) || (IsNonterm(g, s) && s != NTBASE) }

  ghost predicate ProdSyms(g: Cfg, q: Prod) {
    IsNonterm(g, q.lhs) && forall k :: 0 <= k < |q.rhs| ==> IsSym(g, q.rhs[k])
  }

  ghost predicate CfgOk(g: Cfg) {
    && g.ntokens < NTBASE
    && forall p {:trigger ProdSyms(g, g.ps[p])} :: 0 <= p < |g.ps| ==> ProdSyms(g, g.ps[p])
  }

  /** The string that is just nonterminal number `c`. */
  function Nt(c: int): seq<int> { [NTBASE + c] }

  /** The marks say exactly which nonterminals derive the empty string. */
  ghost predicate EmptyExact(g: Cfg, pempty: seq<int>) {
    && |pempty| == g.nnonter + 1
    && (forall c :: 0 <= c <= g.nnonter ==> pempty[c] == 0 || pempty[c] == 1)
    && forall c {:trigger Nt(c)} :: 0 <= c <= g.nnonter ==> (pempty[c] == 1 <==> Derives(g.ps, Nt(c), []))
  }

  /** Symbol `s` is a nonterminal marked empty. */
  predicate Vanishes(g: Cfg, pempty: seq<int>, s: int)
    requires |pempty| == g.nnonter + 1
  {
    IsNonterm(g, s) && pempty[s - NTBASE] == 1
  }

  /** The first `n` symbols can all vanish. */
  ghost predicate NullUpTo(g: Cfg, pempty: seq<int>, a: seq<int>, n: int)
    requires |pempty| == g.nnonter + 1 && 0 <= n <= |a|
  {
    forall k :: 0 <= k < n ==> Vanishes(g, pempty, a[k])
  }

  ghost predicate NullString(g: Cfg, pempty: seq<int>, a: seq<int>)
    requires |pempty| == g.nnonter + 1
  {
    NullUpTo(g, pempty, a, |a|)
  }

  /** The tokens that can begin the string `a`, given the empty marks and the first sets. */
  ghost function FirstOf(g: Cfg, pempty: seq<int>, first: seq<set<int>>, a: seq<int>): set<int>
    requires |pempty| == |first| == g.nnonter + 1
  {
    if a == [] then {}
    else if IsNonterm(g, a[0]) then
      first[a[0] - NTBASE] + if pempty[a[0] - NTBASE] == 1 then FirstOf(g, pempty, first, a[1..]) else {}
    else {a[0]}
  }

  lemma {:induction false} FirstOfConcat(g: Cfg, pempty: seq<int>, first: seq<set<int>>, a: seq<int>, b: seq<int>)
    requires |pempty| == |first| == g.nnonter + 1
    ensures FirstOf(g, pempty, first, a + b)
      == FirstOf(g, pempty, first, a) + if NullString(g, pempty, a) then FirstOf(g, pempty, first, b) else {}
  {
    if a == [] {
      assert a + b == b;
    } else {
      assert (a + b)[1..] == a[1..] + b;
      FirstOfConcat(g, pempty, first, a[1..], b);
      NullTail(g, pempty, a);
    }
  }

  lemma {:induction false} NullTail(g: Cfg, pempty: seq<int>, a: seq<int>)
    requires |pempty| == g.nnonter + 1 && a != []
    ensures NullString(g, pempty, a) <==> Vanishes(g, pempty, a[0]) && NullString(g, pempty, a[1..])
  {
    assert a == [a[0]] + a[1..];
  }

  lemma {:induction false} NullStringDerives(g: Cfg, pempty: seq<int>, a: seq<int>)
    requires EmptyExact(g, pempty) && NullString(g, pempty, a)
    ensures Derives(g.ps, a, [])
  {
    if a == [] {
      DerivesRefl(g.ps, []);
    } else {
      NullTail(g, pempty, a);
      NullStringDerives(g, pempty, a[1..]);
      assert Nt(a[0] - NTBASE) == [a[0]];
      var e: seq<int> := [];
      ConcatDerives(g.ps, [a[0]], e, a[1..], e);
      assert a == [a[0]] + a[1..] && e + e == e;
    }
  }

  /** A production whose right side derives the empty string has an empty left side. */
  lemma {:induction false} NullSide(g: Cfg, pempty: seq<int>, p: int)
    requires CfgOk(g) && EmptyExact(g, pempty) && 0 <= p < |g.ps| && NullString(g, pempty, g.ps[p].rhs)
    ensures Vanishes(g, pempty, g.ps[p].lhs)
  {
    assert ProdSyms(g, g.ps[p]);
    NullStringDerives(g, pempty, g.ps[p].rhs);
    ByProduction(g.ps, p);
    DerivesTrans(g.ps, [g.ps[p].lhs], g.ps[p].rhs, []);
    assert Nt(g.ps[p].lhs - NTBASE) == [g.ps[p].lhs];
  }

  ghost predicate FirstArgs(g: Cfg, pempty: seq<int>, first: seq<set<int>>) {
    CfgOk(g) && EmptyExact(g, pempty) && |first| == g.nnonter + 1
  }

  /** The first set of the left side includes that of the right side. */
  ghost predicate SideIn(g: Cfg, pempty: seq<int>, first: seq<set<int>>, q: Prod)
    requires |pempty| == |first| == g.nnonter + 1
  {
    IsNonterm(g, q.lhs) && FirstOf(g, pempty, first, q.rhs) <= first[q.lhs - NTBASE]
  }

  ghost predicate FirstClosed(g: Cfg, pempty: seq<int>, first: seq<set<int>>)
    requires |pempty| == |first| == g.nnonter + 1
  {
    forall p {:trigger SideIn(g, pempty, first, g.ps[p])} :: 0 <= p < |g.ps| ==> SideIn(g, pempty, first, g.ps[p])
  }

  lemma {:induction false} FirstOfReplaced(g: Cfg, pempty: seq<int>, first: seq<set<int>>, x: seq<int>, l: int, r: seq<int>, y: seq<int>)
    requires |pempty| == |first| == g.nnonter + 1 && IsNonterm(g, l)
    requires FirstOf(g, pempty, first, r) <= first[l - NTBASE]
    requires NullString(g, pempty, r) ==> pempty[l - NTBASE] == 1
    ensures FirstOf(g, pempty, first, x + (r + y)) <= FirstOf(g, pempty, first, x + ([l] + y))
  {
    FirstOfConcat(g, pempty, first, x, r + y);
    FirstOfConcat(g, pempty, first, r, y);
    FirstOfConcat(g, pempty, first, x, [l] + y);
    assert ([l] + y)[1..] == y;
  }

  /** Rewriting cannot create a first token. */
  lemma {:induction false} FirstBackwards(g: Cfg, pempty: seq<int>, first: seq<set<int>>, a: seq<int>, m: seq<int>)
    requires FirstArgs(g, pempty, first) && FirstClosed(g, pempty, first)
    requires Step(g.ps, a, m)
    ensures FirstOf(g, pempty, first, m) <= FirstOf(g, pempty, first, a)
  {
    var k, p :| StepAt(g.ps, a, m, k, p);
    var x, r, y := a[..k], g.ps[p].rhs, a[k + 1..];
    assert m == x + (r + y) && a == x + ([g.ps[p].lhs] + y);
    if NullString(g, pempty, r) {
      NullSide(g, pempty, p);
    }
    assert SideIn(g, pempty, first, g.ps[p]);
    FirstOfReplaced(g, pempty, first, x, g.ps[p].lhs, r, y);
  }

  lemma {:induction false} FirstComplete(g: Cfg, pempty: seq<int>, first: seq<set<int>>, a: seq<int>, w: seq<int>, n: nat)
    requires FirstArgs(g, pempty, first) && FirstClosed(g, pempty, first)
    requires DerivesIn(g.ps, a, w, n)
    ensures FirstOf(g, pempty, first, w) <= FirstOf(g, pempty, first, a)
    decreases n
  {
    if n > 0 {
      var m :| Step(g.ps, a, m) && DerivesIn(g.ps, m, w, n - 1);
      FirstComplete(g, pempty, first, m, w, n - 1);
      FirstBackwards(g, pempty, first, a, m);
    }
  }

  /** Some string derived from `a` begins with token `t`. */
  ghost predicate Begins(ps: seq<Prod>, a: seq<int>, t: int) {
    exists b :: Derives(ps, a, [t] + b)
  }

  ghost predicate TokenBegins(g: Cfg, c: int, t: int) {
    IsToken(g, t) && Begins(g.ps, Nt(c), t)
  }

  ghost predicate FirstSound(g: Cfg, first: seq<set<int>>) {
    && |first| == g.nnonter + 1
    && forall c, t {:trigger TokenBegins(g, c, t)} :: 0 <= c <= g.nnonter && t in first[c] ==> TokenBegins(g, c, t)
  }

  /** The first sets hold exactly the tokens that can begin each nonterminal. */
  ghost predicate FirstExact(g: Cfg, first: seq<set<int>>) {
    && |first| == g.nnonter + 1
    && forall c, t {:trigger TokenBegins(g, c, t)} :: 0 <= c <= g.nnonter ==> (t in first[c] <==> TokenBegins(g, c, t))
  }

  lemma {:induction false} BeginsConcat(ps: seq<Prod>, x: seq<int>, a: seq<int>, y: seq<int>, t: int)
    requires Derives(ps, x, []) && Begins(ps, a, t)
    ensures Begins(ps, x + (a + y), t)
  {
    var b :| Derives(ps, a, [t] + b);
    DerivesRefl(ps, y);
    ConcatDerives(ps, a, [t] + b, y, y);
    ConcatDerives(ps, x, [], a + y, ([t] + b) + y);
    assert [] + (([t] + b) + y) == [t] + (b + y);
  }

  lemma {:induction false} BeginsByProduction(ps: seq<Prod>, p: int, t: int)
    requires 0 <= p < |ps| && Begins(ps, ps[p].rhs, t)
    ensures Begins(ps, [ps[p].lhs], t)
  {
    var b :| Derives(ps, ps[p].rhs, [t] + b);
    ByProduction(ps, p);
    DerivesTrans(ps, [ps[p].lhs], ps[p].rhs, [t] + b);
  }

  lemma TokenBeginsItself(ps: seq<Prod>, t: int)
    ensures Begins(ps, [t], t)
  {
    var e: seq<int> := [];
    assert [t] + e == [t];
    DerivesRefl(ps, [t]);
  }

  /** Position `k` of the right side can be the one that begins it. */
  ghost predicate Leading(g: Cfg, pempty: seq<int>, r: seq<int>, k: int)
    requires |pempty| == g.nnonter + 1
  {
    0 <= k < |r| && NullUpTo(g, pempty, r, k)
  }

  /** What begins the symbol behind an empty prefix of a right side can begin the left side. */
  lemma {:induction false} LeadingBegins(g: Cfg, pempty: seq<int>, p: int, k: int, t: int)
    requires EmptyExact(g, pempty) && 0 <= p < |g.ps| && Leading(g, pempty, g.ps[p].rhs, k)
    requires Begins(g.ps, [g.ps[p].rhs[k]], t)
    ensures Begins(g.ps, [g.ps[p].lhs], t)
  {
    var r := g.ps[p].rhs;
    NullStringDerives(g, pempty, r[..k]);
    BeginsConcat(g.ps, r[..k], [r[k]], r[k + 1..], t);
    assert r == r[..k] + ([r[k]] + r[k + 1..]);
    BeginsByProduction(g.ps, p, t);
  }

  /** Sets that are sound and closed are exact. */
  lemma {:induction false} ClosedFirstExact(g: Cfg, pempty: seq<int>, first: seq<set<int>>)
    requires FirstArgs(g, pempty, first) && FirstClosed(g, pempty, first) && FirstSound(g, first)
    ensures FirstExact(g, first)
  {
    forall c, t | 0 <= c <= g.nnonter && TokenBegins(g, c, t) ensures t in first[c] {
      var b :| Derives(g.ps, Nt(c), [t] + b);
      var n: nat :| DerivesIn(g.ps, Nt(c), [t] + b, n);
      FirstComplete(g, pempty, first, Nt(c), [t] + b, n);
      assert Nt(c)[1..] == [];
    }
  }

  lemma {:induction false} FirstOfBound(g: Cfg, pempty: seq<int>, first: seq<set<int>>, a: seq<int>, s: set<int>)
    requires |pempty| == |first| == g.nnonter + 1
    requires forall k {:trigger Leading(g, pempty, a, k)} :: Leading(g, pempty, a, k) ==>
      if IsNonterm(g, a[k]) then first[a[k] - NTBASE] <= s else a[k] in s
    ensures FirstOf(g, pempty, first, a) <= s
  {
    if a != [] {
      assert Leading(g, pempty, a, 0);
      if Vanishes(g, pempty, a[0]) {
        var b := a[1..];
        forall k | Leading(g, pempty, b, k)
          ensures if IsNonterm(g, b[k]) then first[b[k] - NTBASE] <= s else b[k] in s
        {
          forall x | 0 <= x < k + 1 ensures Vanishes(g, pempty, a[x]) {
            if x > 0 { assert b[x - 1] == a[x]; }
          }
          assert Leading(g, pempty, a, k + 1);
        }
        FirstOfBound(g, pempty, first, b, s);
      }
    }
  }

  /** The leading token of a right side, if it has one, is in the set. */
  ghost predicate TokenIn(g: Cfg, pempty: seq<int>, s: set<int>, r: seq<int>)
    requires |pempty| == g.nnonter + 1
  {
    forall k {:trigger Leading(g, pempty, r, k)} :: Leading(g, pempty, r, k) && IsToken(g, r[k]) ==> r[k] in s
  }

  /** With its leading nonterminals absorbed and its leading token in, a side is closed. */
  lemma {:induction false} AbsorbedSide(g: Cfg, pempty: seq<int>, first: seq<set<int>>, q: Prod, n: int)
    requires |pempty| == |first| == g.nnonter + 1 && ProdSyms(g, q) && 0 <= n <= |q.rhs|
    requires TokenIn(g, pempty, first[q.lhs - NTBASE], q.rhs)
    requires forall k :: 0 <= k < n ==> IsNonterm(g, q.rhs[k]) && first[q.rhs[k] - NTBASE] <= first[q.lhs - NTBASE]
    requires n == |q.rhs| || IsToken(g, q.rhs[n]) || (n > 0 && !Vanishes(g, pempty, q.rhs[n - 1]))
    requires g.ntokens < NTBASE
    ensures SideIn(g, pempty, first, q)
  {
    FirstOfBound(g, pempty, first, q.rhs, first[q.lhs - NTBASE]);
  }

  ghost function MissingPairs(g: Cfg, first: seq<set<int>>): set<(int, int)>
    requires |first| == g.nnonter + 1
  {
    set c, t | 0 <= c <= g.nnonter && 1 <= t <= g.ntokens && t !in first[c] :: (c, t)
  }

  /** How much is still missing from the first sets. */
  ghost function Missing(g: Cfg, first: seq<set<int>>): nat
    requires |first| == g.nnonter + 1
  {
    |MissingPairs(g, first)|
  }

  /** `f` has everything `first` has. */
  ghost predicate Grows(first: seq<set<int>>, f: seq<set<int>>) {
    |f| == |first| && forall c :: 0 <= c < |first| ==> first[c] <= f[c]
  }

  lemma {:induction false} MissingShrinks(g: Cfg, first: seq<set<int>>, c: int, s: set<int>)
    requires |first| == g.nnonter + 1 && 0 <= c <= g.nnonter
    requires forall t :: t in s ==> IsToken(g, t)
    ensures Missing(g, first[c := first[c] + s]) <= Missing(g, first)
    ensures !(s <= first[c]) ==> Missing(g, first[c := first[c] + s]) < Missing(g, first)
  {
    var f1 := first[c := first[c] + s];
    var m0, m1 := MissingPairs(g, first), MissingPairs(g, f1);
    assert m0 == m1 + (m0 - m1);
    if !(s <= first[c]) {
      var t := Outside(s, first[c]);
      assert (c, t) in m0 - m1;
    }
  }

  /** The sets after joining the first sets of the first `n` symbols of production `p` to that of
      its left side, starting from `first`; `changes` says whether anything was new. */
  ghost predicate Absorbing(g: Cfg, pempty: seq<int>, first: seq<set<int>>, f: seq<set<int>>, changes: bool, p: int, n: int) {
    && FirstArgs(g, pempty, first) && FirstArgs(g, pempty, f) && 0 <= p < |g.ps| && 0 <= n <= |g.ps[p].rhs|
    && ProdSyms(g, g.ps[p])
    && (forall k :: 0 <= k < n ==> IsNonterm(g, g.ps[p].rhs[k]))
    && FirstSound(g, f) && Grows(first, f)
    && (if changes then Missing(g, f) < Missing(g, first) else f == first)
    && (!changes ==> forall k :: 0 <= k < n ==> first[g.ps[p].rhs[k] - NTBASE] <= first[g.ps[p].lhs - NTBASE])
  }

  lemma {:induction false} JoinSound(g: Cfg, pempty: seq<int>, f: seq<set<int>>, p: int, k: int)
    requires EmptyExact(g, pempty) && FirstSound(g, f) && 0 <= p < |g.ps| && Leading(g, pempty, g.ps[p].rhs, k)
    requires IsNonterm(g, g.ps[p].rhs[k]) && IsNonterm(g, g.ps[p].lhs)
    ensures var l, ch := g.ps[p].lhs - NTBASE, g.ps[p].rhs[k] - NTBASE;
      FirstSound(g, f[l := f[l] + f[ch]]) && forall t :: t in f[ch] ==> IsToken(g, t)
  {
    var l, ch := g.ps[p].lhs - NTBASE, g.ps[p].rhs[k] - NTBASE;
    assert Nt(l) == [g.ps[p].lhs] && Nt(ch) == [g.ps[p].rhs[k]];
    forall t | t in f[ch] ensures IsToken(g, t) && TokenBegins(g, l, t) {
      assert TokenBegins(g, ch, t);
      LeadingBegins(g, pempty, p, k, t);
    }
  }

  lemma {:induction false} AbsorbStep(g: Cfg, pempty: seq<int>, first: seq<set<int>>, f: seq<set<int>>, changes: bool, p: int, k: int)
    requires Absorbing(g, pempty, first, f, changes, p, k) && Leading(g, pempty, g.ps[p].rhs, k)
    requires IsNonterm(g, g.ps[p].rhs[k])
    ensures var l, ch := g.ps[p].lhs - NTBASE, g.ps[p].rhs[k] - NTBASE;
      Absorbing(g, pempty, first, f[l := f[l] + f[ch]], changes || !(f[ch] <= f[l]), p, k + 1)
  {
    var l, ch := g.ps[p].lhs - NTBASE, g.ps[p].rhs[k] - NTBASE;
    JoinSound(g, pempty, f, p, k);
    MissingShrinks(g, f, l, f[ch]);
    if f[ch] <= f[l] {
      assert f[l] + f[ch] == f[l];
      assert f[l := f[l] + f[ch]] == f;
    }
  }

  lemma {:induction false} AbsorbDone(g: Cfg, pempty: seq<int>, first: seq<set<int>>, f: seq<set<int>>, changes: bool, p: int, n: int)
    requires Absorbing(g, pempty, first, f, changes, p, n)
    requires TokenIn(g, pempty, first[g.ps[p].lhs - NTBASE], g.ps[p].rhs)
    requires n == |g.ps[p].rhs| || IsToken(g, g.ps[p].rhs[n]) || (n > 0 && !Vanishes(g, pempty, g.ps[p].rhs[n - 1]))
    ensures !changes ==> SideIn(g, pempty, first, g.ps[p])
  {
    if !changes {
      AbsorbedSide(g, pempty, first, g.ps[p], n);
    }
  }
}
