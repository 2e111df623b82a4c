/**
 Grammars as yacc keeps them, and the two fixpoint computations that start every run:
 `cempty` (which nonterminals derive the empty string) and `cpfir` (which tokens can begin
 what a nonterminal derives).
 */
module YaccGrammar {
  import opened YaccDerivation
  import opened YaccFirst
  import opened YaccSizes

  /** The production memory.  Production `i` occupies `mem[prdptr[i]..prdptr[i+1]]`: its left side,
      its right side, then `-i`.  Production 0 is `$accept: start $end`. */
  datatype Grammar = Grammar(mem: seq<int>, prdptr: seq<nat>, ntokens: nat, nnonter: nat)

  function Nprod(g: Grammar): int { |g.prdptr| - 1 }

  predicate IsLhs(g: Grammar, s: int) { NTBASE <= s <= NTBASE + g.nnonter }

  predicate IsRhs(g: Grammar, s: int) { 1 <= s <= g.ntokens || NTBASE < s <= NTBASE + g.nnonter }

  ghost predicate ProdOk(g: Grammar, i: int)
    requires 0 <= i < Nprod(g)
  {
    && g.prdptr[i] + 2 <= g.prdptr[i + 1] <= |g.mem|
    && IsLhs(g, g.mem[g.prdptr[i]])
    && (i > 0 ==> g.mem[g.prdptr[i]] != NTBASE)
    && (forall k :: g.prdptr[i] < k < g.prdptr[i + 1] - 1 ==> IsRhs(g, g.mem[k]))
    && g.mem[g.prdptr[i + 1] - 1] == -i
  }

  /** What the grammar reader leaves behind. */
  ghost predicate Wf(g: Grammar) {
    && Nprod(g) >= 2 && |g.mem| >= 4
    && 1 <= g.ntokens < NTERMS
    && g.prdptr[0] == 0 && g.prdptr[1] == 4 && g.prdptr[Nprod(g)] == |g.mem|
    && (forall i {:trigger ProdOk(g, i)} :: 0 <= i < Nprod(g) ==> ProdOk(g, i))
    && g.mem[0] == NTBASE && g.mem[2] == 1
  }

  function Lhs(g: Grammar, i: int): int
    requires Wf(g) && 0 <= i < Nprod(g)
  {
    assert ProdOk(g, i);
    g.mem[g.prdptr[i]]
  }

  function Rhs(g: Grammar, i: int): seq<int>
    requires Wf(g) && 0 <= i < Nprod(g)
  {
    assert ProdOk(g, i);
    g.mem[g.prdptr[i] + 1 .. g.prdptr[i + 1] - 1]
  }

  /** The grammar that the production memory stands for. */
  function Abs(g: Grammar): (c: Cfg)
    requires Wf(g)
    ensures c.ntokens == g.ntokens && c.nnonter == g.nnonter && |c.ps| == Nprod(g)
    ensures forall i :: 0 <= i < Nprod(g) ==> c.ps[i] == Prod(Lhs(g, i), Rhs(g, i))
  {
    Cfg(g.ntokens, g.nnonter, seq(Nprod(g), i requires 0 <= i < Nprod(g) => Prod(Lhs(g, i), Rhs(g, i))))
  }

  /** Production `i` in memory, seen through `Abs`. */
  lemma ProdInMemory(g: Grammar, i: int)
    requires Wf(g) && 0 <= i < Nprod(g)
    ensures ProdSyms(Abs(g), Abs(g).ps[i])
    ensures |Rhs(g, i)| + g.prdptr[i] + 2 == g.prdptr[i + 1] <= |g.mem|
    ensures forall k :: 0 <= k < |Rhs(g, i)| ==> Rhs(g, i)[k] == g.mem[g.prdptr[i] + 1 + k]
  {
    assert ProdOk(g, i);
    var r := Rhs(g, i);
    forall k | 0 <= k < |r| ensures IsSym(Abs(g), r[k]) {
      assert IsRhs(g, g.mem[g.prdptr[i] + 1 + k]);
    }
  }

  lemma AbsOk(g: Grammar)
    requires Wf(g)
    ensures CfgOk(Abs(g))
  {
    forall p | 0 <= p < |Abs(g).ps| ensures ProdSyms(Abs(g), Abs(g).ps[p]) {
      ProdInMemory(g, p);
    }
  }

  // ----- cpres -----

  /** `list` holds, in order, the productions below `n` that yield nonterminal `c`. */
  ghost predicate Yields(g: Grammar, list: seq<nat>, c: int, n: int)
    requires Wf(g) && n <= Nprod(g)
  {
    && (forall x :: 0 <= x < |list| ==> list[x] < n && Lhs(g, list[x]) == NTBASE + c)
    && (forall x, y :: 0 <= x < y < |list| ==> list[x] < list[y])
    && (forall j :: 0 <= j < n && Lhs(g, j) == NTBASE + c ==> j in list)
  }

  ghost predicate Defined(g: Grammar, c: int)
    requires Wf(g)
  {
    exists j :: 0 <= j < Nprod(g) && Lhs(g, j) == NTBASE + c
  }

  ghost predicate PresOk(g: Grammar, pres: seq<seq<nat>>)
    requires Wf(g)
  {
    && |pres| == g.nnonter + 1
    && forall c :: 0 <= c < |pres| ==> Yields(g, pres[c], c, Nprod(g))
  }

  /** For each nonterminal the productions that yield it, in order; an undefined nonterminal is an error. */
  method Cpres(g: Grammar) returns (ok: bool, pres: seq<seq<nat>>)
    requires Wf(g)
    ensures PresOk(g, pres)
    ensures ok <==> forall c :: 0 <= c <= g.nnonter ==> Defined(g, c)
  {
    ok, pres := true, [];
    for c := 0 to g.nnonter + 1
      invariant |pres| == c
      invariant forall d :: 0 <= d < c ==> Yields(g, pres[d], d, Nprod(g))
      invariant ok <==> forall d :: 0 <= d < c ==> Defined(g, d)
    {
      var list: seq<nat> := [];
      for j := 0 to Nprod(g)
        invariant Yields(g, list, c, j)
      {
        if Lhs(g, j) == NTBASE + c {
          list := list + [j];
        }
      }
      if list == [] {
        ok := false;
      } else {
        assert Lhs(g, list[0]) == NTBASE + c && Defined(g, c);
      }
      assert list == [] ==> !Defined(g, c);
      pres := pres + [list];
    }
  }

  // ----- cempty -----

  ghost predicate Marked(pempty: seq<int>, s: int)
    requires NTBASE <= s < NTBASE + |pempty|
  {
    pempty[s - NTBASE] == 1
  }

  /** The symbols `cempty` accepts on a right side: what is marked, and everything in `t`. */
  ghost function Good(c: Cfg, pempty: seq<int>, t: set<int>): set<int>
    requires |pempty| == c.nnonter + 1
  {
    t + (set s | NTBASE <= s <= NTBASE + c.nnonter && Marked(pempty, s))
  }

  ghost function Tokens(c: Cfg): set<int> { set s | 1 <= s <= c.ntokens && IsToken(c, s) }

  /** Productions 1 to `n` do not lead out of `good`. */
  ghost predicate ClosedFrom1(ps: seq<Prod>, good: set<int>, n: int)
    requires n <= |ps|
  {
    forall p :: 1 <= p < n && Over(ps[p].rhs, good) ==> ps[p].lhs in good
  }

  /** Everything marked so far derives into `t`. */
  ghost predicate MarksSound(c: Cfg, pempty: seq<int>, t: set<int>) {
    && |pempty| == c.nnonter + 1
    && (forall x :: 0 <= x <= c.nnonter ==> pempty[x] == 0 || pempty[x] == 1)
    && forall x {:trigger Nt(x)} :: 0 <= x <= c.nnonter && pempty[x] != 0 ==> DerivesInto(c.ps, Nt(x), t)
  }

  lemma {:induction false} GoodSideDerives(c: Cfg, pempty: seq<int>, t: set<int>, p: int)
    requires MarksSound(c, pempty, t)
    requires 0 <= p < |c.ps| && Over(c.ps[p].rhs, Good(c, pempty, t))
    ensures DerivesInto(c.ps, [c.ps[p].lhs], t)
  {
    var ps, r := c.ps, c.ps[p].rhs;
    forall k | 0 <= k < |r| ensures DerivesInto(ps, [r[k]], t) {
      if r[k] in t {
        DerivesRefl(ps, [r[k]]);
        assert Over([r[k]], t);
      } else {
        assert Marked(pempty, r[k]) && Nt(r[k] - NTBASE) == [r[k]];
      }
    }
    SymbolsDeriveInto(ps, r, t);
    OneMoreStep(ps, p, t);
  }

  lemma {:induction false} OneMoreStep(ps: seq<Prod>, p: int, t: set<int>)
    requires 0 <= p < |ps| && DerivesInto(ps, ps[p].rhs, t)
    ensures DerivesInto(ps, [ps[p].lhs], t)
  {
    var w :| Over(w, t) && Derives(ps, ps[p].rhs, w);
    ByProduction(ps, p);
    DerivesTrans(ps, [ps[p].lhs], ps[p].rhs, w);
  }

  lemma {:induction false} MarkIsSound(c: Cfg, pempty: seq<int>, t: set<int>, p: int)
    requires CfgOk(c) && MarksSound(c, pempty, t)
    requires 0 <= p < |c.ps| && Over(c.ps[p].rhs, Good(c, pempty, t))
    ensures IsNonterm(c, c.ps[p].lhs) && MarksSound(c, pempty[c.ps[p].lhs - NTBASE := 1], t)
  {
    assert ProdSyms(c, c.ps[p]);
    GoodSideDerives(c, pempty, t, p);
    assert Nt(c.ps[p].lhs - NTBASE) == [c.ps[p].lhs];
  }

  /** Marks that are sound, and closed but perhaps for symbols outside the marks, are exact. */
  lemma {:induction false} ClosedMarksExact(c: Cfg, pempty: seq<int>, t: set<int>, extra: set<int>, x: int)
    requires MarksSound(c, pempty, t) && ClosedUp(c.ps, Good(c, pempty, t) + extra)
    requires 0 <= x <= c.nnonter && NTBASE + x !in t + extra
    ensures pempty[x] == 1 <==> DerivesInto(c.ps, Nt(x), t)
  {
    var good := Good(c, pempty, t) + extra;
    if DerivesInto(c.ps, Nt(x), t) {
      var w :| Over(w, t) && Derives(c.ps, Nt(x), w);
      var n: nat :| DerivesIn(c.ps, Nt(x), w, n);
      ClosedUpBackwards(c.ps, good, Nt(x), w, n);
      assert Nt(x)[0] in good;
    }
  }

  function CountZero(s: seq<int>): nat {
    if s == [] then 0 else (if s[0] == 0 then 1 else 0) + CountZero(s[1..])
  }

  lemma {:induction false} CountZeroDrops(s: seq<int>, i: nat)
    requires i < |s| && s[i] == 0
    ensures CountZero(s[i := 1]) < CountZero(s)
  {
    var s1 := s[i := 1];
    if i == 0 {
      assert s1[1..] == s[1..];
    } else {
      assert s1[1..] == s[1..][i - 1 := 1];
      CountZeroDrops(s[1..], i - 1);
    }
  }

  /** The symbols that the scan of production `i` looks at.  It stops at a negative cell, so that of production 0,
      which ends in 0, runs on through the left and the right side of production 1. */
  function Scanned(g: Grammar, i: int): seq<int>
    requires Wf(g) && 0 <= i < Nprod(g)
  {
    if i == 0 then Rhs(g, 0) + [Lhs(g, 1)] + Rhs(g, 1) else Rhs(g, i)
  }

  /** First loop of `cempty`: mark the nonterminals that derive a token string; `$accept` is marked exactly if what
      its scan looks at derives one. */
  method MarkProductive(g: Grammar) returns (marks: seq<int>)
    requires Wf(g)
    ensures |marks| == g.nnonter + 1
    ensures forall x :: 1 <= x <= g.nnonter ==> (marks[x] == 1 <==> DerivesInto(Abs(g).ps, Nt(x), Tokens(Abs(g))))
    ensures marks[0] == 1 <==> DerivesInto(Abs(g).ps, Scanned(g, 0), Tokens(Abs(g)))
  {
    ghost var c, t := Abs(g), Tokens(Abs(g));
    AbsOk(g);
    var pempty := new int[g.nnonter + 1](_ => 0);
    var more := true;
    while more
      invariant MarksSound(c, pempty[..], t) && AcceptSound(g, pempty[..])
      invariant !more ==> ClosedFrom1(c.ps, Good(c, pempty[..], t), |c.ps|) && AcceptClosed(g, pempty[..])
      decreases CountZero(pempty[..]), more
    {
      more := PassProductive(g, pempty);
    }
    marks := pempty[..];
    ProductiveExact(c, marks);
    AcceptExact(g, marks);
  }

  /** Look at the productions in order up to one that gives a new mark. */
  method PassProductive(g: Grammar, pempty: array<int>) returns (more: bool)
    requires Wf(g) && pempty.Length == g.nnonter + 1 && MarksSound(Abs(g), pempty[..], Tokens(Abs(g))) && AcceptSound(g, pempty[..])
    modifies pempty
    ensures MarksSound(Abs(g), pempty[..], Tokens(Abs(g))) && AcceptSound(g, pempty[..])
    ensures !more ==> pempty[..] == old(pempty[..]) && ClosedFrom1(Abs(g).ps, Good(Abs(g), pempty[..], Tokens(Abs(g))), Nprod(g)) && AcceptClosed(g, pempty[..])
    ensures more ==> CountZero(pempty[..]) < CountZero(old(pempty[..]))
  {
    ghost var c, t, before := Abs(g), Tokens(Abs(g)), pempty[..];
    AbsOk(g);
    more := false;
    var i := 0;
    while i < Nprod(g) && !more
      invariant 0 <= i <= Nprod(g)
      invariant MarksSound(c, pempty[..], t) && AcceptSound(g, pempty[..])
      invariant !more ==> pempty[..] == before && ClosedFrom1(c.ps, Good(c, before, t), i) && (i > 0 ==> AcceptClosed(g, before))
      invariant more ==> CountZero(pempty[..]) < CountZero(before)
      decreases Nprod(g) - i, !more
    {
      ProdInMemory(g, i);
      var lhs := Lhs(g, i) - NTBASE;
      if pempty[lhs] == 0 {
        var all := ScanProductive(g, pempty, i);
        if all {
          ScannedFirst(g, i);
          MarkIsSound(c, pempty[..], t, i);
          CountZeroDrops(pempty[..], lhs);
          MoreMarks(g, pempty[..], lhs, i);
          pempty[lhs] := 1;
          more := true;
        }
      } else {
        assert Marked(before, Lhs(g, i));
      }
      i := i + 1;
    }
  }

  /** `$accept` is marked only if what its scan looks at is good, ... */
  ghost predicate AcceptSound(g: Grammar, marks: seq<int>)
    requires Wf(g) && |marks| == g.nnonter + 1
  {
    marks[0] == 1 ==> Over(Scanned(g, 0), Good(Abs(g), marks, Tokens(Abs(g))))
  }

  /** ... and, when the loop is done, if it is. */
  ghost predicate AcceptClosed(g: Grammar, marks: seq<int>)
    requires Wf(g) && |marks| == g.nnonter + 1
  {
    Over(Scanned(g, 0), Good(Abs(g), marks, Tokens(Abs(g)))) ==> marks[0] == 1
  }

  lemma {:induction false} ScannedFirst(g: Grammar, i: int)
    requires Wf(g) && 0 <= i < Nprod(g)
    ensures Rhs(g, i) <= Scanned(g, i)
  {
  }

  lemma {:induction false} MoreMarks(g: Grammar, marks: seq<int>, lhs: int, i: int)
    requires Wf(g) && 0 <= i < Nprod(g) && |marks| == g.nnonter + 1 && AcceptSound(g, marks)
    requires lhs == Lhs(g, i) - NTBASE && 0 <= lhs < |marks| && Over(Scanned(g, i), Good(Abs(g), marks, Tokens(Abs(g))))
    ensures AcceptSound(g, marks[lhs := 1])
  {
    var a, b := Good(Abs(g), marks, Tokens(Abs(g))), Good(Abs(g), marks[lhs := 1], Tokens(Abs(g)));
    assert ProdOk(g, i);
    forall x | x in a ensures x in b {
      assert x !in Tokens(Abs(g)) ==> Marked(marks[lhs := 1], x);
    }
  }

  lemma {:induction false} AcceptExact(g: Grammar, marks: seq<int>)
    requires Wf(g) && |marks| == g.nnonter + 1 && AcceptSound(g, marks) && AcceptClosed(g, marks)
    requires MarksSound(Abs(g), marks, Tokens(Abs(g))) && ClosedFrom1(Abs(g).ps, Good(Abs(g), marks, Tokens(Abs(g))), Nprod(g))
    ensures marks[0] == 1 <==> DerivesInto(Abs(g).ps, Scanned(g, 0), Tokens(Abs(g)))
  {
    var c, t, a := Abs(g), Tokens(Abs(g)), Scanned(g, 0);
    var good := Good(c, marks, t);
    AbsOk(g);
    if marks[0] == 1 {
      forall k | 0 <= k < |a| ensures DerivesInto(c.ps, [a[k]], t) {
        GoodDerives(c, marks, t, a[k]);
      }
      SymbolsDeriveInto(c.ps, a, t);
    } else if DerivesInto(c.ps, a, t) {
      var w :| Over(w, t) && Derives(c.ps, a, w);
      var n: nat :| DerivesIn(c.ps, a, w, n);
      ClosedButAccept(c, good);
      ClosedUpBackwards(c.ps, good + {NTBASE}, a, w, n);
      NoAccept(g);
      forall k | 0 <= k < |a| ensures a[k] in good {
        assert a[k] in good + {NTBASE};
      }
    }
  }

  /** `$accept` is not among the symbols scanned. */
  lemma {:induction false} NoAccept(g: Grammar)
    requires Wf(g)
    ensures forall k :: 0 <= k < |Scanned(g, 0)| ==> Scanned(g, 0)[k] != NTBASE
  {
    ProdInMemory(g, 0);
    ProdInMemory(g, 1);
    assert ProdOk(g, 1);
    var r, l, q := Rhs(g, 0), Lhs(g, 1), Rhs(g, 1);
    forall k | 0 <= k < |Scanned(g, 0)| ensures Scanned(g, 0)[k] != NTBASE {
      if k < |r| {
        assert IsSym(Abs(g), r[k]);
      } else if k > |r| {
        assert IsSym(Abs(g), q[k - |r| - 1]);
      }
    }
  }

  lemma {:induction false} GoodDerives(c: Cfg, marks: seq<int>, t: set<int>, x: int)
    requires MarksSound(c, marks, t) && x in Good(c, marks, t)
    ensures DerivesInto(c.ps, [x], t)
  {
    if x in t {
      DerivesRefl(c.ps, [x]);
      assert Over([x], t);
    } else {
      assert Nt(x - NTBASE) == [x];
    }
  }

  /** If every other nonterminal derives a token string, `$accept` is marked. */
  lemma {:induction false} AcceptMarkedToo(g: Grammar)
    requires Wf(g) && forall x :: 1 <= x <= g.nnonter ==> DerivesInto(Abs(g).ps, Nt(x), Tokens(Abs(g)))
    ensures DerivesInto(Abs(g).ps, Scanned(g, 0), Tokens(Abs(g)))
  {
    var c, t, a := Abs(g), Tokens(Abs(g)), Scanned(g, 0);
    AbsOk(g);
    NoAccept(g);
    ProdInMemory(g, 0);
    ProdInMemory(g, 1);
    assert ProdOk(g, 1);
    forall k | 0 <= k < |a| ensures DerivesInto(c.ps, [a[k]], t) {
      if IsToken(c, a[k]) {
        DerivesRefl(c.ps, [a[k]]);
        assert Over([a[k]], t);
      } else {
        assert k < 2 ==> a[k] == Rhs(g, 0)[k] && IsSym(c, Rhs(g, 0)[k]);
        assert k > 2 ==> a[k] == Rhs(g, 1)[k - 3] && IsSym(c, Rhs(g, 1)[k - 3]);
        assert Nt(a[k] - NTBASE) == [a[k]];
      }
    }
    SymbolsDeriveInto(c.ps, a, t);
  }

  /** Production 1 is `A: A`, production 2 is `S: 'a'`, and S is the start symbol. */
  function Unreduced(): Grammar {
    Grammar([NTBASE, NTBASE + 2, 1, 0, NTBASE + 1, NTBASE + 1, -1, NTBASE + 2, 2, -2], [0, 4, 7, 10], 2, 2)
  }

  lemma {:induction false} UnreducedSides()
    ensures var g := Unreduced();
      && Wf(g) && Abs(g).ps == [Prod(NTBASE, [NTBASE + 2, 1]), Prod(NTBASE + 1, [NTBASE + 1]), Prod(NTBASE + 2, [2])]
      && Scanned(g, 0) == [NTBASE + 2, 1, NTBASE + 1, NTBASE + 1]
  {
    var g := Unreduced();
    assert g.prdptr[1] == 4 && g.prdptr[2] == 7 && g.prdptr[3] == 10;
    assert ProdOk(g, 0) && ProdOk(g, 1) && ProdOk(g, 2);
    assert Rhs(g, 0) == g.mem[1..3] == [NTBASE + 2, 1];
    assert Rhs(g, 1) == g.mem[5..6] == [NTBASE + 1];
    assert Rhs(g, 2) == g.mem[8..9] == [2];
  }

  /** `S` derives `a`, so `$accept` derives `a $end`. */
  lemma {:induction false} StartDerives(ps: seq<Prod>)
    requires |ps| == 3 && ps[0] == Prod(NTBASE, [NTBASE + 2, 1]) && ps[2] == Prod(NTBASE + 2, [2])
    ensures Derives(ps, Nt(0), [2, 1])
  {
    ByProduction(ps, 0);
    ByProduction(ps, 2);
    Congruence(ps, [], [NTBASE + 2], [2], [1]);
    assert [] + [NTBASE + 2] + [1] == [NTBASE + 2, 1] && [] + [2] + [1] == [2, 1];
    DerivesTrans(ps, Nt(0), [NTBASE + 2, 1], [2, 1]);
  }

  /** `A` derives nothing but itself. */
  lemma {:induction false} LoopDerivesNothing(ps: seq<Prod>, a: seq<int>, t: set<int>, k: nat)
    requires |ps| == 3 && ps[0].lhs == NTBASE && ps[1] == Prod(NTBASE + 1, [NTBASE + 1]) && ps[2].lhs == NTBASE + 2
    requires t == {1, 2} && k < |a| && a[k] == NTBASE + 1
    ensures !DerivesInto(ps, a, t)
  {
    if DerivesInto(ps, a, t) {
      var w :| Over(w, t) && Derives(ps, a, w);
      var n: nat :| DerivesIn(ps, a, w, n);
      var good := {1, 2, NTBASE + 2, NTBASE};
      assert ps[1].rhs[0] !in good;
      ClosedUpBackwards(ps, good, a, w, n);
    }
  }

  /** In this grammar `$accept` derives a token string and is not marked. */
  lemma {:induction false} AcceptUnmarked()
    ensures var g := Unreduced();
      && Wf(g) && DerivesInto(Abs(g).ps, Nt(0), Tokens(Abs(g)))
      && !DerivesInto(Abs(g).ps, Scanned(g, 0), Tokens(Abs(g)))
  {
    var g := Unreduced();
    UnreducedSides();
    var ps, t := Abs(g).ps, Tokens(Abs(g));
    assert t == {1, 2};
    StartDerives(ps);
    assert Over([2, 1], t);
    LoopDerivesNothing(ps, Scanned(g, 0), t, 2);
  }

  lemma {:induction false} ClosedButAccept(c: Cfg, good: set<int>)
    requires CfgOk(c) && |c.ps| >= 1 && c.ps[0].lhs == NTBASE && ClosedFrom1(c.ps, good, |c.ps|)
    ensures ClosedUp(c.ps, good + {NTBASE})
  {
    forall p | 0 <= p < |c.ps| && Over(c.ps[p].rhs, good + {NTBASE}) ensures c.ps[p].lhs in good + {NTBASE} {
      if p > 0 {
        assert ProdSyms(c, c.ps[p]);
        assert Over(c.ps[p].rhs, good);
      }
    }
  }

  /** `$accept` occurs on no right side, so it does not matter that its own mark is incomplete. */
  lemma {:induction false} ProductiveExact(c: Cfg, marks: seq<int>)
    requires CfgOk(c) && |c.ps| >= 1 && c.ps[0].lhs == NTBASE
    requires MarksSound(c, marks, Tokens(c)) && ClosedFrom1(c.ps, Good(c, marks, Tokens(c)), |c.ps|)
    ensures forall x :: 1 <= x <= c.nnonter ==> (marks[x] == 1 <==> DerivesInto(c.ps, Nt(x), Tokens(c)))
  {
    ClosedButAccept(c, Good(c, marks, Tokens(c)));
    forall x | 1 <= x <= c.nnonter ensures marks[x] == 1 <==> DerivesInto(c.ps, Nt(x), Tokens(c)) {
      ClosedMarksExact(c, marks, Tokens(c), {NTBASE}, x);
    }
  }

  /** The cells from `prdptr[i] + 1` on hold the symbols scanned, with a 0 between the two productions if `i` is 0. */
  ghost function CellOf(g: Grammar, i: int, k: int): int
    requires Wf(g) && 0 <= i < Nprod(g) && 0 <= k < |Scanned(g, i)|
  {
    g.prdptr[i] + 1 + k + if i == 0 && k >= 2 then 1 else 0
  }

  /** The negative cell where the scan stops. */
  ghost function EndOf(g: Grammar, i: int): int
    requires Wf(g) && 0 <= i < Nprod(g)
  {
    g.prdptr[i] + 1 + |Scanned(g, i)| + if i == 0 then 1 else 0
  }

  lemma {:induction false} ScannedCells(g: Grammar, i: int)
    requires Wf(g) && 0 <= i < Nprod(g)
    ensures EndOf(g, i) < |g.mem| && g.mem[EndOf(g, i)] < 0
    ensures forall k :: 0 <= k < |Scanned(g, i)| ==> CellOf(g, i, k) < |g.mem| && Scanned(g, i)[k] == g.mem[CellOf(g, i, k)] && (IsRhs(g, Scanned(g, i)[k]) || IsLhs(g, Scanned(g, i)[k]))
    ensures i == 0 ==> g.mem[3] == 0
  {
    assert ProdOk(g, 0) && ProdOk(g, 1) && ProdOk(g, i);
    ProdInMemory(g, i);
    ProdInMemory(g, 1);
    if i > 0 {
      forall k | 0 <= k < |Rhs(g, i)| ensures IsRhs(g, Rhs(g, i)[k]) {
        assert IsRhs(g, g.mem[g.prdptr[i] + 1 + k]);
      }
    } else {
      var a := Scanned(g, 0);
      forall k | 0 <= k < |a| ensures CellOf(g, 0, k) < |g.mem| && a[k] == g.mem[CellOf(g, 0, k)] && (IsRhs(g, a[k]) || IsLhs(g, a[k])) {
        if k > 2 {
          assert a[k] == Rhs(g, 1)[k - 3];
          assert IsRhs(g, g.mem[g.prdptr[1] + 1 + (k - 3)]);
        }
      }
    }
  }

  /** Walk production `i` up to a negative cell; false if an unmarked nonterminal is met. */
  method ScanProductive(g: Grammar, pempty: array<int>, i: int) returns (all: bool)
    requires Wf(g) && pempty.Length == g.nnonter + 1 && 0 <= i < Nprod(g)
    requires forall c :: 0 <= c < pempty.Length ==> pempty[c] == 0 || pempty[c] == 1
    ensures all <==> Over(Scanned(g, i), Good(Abs(g), pempty[..], Tokens(Abs(g))))
  {
    ScannedCells(g, i);
    ghost var a, good, k := Scanned(g, i), Good(Abs(g), pempty[..], Tokens(Abs(g))), 0;
    ghost var last := EndOf(g, i);
    var p := g.prdptr[i] + 1;
    while g.mem[p] >= 0
      invariant 0 <= k <= |a| && p <= last
      invariant if k < |a| then p == CellOf(g, i, k) || (i == 0 && k == 2 && p == 3) else p == last
      invariant forall j :: 0 <= j < k ==> a[j] in good
      decreases last - p
    {
      if g.mem[p] >= NTBASE && pempty[g.mem[p] - NTBASE] == 0 {
        assert a[k] !in good;
        return false;
      }
      if !(i == 0 && p == 3) {
        assert g.mem[p] >= NTBASE ==> Marked(pempty[..], a[k]);
        assert g.mem[p] < NTBASE ==> a[k] in Tokens(Abs(g));
        k := k + 1;
      }
      p := p + 1;
    }
    return true;
  }

  lemma {:induction false} EmptyMarksExact(c: Cfg, marks: seq<int>)
    requires MarksSound(c, marks, {}) && ClosedUp(c.ps, Good(c, marks, {}))
    ensures EmptyExact(c, marks)
  {
    OnlyEmptyOverNothing();
    assert Over([], {});
    assert Good(c, marks, {}) + {} == Good(c, marks, {});
    forall x | 0 <= x <= c.nnonter ensures marks[x] == 1 <==> Derives(c.ps, Nt(x), []) {
      ClosedMarksExact(c, marks, {}, {}, x);
    }
  }

  /** Second loop of `cempty`: mark the nonterminals that derive the empty string. */
  method MarkEmpty(g: Grammar) returns (marks: seq<int>)
    requires Wf(g)
    ensures EmptyExact(Abs(g), marks)
  {
    ghost var c := Abs(g);
    AbsOk(g);
    var pempty := new int[g.nnonter + 1](_ => 0);
    var again := true;
    while again
      invariant MarksSound(c, pempty[..], {})
      invariant !again ==> ClosedFrom1(c.ps, Good(c, pempty[..], {}), |c.ps|)
      decreases CountZero(pempty[..]), again
    {
      again := PassEmpty(g, pempty);
    }
    marks := pempty[..];
    ProdInMemory(g, 0);
    assert c.ps[0].rhs[1] == 1 && 1 !in Good(c, marks, {});
    EmptyMarksExact(c, marks);
  }

  /** Look at the productions in order, from 1 on, up to one that gives a new mark. */
  method PassEmpty(g: Grammar, pempty: array<int>) returns (again: bool)
    requires Wf(g) && pempty.Length == g.nnonter + 1 && MarksSound(Abs(g), pempty[..], {})
    modifies pempty
    ensures MarksSound(Abs(g), pempty[..], {})
    ensures !again ==> pempty[..] == old(pempty[..]) && ClosedFrom1(Abs(g).ps, Good(Abs(g), pempty[..], {}), Nprod(g))
    ensures again ==> CountZero(pempty[..]) < CountZero(old(pempty[..]))
  {
    ghost var c, before := Abs(g), pempty[..];
    AbsOk(g);
    again := false;
    var i := 1;
    while i < Nprod(g) && !again
      invariant 1 <= i <= Nprod(g)
      invariant MarksSound(c, pempty[..], {})
      invariant !again ==> pempty[..] == before && ClosedFrom1(c.ps, Good(c, before, {}), i)
      invariant again ==> CountZero(pempty[..]) < CountZero(before)
      decreases Nprod(g) - i, !again
    {
      ProdInMemory(g, i);
      var lhs := Lhs(g, i) - NTBASE;
      if pempty[lhs] == 0 {
        var all := ScanEmpty(g, pempty, i);
        if all {
          MarkIsSound(c, pempty[..], {}, i);
          CountZeroDrops(pempty[..], lhs);
          pempty[lhs] := 1;
          again := true;
        }
      } else {
        assert Marked(before, Lhs(g, i));
      }
      i := i + 1;
    }
  }

  method ScanEmpty(g: Grammar, pempty: array<int>, i: int) returns (all: bool)
    requires Wf(g) && pempty.Length == g.nnonter + 1 && 0 < i < Nprod(g)
    requires forall c :: 0 <= c < pempty.Length ==> pempty[c] == 0 || pempty[c] == 1
    ensures all <==> Over(Rhs(g, i), Good(Abs(g), pempty[..], {}))
  {
    assert ProdOk(g, i);
    ProdInMemory(g, i);
    ghost var r, good := Rhs(g, i), Good(Abs(g), pempty[..], {});
    var p := g.prdptr[i] + 1;
    while g.mem[p] >= NTBASE && pempty[g.mem[p] - NTBASE] == 1
      invariant g.prdptr[i] + 1 <= p < g.prdptr[i + 1]
      invariant p < g.prdptr[i + 1] - 1 ==> IsRhs(g, g.mem[p])
      invariant forall k :: 0 <= k < p - g.prdptr[i] - 1 ==> r[k] in good
      decreases g.prdptr[i + 1] - p
    {
      assert r[p - g.prdptr[i] - 1] == g.mem[p] && Marked(pempty[..], g.mem[p]);
      p := p + 1;
    }
    all := g.mem[p] < 0;
    if !all {
      assert r[p - g.prdptr[i] - 1] == g.mem[p];
    }
  }

  /** `cempty`: refuse a grammar with a nonterminal that derives no token string, otherwise say
      exactly which nonterminals derive the empty string. */
  method Cempty(g: Grammar) returns (ok: bool, pempty: seq<int>)
    requires Wf(g)
    ensures ok <==> forall x :: 1 <= x <= g.nnonter ==> DerivesInto(Abs(g).ps, Nt(x), Tokens(Abs(g)))
    ensures ok ==> EmptyExact(Abs(g), pempty)
  {
    var marks := MarkProductive(g);
    ok, pempty := true, [];
    for c := 1 to g.nnonter + 1
      invariant ok <==> forall d :: 1 <= d < c ==> marks[d] == 1
    {
      if marks[c] != 1 {
        ok := false;
      }
    }
    assert ok <==> forall c :: 1 <= c <= g.nnonter ==> marks[c] == 1;
    if ok {
      pempty := MarkEmpty(g);
    }
  }

  // ----- cpfir -----

  /** The leading token of production `p`, 0 when a nonterminal or nothing comes first. */
  method LeadingToken(g: Grammar, pempty: seq<int>, p: int) returns (t: int)
    requires Wf(g) && |pempty| == g.nnonter + 1 && 0 <= p < Nprod(g)
    requires forall c :: 0 <= c <= g.nnonter ==> pempty[c] == 0 || pempty[c] == 1
    ensures t != 0 ==> exists k :: Leading(Abs(g), pempty, Rhs(g, p), k) && IsToken(Abs(g), t) && t == Rhs(g, p)[k]
    ensures forall s :: t != 0 && t in s ==> TokenIn(Abs(g), pempty, s, Rhs(g, p))
    ensures t == 0 ==> forall s :: TokenIn(Abs(g), pempty, s, Rhs(g, p))
  {
    assert ProdOk(g, p);
    ProdInMemory(g, p);
    ghost var r := Rhs(g, p);
    var q := g.prdptr[p] + 1;
    while g.mem[q] > 0
      invariant g.prdptr[p] + 1 <= q < g.prdptr[p + 1]
      invariant NullUpTo(Abs(g), pempty, r, q - g.prdptr[p] - 1)
      decreases g.prdptr[p + 1] - q
    {
      ghost var k := q - g.prdptr[p] - 1;
      assert r[k] == g.mem[q] && Leading(Abs(g), pempty, r, k);
      if g.mem[q] < NTBASE {
        return g.mem[q];
      }
      if pempty[g.mem[q] - NTBASE] == 0 {
        return 0;
      }
      q := q + 1;
    }
    return 0;
  }

  /** One production of the transitive step: the first sets of the leading nonterminals of `p`
      are joined to that of its left side. */
  method Absorb(c: Cfg, pempty: seq<int>, first: seq<set<int>>, p: int) returns (changes: bool, f: seq<set<int>>)
    requires FirstArgs(c, pempty, first) && FirstSound(c, first) && 0 <= p < |c.ps|
    requires ProdSyms(c, c.ps[p]) && TokenIn(c, pempty, first[c.ps[p].lhs - NTBASE], c.ps[p].rhs)
    ensures FirstSound(c, f) && Grows(first, f)
    ensures !changes ==> f == first && SideIn(c, pempty, first, c.ps[p])
    ensures changes ==> Missing(c, f) < Missing(c, first)
  {
    var r, l := c.ps[p].rhs, c.ps[p].lhs - NTBASE;
    changes, f := false, first;
    var k := 0;
    while k < |r| && r[k] >= NTBASE
      invariant 0 <= k <= |r| && NullUpTo(c, pempty, r, k)
      invariant Absorbing(c, pempty, first, f, changes, p, k)
    {
      var ch := r[k] - NTBASE;
      assert Leading(c, pempty, r, k);
      AbsorbStep(c, pempty, first, f, changes, p, k);
      changes := changes || !(f[ch] <= f[l]);
      f := f[l := f[l] + f[ch]];
      if pempty[ch] == 0 {
        AbsorbDone(c, pempty, first, f, changes, p, k + 1);
        return;
      }
      k := k + 1;
    }
    AbsorbDone(c, pempty, first, f, changes, p, k);
  }

  ghost predicate TokensInBelow(g: Cfg, pempty: seq<int>, first: seq<set<int>>, i: int)
    requires FirstArgs(g, pempty, first)
  {
    forall p {:trigger ProdSyms(g, g.ps[p])} :: 0 <= p < |g.ps| && ProdSyms(g, g.ps[p]) && g.ps[p].lhs - NTBASE < i ==>
      TokenIn(g, pempty, first[g.ps[p].lhs - NTBASE], g.ps[p].rhs)
  }

  ghost predicate TokensIn(g: Cfg, pempty: seq<int>, first: seq<set<int>>)
    requires FirstArgs(g, pempty, first)
  {
    TokensInBelow(g, pempty, first, g.nnonter + 1)
  }

  /** `cpfir`: the first sets are exactly the tokens that can begin each nonterminal. */
  method Cpfir(g: Grammar, pres: seq<seq<nat>>, pempty: seq<int>) returns (pfirst: seq<set<int>>)
    requires Wf(g) && PresOk(g, pres) && EmptyExact(Abs(g), pempty)
    ensures FirstExact(Abs(g), pfirst)
  {
    AbsOk(g);
    var ws: seq<set<int>> := FillFirst(g, pres, pempty);
    var changes := true;
    while changes
      invariant FirstArgs(Abs(g), pempty, ws) && FirstSound(Abs(g), ws) && TokensIn(Abs(g), pempty, ws)
      invariant !changes ==> FirstClosed(Abs(g), pempty, ws)
      decreases Missing(Abs(g), ws), changes
    {
      changes, ws := Sweep(g, pres, pempty, ws);
    }
    ClosedFirstExact(Abs(g), pempty, ws);
    return ws;
  }

  /** The initial sets: the leading tokens of the productions of each nonterminal. */
  method FillFirst(g: Grammar, pres: seq<seq<nat>>, pempty: seq<int>) returns (ws: seq<set<int>>)
    requires Wf(g) && PresOk(g, pres) && EmptyExact(Abs(g), pempty) && CfgOk(Abs(g))
    ensures FirstSound(Abs(g), ws) && TokensIn(Abs(g), pempty, ws)
  {
    ghost var c := Abs(g);
    ws := seq(g.nnonter + 1, _ => {});
    for i := 0 to g.nnonter + 1
      invariant FirstSound(c, ws) && TokensInBelow(c, pempty, ws, i)
    {
      ws := FillOne(g, pres[i], pempty, ws, i);
    }
  }

  /** The leading tokens of the productions of nonterminal `i`. */
  method FillOne(g: Grammar, list: seq<nat>, pempty: seq<int>, ws0: seq<set<int>>, i: int) returns (ws: seq<set<int>>)
    requires Wf(g) && EmptyExact(Abs(g), pempty) && CfgOk(Abs(g)) && 0 <= i <= g.nnonter && Yields(g, list, i, Nprod(g))
    requires FirstSound(Abs(g), ws0) && TokensInBelow(Abs(g), pempty, ws0, i)
    ensures FirstSound(Abs(g), ws) && TokensInBelow(Abs(g), pempty, ws, i + 1)
  {
    ghost var c := Abs(g);
    ws := ws0;
    for s := 0 to |list|
      invariant FirstSound(c, ws) && |ws| == |ws0| && ws == ws0[i := ws[i]]
      invariant forall x {:trigger list[x]} :: 0 <= x < s ==> TokenIn(c, pempty, ws[i], Rhs(g, list[x]))
    {
      ws := AddLeading(g, pempty, ws, i, list[s]);
    }
    forall p | 0 <= p < |c.ps| && ProdSyms(c, c.ps[p]) && c.ps[p].lhs - NTBASE < i + 1
      ensures TokenIn(c, pempty, ws[c.ps[p].lhs - NTBASE], c.ps[p].rhs)
    {
      if c.ps[p].lhs - NTBASE == i {
        assert Lhs(g, p) == NTBASE + i;
        assert p in list;
      }
    }
  }

  /** The leading token of one production joins the set of its left side. */
  method AddLeading(g: Grammar, pempty: seq<int>, ws0: seq<set<int>>, i: int, p: nat) returns (ws: seq<set<int>>)
    requires Wf(g) && EmptyExact(Abs(g), pempty) && CfgOk(Abs(g)) && 0 <= i <= g.nnonter && p < Nprod(g) && Lhs(g, p) == NTBASE + i
    requires FirstSound(Abs(g), ws0)
    ensures FirstSound(Abs(g), ws) && |ws| == |ws0| && ws == ws0[i := ws[i]] && ws0[i] <= ws[i]
    ensures TokenIn(Abs(g), pempty, ws[i], Rhs(g, p))
    ensures forall q {:trigger Rhs(g, q)} :: 0 <= q < Nprod(g) && TokenIn(Abs(g), pempty, ws0[i], Rhs(g, q)) ==> TokenIn(Abs(g), pempty, ws[i], Rhs(g, q))
  {
    ghost var c := Abs(g);
    ws := ws0;
    var t := LeadingToken(g, pempty, p);
    if t != 0 {
      ghost var k :| Leading(c, pempty, Rhs(g, p), k) && IsToken(c, t) && t == Rhs(g, p)[k];
      TokenBeginsItself(c.ps, t);
      LeadingBegins(c, pempty, p, k, t);
      assert Nt(i) == [Lhs(g, p)] && TokenBegins(c, i, t);
      ws := ws[i := ws[i] + {t}];
    }
  }

  ghost predicate SidesInBelow(g: Cfg, pempty: seq<int>, first: seq<set<int>>, i: int)
    requires |pempty| == |first| == g.nnonter + 1
  {
    forall p {:trigger SideIn(g, pempty, first, g.ps[p])} :: 0 <= p < |g.ps| && NTBASE <= g.ps[p].lhs < NTBASE + i ==> SideIn(g, pempty, first, g.ps[p])
  }

  /** One pass over all productions. */
  method Sweep(g: Grammar, pres: seq<seq<nat>>, pempty: seq<int>, first: seq<set<int>>) returns (changes: bool, ws: seq<set<int>>)
    requires Wf(g) && PresOk(g, pres)
    requires FirstArgs(Abs(g), pempty, first) && FirstSound(Abs(g), first) && TokensIn(Abs(g), pempty, first)
    ensures FirstArgs(Abs(g), pempty, ws) && FirstSound(Abs(g), ws) && TokensIn(Abs(g), pempty, ws)
    ensures !changes ==> ws == first && FirstClosed(Abs(g), pempty, ws)
    ensures changes ==> Missing(Abs(g), ws) < Missing(Abs(g), first)
  {
    ghost var c := Abs(g);
    changes, ws := false, first;
    for i := 0 to g.nnonter + 1
      invariant FirstArgs(c, pempty, ws) && FirstSound(c, ws) && TokensIn(c, pempty, ws)
      invariant if changes then Missing(c, ws) < Missing(c, first) else ws == first && SidesInBelow(c, pempty, first, i)
    {
      assert Yields(g, pres[i], i, Nprod(g));
      for s := 0 to |pres[i]|
        invariant FirstArgs(c, pempty, ws) && FirstSound(c, ws) && TokensIn(c, pempty, ws)
        invariant if changes then Missing(c, ws) < Missing(c, first) else ws == first && SidesInBelow(c, pempty, first, i)
        invariant !changes ==> forall x :: 0 <= x < s ==> SideIn(c, pempty, first, c.ps[pres[i][x]])
      {
        var p := pres[i][s];
        ProdInMemory(g, p);
        var changed, f := Absorb(Abs(g), pempty, ws, p);
        TokensStay(c, pempty, ws, f);
        changes, ws := changes || changed, f;
      }
      forall p | !changes && 0 <= p < |c.ps| && NTBASE <= c.ps[p].lhs < NTBASE + i + 1 ensures SideIn(c, pempty, first, c.ps[p]) {
        if c.ps[p].lhs - NTBASE == i {
          assert Lhs(g, p) == NTBASE + i;
          assert p in pres[i];
        }
      }
    }
    forall p | !changes && 0 <= p < |c.ps| ensures SideIn(c, pempty, first, c.ps[p]) {
      ProdInMemory(g, p);
    }
  }

  lemma TokensStay(g: Cfg, pempty: seq<int>, ws: seq<set<int>>, f: seq<set<int>>)
    requires FirstArgs(g, pempty, ws) && TokensIn(g, pempty, ws) && Grows(ws, f)
    ensures TokensIn(g, pempty, f)
  {
    forall p | 0 <= p < |g.ps| && ProdSyms(g, g.ps[p]) ensures TokenIn(g, pempty, f[g.ps[p].lhs - NTBASE], g.ps[p].rhs) {
      assert TokenIn(g, pempty, ws[g.ps[p].lhs - NTBASE], g.ps[p].rhs);
    }
  }
}
