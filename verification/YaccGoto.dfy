/**
 Reading the automaton back: `go2gen` (which states have a goto over a nonterminal, decided by
 left corners alone, and where it leads), the choice of defaults in `go2out`, and the `yychk`
 array of `others` (the symbol over which each state is entered).
 */
module YaccGoto {
  import opened YaccClosure
  import opened YaccLr
  import opened YaccSizes
  import opened YaccStates
  import YaccGrammar

  // ----- left corners -----

  /** A production as `go2gen` sees it: its nonterminal and its first item. */
  datatype Corner = Corner(lhs: int, first: int)

  ghost predicate CornersOk(x: Ctx, ps: seq<Corner>)
    requires CtxOk(x)
  {
    && (forall i :: 0 <= i < |ps| ==> 0 <= ps[i].lhs < |x.starts| && ps[i].first in x.starts[ps[i].lhs])
    && (forall a, s :: 0 <= a < |x.starts| && s in x.starts[a] ==> Corner(a, s) in ps)
  }

  /** Item `it` has nonterminal `a` after its dot. */
  ghost predicate Before(x: Ctx, it: int, a: int) { IsItem(x, it) && x.mem[it] == NTBASE + a }

  ghost predicate HasBefore(x: Ctx, s: set<int>, a: int) { exists it :: it in s && Before(x, it, a) }

  /** Every closed set with an item before `a` has one before `c`. */
  ghost predicate LeadsTo(x: Ctx, a: int, c: int)
    requires CtxOk(x)
  {
    forall s: set<int> {:trigger ClosedItems(x, s)} :: ClosedItems(x, s) && HasBefore(x, s, a) ==> HasBefore(x, s, c)
  }

  ghost predicate MarksLead(x: Ctx, marks: seq<int>, c: int)
    requires CtxOk(x)
  {
    |marks| == |x.starts| && forall a {:trigger LeadsTo(x, a, c)} :: 0 <= a < |marks| && marks[a] != 0 ==> LeadsTo(x, a, c)
  }

  /** If `b` has a production that begins with a marked nonterminal, `b` is marked. */
  ghost predicate CornerClosed(x: Ctx, marks: seq<int>, p: Corner) {
    forall a :: 0 <= a < |marks| && marks[a] != 0 && Before(x, p.first, a) ==> 0 <= p.lhs < |marks| && marks[p.lhs] != 0
  }

  lemma {:induction false} CornerLeads(x: Ctx, p: Corner, a: int, c: int)
    requires CtxOk(x) && 0 <= p.lhs < |x.starts| && p.first in x.starts[p.lhs] && Before(x, p.first, a) && LeadsTo(x, a, c)
    ensures LeadsTo(x, p.lhs, c)
  {
    forall s: set<int> | ClosedItems(x, s) && HasBefore(x, s, p.lhs) ensures HasBefore(x, s, c) {
      var it :| it in s && Before(x, it, p.lhs);
      assert Next(x, it) == x.starts[p.lhs];
      assert p.first in s;
      assert HasBefore(x, s, a);
    }
  }

  /** First loop of `go2gen`: the nonterminals whose closure has an item before `c`. */
  method LeftCorners(x: Ctx, ps: seq<Corner>, c: int) returns (marks: seq<int>)
    requires CtxOk(x) && CornersOk(x, ps) && 0 <= c < |x.starts|
    ensures MarksLead(x, marks, c) && marks[c] != 0
    ensures forall i :: 0 <= i < |ps| ==> CornerClosed(x, marks, ps[i])
  {
    marks := seq(|x.starts|, _ => 0);
    marks := marks[c := 1];
    var work := true;
    while work
      invariant MarksLead(x, marks, c) && marks[c] != 0
      invariant !work ==> forall i :: 0 <= i < |ps| ==> CornerClosed(x, marks, ps[i])
      decreases YaccGrammar.CountZero(marks), work
    {
      work := false;
      ghost var before := marks;
      for i := 0 to |ps|
        invariant MarksLead(x, marks, c) && marks[c] != 0
        invariant if work then YaccGrammar.CountZero(marks) < YaccGrammar.CountZero(before) else marks == before
        invariant !work ==> forall j :: 0 <= j < i ==> CornerClosed(x, marks, ps[j])
      {
        assert ps[i].first in x.starts[ps[i].lhs];
        var k :| 0 <= k < |x.starts[ps[i].lhs]| && x.starts[ps[i].lhs][k] == ps[i].first;
        var cc := x.mem[ps[i].first] - NTBASE;
        assert CellOk(x, x.mem[ps[i].first]);
        if cc >= 0 && marks[cc] != 0 {
          assert Before(x, ps[i].first, cc);
          if marks[ps[i].lhs] == 0 {
            work := true;
            assert LeadsTo(x, cc, c);
            CornerLeads(x, ps[i], cc, c);
            YaccGrammar.CountZeroDrops(marks, ps[i].lhs);
            marks := marks[ps[i].lhs := 1];
          }
        }
      }
    }
  }

  /** The marks decide from the kernel alone whether its closure has an item before `c`. */
  lemma {:induction false} CornersDecide(x: Ctx, ps: seq<Corner>, marks: seq<int>, c: int, k: set<int>)
    requires CtxOk(x) && CornersOk(x, ps) && 0 <= c < |x.starts| && MarksLead(x, marks, c) && marks[c] != 0
    requires forall i :: 0 <= i < |ps| ==> CornerClosed(x, marks, ps[i])
    requires ItemSet(x, k)
    ensures HasBefore(x, Closure0(x, k), c) <==> exists it :: it in k && MarkedAt(x, marks, it)
  {
    Closure0Closed(x, k);
    if it :| it in k && MarkedAt(x, marks, it) {
      var a := x.mem[it] - NTBASE;
      assert CellOk(x, x.mem[it]);
      assert LeadsTo(x, a, c) && Before(x, it, a) && it in Closure0(x, k);
      assert HasBefore(x, Closure0(x, k), a);
    } else {
      UnmarkedClosed(x, ps, marks, c, k);
    }
  }

  ghost predicate MarkedAt(x: Ctx, marks: seq<int>, it: int) {
    IsItem(x, it) && NTBASE <= x.mem[it] < NTBASE + |marks| && marks[x.mem[it] - NTBASE] != 0
  }

  ghost function UnmarkedItems(x: Ctx, marks: seq<int>): set<int> {
    set it | 0 < it < |x.mem| && !MarkedAt(x, marks, it)
  }

  lemma {:induction false} UnmarkedClosed(x: Ctx, ps: seq<Corner>, marks: seq<int>, c: int, k: set<int>)
    requires CtxOk(x) && CornersOk(x, ps) && 0 <= c < |x.starts| == |marks| && marks[c] != 0
    requires forall i :: 0 <= i < |ps| ==> CornerClosed(x, marks, ps[i])
    requires ItemSet(x, k) && forall it :: it in k ==> !MarkedAt(x, marks, it)
    ensures !HasBefore(x, Closure0(x, k), c)
  {
    var s := UnmarkedItems(x, marks);
    forall it | it in s ensures IsItem(x, it) && forall n :: n in Next(x, it) ==> n in s {
      forall n | n in Next(x, it) ensures n in s {
        NextIsItem(x, it, n);
        assert CellOk(x, x.mem[it]) && CellOk(x, x.mem[n]);
        var b := x.mem[it] - NTBASE;
        assert Corner(b, n) in ps;
        assert CornerClosed(x, marks, Corner(b, n));
        assert x.mem[n] >= NTBASE ==> Before(x, n, x.mem[n] - NTBASE);
      }
    }
    Closure0Closed(x, k);
    assert ClosedItems(x, s) && k <= s;
    assert Closure0(x, k) <= s;
  }

  /** Whether there is a goto over nonterminal `c` from kernel `k`. */
  lemma {:induction false} GotoIffBefore(x: Ctx, k: set<int>, c: int)
    requires CtxOk(x)
    ensures NtGoto(x, k, c) != {} <==> HasBefore(x, Closure0(x, k), c)
  {
    if HasBefore(x, Closure0(x, k), c) {
      var it :| it in Closure0(x, k) && Before(x, it, c);
      assert it + 1 in Goto0(x, k, NTBASE + c);
    }
    if NtGoto(x, k, c) != {} {
      var j :| j in NtGoto(x, k, c);
      assert Before(x, j - 1, c);
    }
  }

  /** The gotos over nonterminal `c`: for each state the state it leads to, 0 where there is none. */
  ghost predicate GotosRight(x: Ctx, g: Gen, c: int, ty: seq<int>)
    requires CtxOk(x)
  {
    && |ty| == |g.states|
    && forall i {:trigger ty[i]} :: 0 <= i < |ty| ==>
         var t := NtGoto(x, KerSet(g.states[i]), c);
         if t == {} then ty[i] == 0 else ty[i] != 0 && IsState(g, ty[i], t)
  }

  /** Does the kernel have an item before a marked nonterminal? */
  method KernelMarked(x: Ctx, marks: seq<int>, ker: seq<Item>) returns (yes: bool)
    requires CtxOk(x) && |marks| == |x.starts| && KernelOk(x, ker)
    ensures yes <==> exists it :: it in KerSet(ker) && MarkedAt(x, marks, it)
  {
    for p := 0 to |ker|
      invariant forall q :: 0 <= q < p ==> !MarkedAt(x, marks, ker[q].pitem)
    {
      var cc := x.mem[ker[p].pitem];
      assert IsItem(x, ker[p].pitem) && CellOk(x, cc);
      if cc >= NTBASE && marks[cc - NTBASE] != 0 {
        assert ker[p].pitem in KerSet(ker) && MarkedAt(x, marks, ker[p].pitem);
        return true;
      }
    }
    return false;
  }

  /** `go2gen`: the packed rows, read only where left corners promise a goto, give exactly the gotos. */
  method Go2gen(x: Ctx, g: Gen, ps: seq<Corner>, amem: seq<int>, indgo: seq<int>, c: int) returns (ty: seq<int>)
    requires GenOk(x, g) && CornersOk(x, ps) && 1 <= c < |x.starts| && |indgo| >= |g.states|
    requires forall j :: 0 <= j < |g.states| ==> RowRight(x, g, amem, indgo[j], KerSet(g.states[j]))
    ensures GotosRight(x, g, c, ty)
  {
    var marks := LeftCorners(x, ps, c);
    ty := seq(|g.states|, _ => 0);
    for i := 0 to |g.states|
      invariant |ty| == |g.states|
      invariant forall j {:trigger ty[j]} :: 0 <= j < i ==>
        var t := NtGoto(x, KerSet(g.states[j]), c);
        if t == {} then ty[j] == 0 else ty[j] != 0 && IsState(g, ty[j], t)
      invariant forall j :: i <= j < |ty| ==> ty[j] == 0
    {
      ghost var k := KerSet(g.states[i]);
      assert StateOk(x, g, i);
      var yes := KernelMarked(x, marks, g.states[i]);
      assert ItemSet(x, k) by {
        forall it | it in k ensures IsItem(x, it) {
          var n :| 0 <= n < |g.states[i]| && g.states[i][n].pitem == it;
        }
      }
      CornersDecide(x, ps, marks, c, k);
      GotoIffBefore(x, k, c);
      if yes {
        assert RowRight(x, g, amem, indgo[i], k);
        ty := ty[i := amem[indgo[i] + c]];
      }
    }
  }

  // ----- go2out -----

  ghost function Occurs(s: seq<int>, v: int): nat { multiset(s)[v] }

  lemma {:induction false} OccursSplit(s: seq<int>, j: int, v: int)
    requires 0 <= j <= |s|
    ensures Occurs(s, v) == Occurs(s[..j], v) + Occurs(s[j..], v)
  {
    assert s == s[..j] + s[j..];
  }

  /** The most frequent nonzero goto becomes the default; 0 when there is no goto at all. */
  method BestDefault(ty: seq<int>) returns (best: int)
    requires forall j :: 0 <= j < |ty| ==> ty[j] >= 0
    ensures best == 0 <==> forall j :: 0 <= j < |ty| ==> ty[j] == 0
    ensures best != 0 ==> best in ty && forall v :: v in ty && v != 0 ==> Occurs(ty, v) <= Occurs(ty, best)
  {
    best := -1;
    var times := 0;
    for j := 0 to |ty|
      invariant best == -1 ==> times == 0 && forall k :: 0 <= k < j ==> ty[k] == 0
      invariant best != -1 ==> best > 0 && best in ty && times == Occurs(ty, best) > 0
      invariant forall k :: 0 <= k < j && ty[k] != 0 ==> Occurs(ty, ty[k]) <= times
    {
      if ty[j] != 0 && ty[j] != best {
        var cbest := ty[j];
        var count := CountFrom(ty, j, cbest);
        OccursSplit(ty, j, cbest);
        if cbest !in ty[..j] {
          assert Occurs(ty[..j], cbest) == 0;
        } else {
          var k :| 0 <= k < |ty[..j]| && ty[..j][k] == cbest;
          assert ty[k] == cbest;
        }
        assert cbest in ty[j..] by { assert ty[j..][0] == cbest; }
        if count > times {
          best, times := cbest, count;
        }
      }
    }
    if best == -1 {
      best := 0;
    }
    forall v | best != 0 && v in ty && v != 0 ensures Occurs(ty, v) <= Occurs(ty, best) {
      var k :| 0 <= k < |ty| && ty[k] == v;
    }
  }

  method CountFrom(ty: seq<int>, j: nat, v: int) returns (count: nat)
    requires j <= |ty|
    ensures count == Occurs(ty[j..], v)
  {
    count := 0;
    for k := j to |ty|
      invariant count == Occurs(ty[j..k], v)
    {
      assert ty[j..k + 1] == ty[j..k] + [ty[k]];
      if ty[k] == v {
        count := count + 1;
      }
    }
    assert ty[j..|ty|] == ty[j..];
  }

  // ----- yychk -----

  /** How `yychk` writes a symbol: a token as itself, a nonterminal negated. */
  function Code(c: int): int { if c >= NTBASE then -(c - NTBASE) else c }

  /** `yychk` names the symbol over which each state is entered. */
  ghost predicate ChkRight(x: Ctx, g: Gen, chk: seq<int>)
    requires GenOk(x, g)
  {
    && |chk| == |g.states| && chk[0] == -1000
    && forall c, j {:trigger OnChain(g, c, j)} :: IsSymbol(g, c) && OnChain(g, c, j) ==> 0 < j < |chk| && chk[j] == Code(c)
  }

  /** No state is on two chains. */
  lemma {:induction false} OneChain(x: Ctx, g: Gen, c: int, d: int, j: int)
    requires GenOk(x, g) && IsSymbol(g, c) && IsSymbol(g, d) && OnChain(g, c, j) && OnChain(g, d, j)
    ensures c == d
  {
    assert ChainEntryOk(x, g, c, j) && ChainEntryOk(x, g, d, j);
    assert StateOk(x, g, j);
    assert x.mem[g.states[j][0].pitem - 1] == c;
  }

  /** The chains of the symbols in `done` have been walked. */
  ghost predicate ChkSoFar(x: Ctx, g: Gen, chk: seq<int>, done: set<int>)
    requires GenOk(x, g)
  {
    && |chk| == |g.states| && chk[0] == -1000
    && forall c, j {:trigger OnChain(g, c, j)} :: IsSymbol(g, c) && c in done && OnChain(g, c, j) ==> 0 < j < |chk| && chk[j] == Code(c)
  }

  /** Walk the chain of one symbol. */
  method WalkChain(x: Ctx, g: Gen, chk: seq<int>, ghost done: set<int>, c: int) returns (r: seq<int>)
    requires GenOk(x, g) && ChkSoFar(x, g, chk, done) && IsSymbol(g, c)
    ensures ChkSoFar(x, g, r, done + {c})
  {
    r := chk;
    var j := Head(g, c);
    while j != 0
      invariant 0 <= j < |g.states|
      invariant ChkSoFar(x, g, r, done - {c})
      invariant forall k :: OnChain(g, c, k) ==> InChain(g.mstates, j, k) || (0 < k < |r| && r[k] == Code(c))
      invariant forall k :: InChain(g.mstates, j, k) ==> OnChain(g, c, k)
      decreases j
    {
      assert InChain(g.mstates, j, j);
      forall d | IsSymbol(g, d) && OnChain(g, d, j) ensures d == c {
        OneChain(x, g, c, d, j);
      }
      r := r[j := Code(c)];
      j := g.mstates[j];
    }
  }

  method Yychk(x: Ctx, g: Gen) returns (chk: seq<int>)
    requires GenOk(x, g)
    ensures ChkRight(x, g, chk)
  {
    chk := seq(|g.states|, _ => -1000);
    ghost var done: set<int> := {};
    for i := 1 to |g.tstates|
      invariant ChkSoFar(x, g, chk, done)
      invariant forall c :: 1 <= c < i ==> c in done
    {
      chk := WalkChain(x, g, chk, done, i);
      done := done + {i};
    }
    for i := 0 to |g.ntstates|
      invariant ChkSoFar(x, g, chk, done)
      invariant forall c :: 1 <= c < |g.tstates| ==> c in done
      invariant forall c :: NTBASE <= c < NTBASE + i ==> c in done
    {
      chk := WalkChain(x, g, chk, done, NTBASE + i);
      done := done + {NTBASE + i};
    }
    forall c, j | IsSymbol(g, c) && OnChain(g, c, j) ensures 0 < j < |chk| && chk[j] == Code(c) {
      assert ChainEntryOk(x, g, c, j);
      assert c in done;
    }
  }
}
