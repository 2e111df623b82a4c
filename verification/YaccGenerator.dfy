/**
 `stagen`: the main loop that makes the states, with `state` and the rows of nonterminal gotos.
 */
module YaccGenerator {
  import opened YaccClosure
  import opened YaccLr
  import opened YaccSizes
  import opened YaccStates
  import opened YaccTurns

  class Generator {
    const x: Ctx
    var states: seq<seq<Item>>
    var tystate: seq<int>
    var tstates: seq<int>
    var ntstates: seq<int>
    var mstates: seq<int>
    var indgo: seq<int>
    const amem: array<int>
    ghost var seen: set<int>    // the states that have been closed at least once

    function Now(): Gen
      reads this
    {
      Gen(states, tystate, tstates, ntstates, mstates)
    }

    /** What holds between two states being done, and, but for state `i`, while state `i` is. */
    ghost predicate ValidBut(i: int)
      reads this, amem
    {
      && GenOk(x, Now())
      && TableOf(x, Now(), amem[..], indgo, seen)
      && (forall j :: 0 <= j < |states| && tystate[j] != MUSTDO ==> j in seen || j == i)
      && (forall j {:trigger Finished(x, Now(), amem[..], indgo, j)} :: j in seen ==> Finished(x, Now(), amem[..], indgo, j))
    }

    ghost predicate Valid()
      reads this, amem
    {
      ValidBut(-1)
    }

    /** The first part of `stagen`: the start state. */
    constructor (x: Ctx)
      requires CtxOk(x) && IsItem(x, START) && x.ntokens < NTBASE && |x.starts| >= 1
      ensures Valid() && this.x == x && fresh(amem)
      ensures Now() == Start(x)
    {
      this.x := x;
      states := [[Item(START, {})]];
      tystate := [MUSTDO];
      tstates := seq(x.ntokens + 1, _ => 0);
      ntstates := seq(|x.starts|, _ => 0);
      mstates := [0];
      indgo := seq(NSTATES, _ => 0);
      amem := new int[ACTSIZE](_ => 0);
      seen := {};
      new;
      assert Now() == Start(x);
      StartGood(x);
      assert StateOk(x, Now(), 0);
      forall c, j | IsSymbol(Now(), c) ensures ChainEntryOk(x, Now(), c, j) {
        assert Head(Now(), c) == 0;
      }
    }

    static lemma StartGood(x: Ctx)
      requires CtxOk(x) && IsItem(x, START)
      ensures KernelGood(x, [Item(START, {})]) && Sorted([Item(START, {})])
    {
      var ker := [Item(START, {})];
      assert KerSet(ker) == {START} by {
        assert ker[0].pitem == START;
      }
      assert PathOk([]) && After(x, []) == KerSet(ker);
    }

    /** `state` with lookaheads on: the number of the state with the items of `cand`, registered or merged.
        `ok` is false when there are too many states. */
    method State(c: int, cand: seq<Item>, ghost i: int) returns (ok: bool, r: int)
      requires ValidBut(i) && IsSymbol(Now(), c) && c > 1
      requires KernelGood(x, cand) && Over(x, cand, c)
      modifies this`states, this`tystate, this`tstates, this`ntstates, this`mstates
      ensures ok ==> GenOk(x, Now()) && Extends(old(Now()), Now()) && Closer(x, old(Now()), Now())
      ensures ok ==> r != 0 && IsState(Now(), r, KerSet(cand)) && Took(old(Now()), Now(), r, cand)
      ensures ok ==> forall j :: 0 <= j < |states| && tystate[j] != MUSTDO ==> j < old(|states|) && tystate[j] == old(tystate[j])
      ensures !ok ==> Crowded(x)
    {
      ghost var g := Now();
      var ker := SortKernel(cand);
      SortedGood(x, cand, ker);
      r := Lookup(x, Now(), c, ker);
      if r != 0 {
        MergeKeeps(x, g, r, ker);
        MergeTook(g, r, ker, cand);
        MergeSlack(x, states, r, ker);
        MergeIn(r, ker);
        SameItemsSameSet(states[r], ker);
        return true, r;
      }
      forall j | OnChain(g, c, j) ensures 0 <= j < |g.states| && !SameItems(g.states[j], ker) {
        assert OnChain(Now(), c, j);
      }
      if |states| + 1 >= NSTATES {
        FullIsCrowded(x, g, c, ker);
        return false, 0;
      }
      AddKeeps(x, g, c, ker);
      AddTook(g, c, ker, cand);
      r := |states|;
      if c >= NTBASE {
        mstates := mstates + [ntstates[c - NTBASE]];
        ntstates := ntstates[c - NTBASE := r];
      } else {
        mstates := mstates + [tstates[c]];
        tstates := tstates[c := r];
      }
      states := states + [ker];
      tystate := tystate + [MUSTDO];
      assert Now() == Add(g, c, ker);
      return true, r;
    }

    /** Join lookaheads into state `r`, item by item; a state that gains any must be done again. */
    method MergeIn(r: int, ker: seq<Item>)
      requires 0 <= r < |states| == |tystate| && SameItems(states[r], ker)
      modifies this`states, this`tystate
      ensures Now() == Merge(old(Now()), r, ker)
    {
      ghost var k0, t0 := states[r], tystate;
      for k := 0 to |ker|
        invariant |states| == |old(states)| && states == old(states)[r := states[r]]
        invariant |states[r]| == |ker|
        invariant forall l :: 0 <= l < |ker| ==> states[r][l] == if l < k then Item(k0[l].pitem, k0[l].look + ker[l].look) else k0[l]
        invariant tystate == if states[r] == k0 then t0 else t0[r := MUSTDO]
      {
        var clset := states[r][k].look + ker[k].look;
        if clset != states[r][k].look {
          tystate := tystate[r := MUSTDO];
          states := states[r := states[r][k := Item(states[r][k].pitem, clset)]];
          assert states[r][k] != k0[k];
        }
      }
      assert states[r] == Merged(k0, ker);
    }
  
    /** All that `stagen` knows while it makes the gotos of state `i`, whose kernel was `ker` when it was closed. */
    ghost predicate Doing(i: int, ker: seq<Item>, done: set<int>, temp1: seq<int>)
      reads this, amem
    {
      && ValidBut(i) && 0 <= i < |states| && KernelGood(x, ker) && KerSet(states[i]) == KerSet(ker)
      && GotosSoFar(x, Now(), KerSet(ker), done, temp1)
    }

    /** Do the goto over `c`, first seen at entry `p` of the closed working set. */
    method DoSymbol(i: nat, ghost ker: seq<Item>, w: seq<Wset>, p: nat, c: int, temp1: seq<int>, ghost done: set<int>, ghost g0: Gen, ghost w0: seq<Wset>)
      returns (ok: bool, w1: seq<Wset>, temp2: seq<int>)
      requires Doing(i, ker, done, temp1) && p < |w0| && c > 1 && c !in done
      requires ClosedSet(x, ker, w0) && GenOk(x, g0) && Turning(x, g0, Now(), i, ker, w0, done, p)
      requires done == SymsBefore(x, w0, p) && w == Flagged(x, w0, p, done) && x.mem[w0[p].pitem] == c
      modifies this`states, this`tystate, this`tstates, this`ntstates, this`mstates
      ensures ok ==> Doing(i, ker, done + {c}, temp2) && w1 == Flagged(x, w0, p + 1, done + {c})
      ensures ok ==> Turning(x, g0, Now(), i, ker, w0, done + {c}, p + 1)
      ensures !ok ==> Crowded(x)
      ensures ok ==> Extends(old(Now()), Now()) && Closer(x, old(Now()), Now())
    {
      ghost var g := Now();
      assert CellOk(x, c);
      FlagsOnly(x, w0, p, done);
      ClosedSetOn(x, ker, w0, w);
      FirstHere(x, w0, p, c);
      MarkIsFlagged(x, w0, p, done, c);
      var cand: seq<Item>;
      cand, w1 := Collect(x, w, p, c);
      GotoKernelGood(x, ker, w, c, cand);
      var r: int;
      ok, r := Hand(c, cand, i);
      if !ok {
        temp2 := temp1;
        return;
      }
      temp2 := if c >= NTBASE then temp1[c - NTBASE := r] else temp1;
      SameItemsSameSet(g.states[i], states[i]);
      GotosSoFarOn(x, g, Now(), KerSet(ker), done, temp1);
      GotoAdded(x, Now(), KerSet(ker), done, temp1, c, r);
      TurnsOn(x, g0, g, Now(), i, ker, w, w0, done, p, c, cand, r);
    }

    /** Hand a kernel to `state` in the middle of the turn of state `i`. */
    method Hand(c: int, cand: seq<Item>, ghost i: int) returns (ok: bool, r: int)
      requires ValidBut(i) && IsSymbol(Now(), c) && c > 1
      requires KernelGood(x, cand) && Over(x, cand, c)
      modifies this`states, this`tystate, this`tstates, this`ntstates, this`mstates
      ensures ok ==> ValidBut(i) && Extends(old(Now()), Now()) && Closer(x, old(Now()), Now())
      ensures ok ==> r != 0 && IsState(Now(), r, KerSet(cand)) && Took(old(Now()), Now(), r, cand)
      ensures !ok ==> Crowded(x)
    {
      ghost var g := Now();
      ok, r := State(c, cand, i);
      if ok {
        TableOn(x, g, Now(), amem[..], indgo, seen);
        forall j | j in seen ensures Finished(x, Now(), amem[..], indgo, j) {
          FinishedOn(x, g, Now(), amem[..], amem[..], indgo, indgo, j);
        }
      }
    }

    lemma ExtendsTrans(f: Gen, g: Gen, h: Gen)
      requires Extends(f, g) && Extends(g, h)
      ensures Extends(f, h)
    {
    }

    static lemma {:induction false} GotoAdded(x: Ctx, g: Gen, k: set<int>, done: set<int>, temp1: seq<int>, c: int, r: int)
      requires CtxOk(x) && GotosSoFar(x, g, k, done, temp1) && IsState(g, r, Goto0(x, k, c)) && r != 0
      requires c >= NTBASE ==> c - NTBASE < |x.starts|
      ensures GotosSoFar(x, g, k, done + {c}, if c >= NTBASE then temp1[c - NTBASE := r] else temp1)
    {
      var temp2 := if c >= NTBASE then temp1[c - NTBASE := r] else temp1;
      forall d | d in done + {c} ensures HasState(g, Goto0(x, k, d)) {
        if d == c {
          assert IsState(g, r, Goto0(x, k, d));
        }
      }
      forall d | 0 <= d < |temp2| && NTBASE + d in done + {c} ensures temp2[d] != 0 && IsState(g, temp2[d], NtGoto(x, k, d)) {
        if NTBASE + d == c {
          assert NtGoto(x, k, d) == Goto0(x, k, c);
        }
      }
    }

    /** The loop of `stagen` over the closed working set of state `i`: a goto for every symbol. */
    method DoGotos(i: nat, ker: seq<Item>, w0: seq<Wset>) returns (ok: bool, temp1: seq<int>, ghost done: set<int>)
      requires ValidBut(i) && i < |states| && KernelGood(x, ker) && states[i] == ker && tystate[i] == DONE
      requires ClosedSet(x, ker, w0) && forall v :: 0 <= v < |w0| ==> !w0[v].flag
      modifies this`states, this`tystate, this`tstates, this`ntstates, this`mstates
      ensures ok ==> Doing(i, ker, done, temp1) && Turning(x, old(Now()), Now(), i, ker, w0, done, |w0|)
      ensures ok ==> Extends(old(Now()), Now()) && Closer(x, old(Now()), Now())
      ensures ok ==> forall v :: 0 <= v < |w0| && x.mem[w0[v].pitem] > 1 ==> x.mem[w0[v].pitem] in done
      ensures !ok ==> Crowded(x)
    {
      ghost var g := Now();
      var w := w0;
      temp1 := seq(|x.starts|, _ => 0);
      done := {};
      assert forall j :: 0 <= j < |states| ==> SameItems(g.states[j], states[j]);
      MidwayStart(x, g, i, w0);
      for p := 0 to |w0|
        invariant done == SymsBefore(x, w0, p) && w == Flagged(x, w0, p, done)
        invariant Doing(i, ker, done, temp1) && Turning(x, g, Now(), i, ker, w0, done, p)
        invariant Closer(x, g, Now())
      {
        ghost var h := Now();
        ok, w, temp1, done := DoEntry(i, ker, w, p, temp1, done, g, w0);
        if !ok {
          return;
        }
        CloserTrans(g, h, Now());
      }
      ok := true;
    }

    /** Entry `p` of the closed working set: skip it, note a reduction, or make the goto over its symbol. */
    method DoEntry(i: nat, ker: seq<Item>, w: seq<Wset>, p: nat, temp1: seq<int>, ghost done: set<int>, ghost g0: Gen, ghost w0: seq<Wset>)
      returns (ok: bool, w1: seq<Wset>, temp2: seq<int>, ghost done1: set<int>)
      requires Doing(i, ker, done, temp1) && p < |w0|
      requires ClosedSet(x, ker, w0) && GenOk(x, g0) && Turning(x, g0, Now(), i, ker, w0, done, p)
      requires done == SymsBefore(x, w0, p) && w == Flagged(x, w0, p, done)
      modifies this`states, this`tystate, this`tstates, this`ntstates, this`mstates
      ensures ok ==> Doing(i, ker, done1, temp2) && Turning(x, g0, Now(), i, ker, w0, done1, p + 1)
      ensures ok ==> done1 == SymsBefore(x, w0, p + 1) && w1 == Flagged(x, w0, p + 1, done1)
      ensures ok ==> Extends(old(Now()), Now()) && Closer(x, old(Now()), Now())
      ensures !ok ==> Crowded(x)
    {
      ok, w1, temp2, done1 := true, w, temp1, done;
      SymsStep(x, w0, p, p + 1);
      var c := x.mem[w[p].pitem];
      if w[p].flag {
        FlaggedStep(x, w0, p, done);
        FlaggedIsOld(x, g0, Now(), i, ker, w0, done, p);
        ExtendsRefl(Now());
      } else if c <= 1 {
        w1 := w[p := w[p].(flag := true)];
        FlaggedStep(x, w0, p, done);
        Reduction(i, ker, p, temp1, done, g0, w0);
      } else {
        done1 := done + {c};
        ok, w1, temp2 := DoSymbol(i, ker, w, p, c, temp1, done, g0, w0);
      }
    }

    /** An entry with nothing more to read: a reduction. */
    method Reduction(i: nat, ker: seq<Item>, p: nat, temp1: seq<int>, ghost done: set<int>, ghost g0: Gen, ghost w0: seq<Wset>)
      requires Doing(i, ker, done, temp1) && Turning(x, g0, Now(), i, ker, w0, done, p)
      requires p < |w0| && IsItem(x, w0[p].pitem) && x.mem[w0[p].pitem] <= 1
      modifies this`tystate
      ensures Doing(i, ker, done, temp1) && Extends(old(Now()), Now()) && Closer(x, old(Now()), Now())
      ensures Turning(x, g0, Now(), i, ker, w0, done, p + 1)
    {
      ghost var h := Now();
      if |ker| <= p {
        NeedsLookahead(i, ker, done, temp1);
        MidwayReduce(x, g0, h, Now(), i, ker, w0, done, p, p + 1);
        ExtendsTrans(g0, h, Now());
      } else {
        ExtendsRefl(Now());
        MidwaySkip(x, g0, Now(), i, ker, w0, done, p, p + 1);
      }
    }

    lemma ExtendsRefl(g: Gen)
      ensures Extends(g, g) && Closer(x, g, g)
    {
    }

    /** A reduction by an item outside the kernel: this state's second closure needs lookaheads. */
    method NeedsLookahead(i: nat, ghost ker: seq<Item>, ghost done: set<int>, temp1: seq<int>)
      requires Doing(i, ker, done, temp1)
      modifies this`tystate
      ensures Doing(i, ker, done, temp1)
      ensures Extends(old(Now()), Now()) && Closer(x, old(Now()), Now())
      ensures Now() == old(Now()).(tystate := old(tystate)[i := MUSTLOOKAHEAD])
    {
      ghost var h := Now();
      CountMustdoDrops(tystate, i, MUSTLOOKAHEAD);
      Retype(x, h, i, MUSTLOOKAHEAD);
      tystate := tystate[i := MUSTLOOKAHEAD];
      assert Now() == h.(tystate := h.tystate[i := MUSTLOOKAHEAD]);
      SameStates(h, Now(), ker, done, temp1);
    }

    lemma CloserTrans(f: Gen, g: Gen, h: Gen)
      requires Extends(f, g) && Closer(x, f, g) && Extends(g, h) && Closer(x, g, h)
      ensures Extends(f, h) && Closer(x, f, h)
    {
    }

    static lemma {:induction false} Retype(x: Ctx, g: Gen, i: int, v: int)
      requires GenOk(x, g) && 0 <= i < |g.states|
      ensures GenOk(x, g.(tystate := g.tystate[i := v]))
    {
      var h := g.(tystate := g.tystate[i := v]);
      forall j | 0 <= j < |h.states| ensures StateOk(x, h, j) {
        assert StateOk(x, g, j);
        if j > 0 {
          var c :| IsSymbol(g, c) && c > 1 && Over(x, g.states[j], c) && OnChain(g, c, j);
          assert IsSymbol(h, c) && c > 1 && Over(x, h.states[j], c) && OnChain(h, c, j);
        }
      }
      forall c, j | IsSymbol(h, c) ensures ChainEntryOk(x, h, c, j) {
        assert ChainEntryOk(x, g, c, j);
        assert OnChain(h, c, j) == OnChain(g, c, j);
      }
      forall a, b | 0 <= a < b < |h.states| ensures Different(h, a, b) {
        assert Different(g, a, b);
      }
      forall c | IsSymbol(h, c) ensures 0 <= Head(h, c) < |h.states| {
        assert IsSymbol(g, c) && Head(h, c) == Head(g, c);
      }
    }

    /** What speaks only of kernels does not depend on the types of states. */
    lemma SameStates(g: Gen, h: Gen, ker: seq<Item>, done: set<int>, temp1: seq<int>)
      requires CtxOk(x) && g.states == h.states && GotosSoFar(x, g, KerSet(ker), done, temp1)
      requires TableOf(x, g, amem[..], indgo, seen)
      requires forall j {:trigger Finished(x, g, amem[..], indgo, j)} :: j in seen ==> Finished(x, g, amem[..], indgo, j)
      ensures TableOf(x, h, amem[..], indgo, seen)
      ensures GotosSoFar(x, h, KerSet(ker), done, temp1)
      ensures forall j {:trigger Finished(x, h, amem[..], indgo, j)} :: j in seen ==> Finished(x, h, amem[..], indgo, j)
    {
      assert Extends(g, h);
      GotosSoFarOn(x, g, h, KerSet(ker), done, temp1);
      TableOn(x, g, h, amem[..], indgo, seen);
      forall j | j in seen ensures Finished(x, h, amem[..], indgo, j) {
        FinishedOn(x, g, h, amem[..], amem[..], indgo, indgo, j);
      }
    }

    /** The closure of a kernel with its lookaheads. */
    method CloseKernel(ker: seq<Item>) returns (ok: bool, w: seq<Wset>)
      requires CtxOk(x) && KernelGood(x, ker)
      ensures ok ==> ClosedSet(x, ker, w) && (forall v :: 0 <= v < |w| ==> !w[v].flag) && Fits(x, KerSet(ker))
      ensures !ok ==> Unfit(x)
    {
      ok, w := Closure(x, ker, false);
      assert ker[0].pitem in KerSet(ker);
      if ok {
        ClosedIsFit(x, ker, w);
      } else {
        OverflowIsUnfit(x, ker);
      }
    }

    /** Every symbol with a goto has been done. */
    lemma {:induction false} AllDone(ker: seq<Item>, w: seq<Wset>, done: set<int>)
      requires ClosedSet(x, ker, w) && KernelOk(x, ker)
      requires forall v :: 0 <= v < |w| && x.mem[w[v].pitem] > 1 ==> x.mem[w[v].pitem] in done
      ensures forall c {:trigger Goto0(x, KerSet(ker), c)} :: c > 1 && Goto0(x, KerSet(ker), c) != {} ==> c in done
    {
      LeastItemsIsClosure0(x, ker, Items(w));
      forall c | c > 1 && Goto0(x, KerSet(ker), c) != {} ensures c in done {
        var it :| it in Goto0(x, KerSet(ker), c);
        assert it - 1 in Items(w);
        var v :| 0 <= v < |w| && w[v].pitem == it - 1;
      }
    }

    /** The last step for state `i`: its row goes into the action table. */
    method PackRow(i: nat, ghost ker: seq<Item>, temp1: seq<int>, ghost done: set<int>) returns (ok: bool)
      requires Doing(i, ker, done, temp1) && Fits(x, KerSet(ker))
      requires forall c {:trigger Goto0(x, KerSet(ker), c)} :: c > 1 && Goto0(x, KerSet(ker), c) != {} ==> c in done
      modifies this`indgo, this`seen, amem
      ensures ok ==> Valid()
      ensures !ok ==> Cramped(x, Now(), amem[..], indgo)
    {
      ghost var g, a0, i0 := Now(), amem[..], indgo;
      var off: int;
      RowOfGotos(x, g, KerSet(ker), done, temp1);
      assert GotoRowOf(x, g, KerSet(g.states[i]), temp1[1..]);
      ok, off := Apack(amem, temp1[1..]);
      if !ok {
        if i in seen {
          assert RowLaid(x, g, a0, indgo, i);
          LaidHasRoom(x, g, a0, indgo, i, temp1[1..]);
        }
        assert TableOf(x, g, amem[..], indgo, seen);
        return;
      }
      TableWith(x, g, a0, amem[..], indgo, seen, i, temp1[1..], off);
      indgo := indgo[i := off - 1];
      RowPacked(x, g, KerSet(ker), done, temp1, amem[..], off);
      forall j | j in seen + {i} ensures Finished(x, Now(), amem[..], indgo, j) {
        if j != i {
          FinishedOn(x, g, Now(), a0, amem[..], i0, indgo, j);
        }
      }
      seen := seen + {i};
    }

    /** The body of the main loop: close state `i`, make its gotos, pack its row. */
    method DoState(i: nat) returns (ok: bool, ghost w0: seq<Wset>)
      requires Valid() && i < |states| && tystate[i] == MUSTDO
      modifies this`states, this`tystate, this`tstates, this`ntstates, this`mstates, this`indgo, this`seen, amem
      ensures ok ==> Valid() && TurnBy(x, old(Now()), Now(), i, w0)
      ensures ok ==> Gained(x, old(Now()), Now()) || (Idle(x, old(Now()), Now()) && CountMustdo(tystate) < CountMustdo(old(tystate)))
      ensures !ok ==> Unfit(x) || Crowded(x) || Cramped(x, Now(), amem[..], indgo)
    {
      ghost var g := Now();
      CountMustdoDrops(tystate, i, DONE);
      Retype(x, g, i, DONE);
      tystate := tystate[i := DONE];
      assert Now() == g.(tystate := g.tystate[i := DONE]);
      var ker := states[i];
      assert StateOk(x, Now(), i);
      assert GotosSoFar(x, g, KerSet(ker), {}, seq(|x.starts|, _ => 0));
      SameStates(g, Now(), ker, {}, seq(|x.starts|, _ => 0));
      var w: seq<Wset>;
      ok, w := CloseKernel(ker);
      w0 := w;
      if !ok {
        return;
      }
      ghost var g1 := Now();
      var temp1: seq<int>;
      ghost var done: set<int>;
      ok, temp1, done := DoGotos(i, ker, w);
      if !ok {
        return;
      }
      AllDone(ker, w, done);
      GotosAreThere(Now(), KerSet(ker), done, temp1);
      WholeTurn(x, g, g1, Now(), i, w, done);
      ok := PackRow(i, ker, temp1, done);
    }

    lemma GotosAreThere(h: Gen, k: set<int>, done: set<int>, temp1: seq<int>)
      requires CtxOk(x) && GotosSoFar(x, h, k, done, temp1)
      requires forall c {:trigger Goto0(x, k, c)} :: c > 1 && Goto0(x, k, c) != {} ==> c in done
      ensures GotosRegistered(x, h, k)
    {
    }

    static lemma {:induction false} RowOfGotos(x: Ctx, g: Gen, k: set<int>, done: set<int>, temp1: seq<int>)
      requires GenOk(x, g) && GotosSoFar(x, g, k, done, temp1) && |temp1| > 0
      requires forall c {:trigger Goto0(x, k, c)} :: c > 1 && Goto0(x, k, c) != {} ==> c in done
      ensures GotoRowOf(x, g, k, temp1[1..])
    {
      var row := temp1[1..];
      forall c | 1 <= c < |x.starts|
        ensures if NtGoto(x, k, c) == {} then row[c - 1] == 0 else row[c - 1] != 0 && IsState(g, row[c - 1], NtGoto(x, k, c))
      {
        assert row[c - 1] == temp1[c];
        assert Goto0(x, k, NTBASE + c) == NtGoto(x, k, c);
        if temp1[c] != 0 {
          assert StateOk(x, g, temp1[c]);
          assert g.states[temp1[c]][0].pitem in KerSet(g.states[temp1[c]]);
        }
      }
    }

    static lemma {:induction false} RowPacked(x: Ctx, g: Gen, k: set<int>, done: set<int>, temp1: seq<int>, amem: seq<int>, off: int)
      requires CtxOk(x) && GotosSoFar(x, g, k, done, temp1) && |temp1| > 0 && RowAt(amem, off, temp1[1..])
      requires forall c {:trigger Goto0(x, k, c)} :: c > 1 && Goto0(x, k, c) != {} ==> c in done
      ensures GotosRegistered(x, g, k) && RowRight(x, g, amem, off - 1, k)
    {
      forall c | 1 <= c < |x.starts| && NtGoto(x, k, c) != {}
        ensures 0 <= off - 1 + c < |amem| && amem[off - 1 + c] != 0 && IsState(g, amem[off - 1 + c], NtGoto(x, k, c))
      {
        assert temp1[1..][c - 1] == temp1[c];
        assert Goto0(x, k, NTBASE + c) != {};
      }
    }

    /** `stagen`: do states until none must be done.  Unless a table overflows, the kernels registered
        are then exactly those that some path of symbols leads to, each once. */
    method Stagen() returns (ok: bool)
      requires Valid() && Made(x, Now())
      modifies this`states, this`tystate, this`tstates, this`ntstates, this`mstates, this`indgo, this`seen, amem
      ensures ok ==> Valid() && Complete() && !Unfit(x) && !Crowded(x)
      ensures ok ==> Made(x, Now()) && SentOn(x, Now()) && forall j :: 0 <= j < |states| ==> tystate[j] != MUSTDO
      ensures !ok ==> Unfit(x) || Crowded(x) || Cramped(x, Now(), amem[..], indgo)
    {
      var more := true;
      while more
        invariant Valid() && Made(x, Now())
        invariant !more ==> forall j :: 0 <= j < |states| ==> tystate[j] != MUSTDO
        decreases NSTATES - |states|, KernelSlack(x, states), CountMustdo(tystate), more
      {
        more := false;
        ghost var g := Now();
        var i := 0;
        while i < |states|
          invariant Valid() && Made(x, Now()) && 0 <= i <= |states|
          invariant if more then Ahead(x, g, Now()) else Now() == g && forall j :: 0 <= j < i ==> tystate[j] != MUSTDO
          decreases NSTATES - i
        {
          if tystate[i] == MUSTDO {
            ghost var h, w := Now(), [];
            ok, w := DoState(i);
            if !ok {
              return;
            }
            MadeTurn(x, h, Now(), i, w);
            more := true;
          }
          i := i + 1;
        }
      }
      forall j | 0 <= j < |states| ensures GotosRegistered(x, Now(), KerSet(states[j])) {
        assert Finished(x, Now(), amem[..], indgo, j);
      }
      forall path | PathOk(path) && After(x, path) != {} ensures HasState(Now(), After(x, path)) {
        PathRegistered(x, Now(), path);
      }
      AllPlaced();
      AllSentOn(x, Now());
      ok := true;
    }

    /** With every state done, no kernel is too large and none is without a place. */
    lemma {:induction false} AllPlaced()
      requires Valid() && Complete()
      ensures !Unfit(x) && !Crowded(x)
    {
      forall k: set<int> | Reached(x, k) && k != {} ensures Fits(x, k) {
        var path :| PathOk(path) && After(x, path) == k;
        var j :| IsState(Now(), j, k);
        assert Finished(x, Now(), amem[..], indgo, j);
      }
      forall ks: seq<set<int>> | AllReached(x, ks) ensures |ks| < NSTATES {
        NotCrowded(x, Now(), ks);
      }
    }

    /** Every state has been done, and every path that leads anywhere leads to a state. */
    ghost predicate Complete()
      requires CtxOk(x)
      reads this, amem
    {
      && (forall j :: 0 <= j < |states| ==> j in seen)
      && (forall path :: PathOk(path) && After(x, path) != {} ==> HasState(Now(), After(x, path)))
    }
  }
}
