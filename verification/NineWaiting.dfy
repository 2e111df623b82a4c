/**
 * Who waits for whom in the 9P server, and for how long: every run ends unless messages keep coming in; a
 * request stays without a reply for ever exactly when the flushes it waits for form a cycle; and a flush is answered
 * after the request it names exactly when that request was made before the flush looked it up.
 */
module NineWaiting {
  import opened Options
  import opened Sets
  import opened NineRequests
  import opened NineRuns

  // ----- every run ends -----

  /** How many steps request `r` has before it, at most; a flush on its list costs it two. */
  ghost function WeightAt(s: Server, r: nat): nat
    requires r < |s.reqs|
  {
    var q := s.reqs[r];
    match q.pc
    case Arrived => 13 + 2 * |q.flush|
    case Held => (if q.oldreq.Some? && !OldResponded(s, q) then 12 else 8) + 2 * |q.flush|
    case Queued => 9 + 2 * |q.flush|
    case Dropping => 7 + 2 * |q.flush|
    case Ready => 6 + 2 * |q.flush|
    case Locked => 5 + 2 * |q.flush|
    case Removed => 4 + 2 * |q.flush|
    case Written => 3 + 2 * |q.flush|
    case Unlocked => 2 + 2 * |q.flush|
    case Waking(i) => if i <= |q.flush| then 1 + 2 * (|q.flush| - i) else 0
    case Calling(i) => if i <= |q.flush| then 2 * (|q.flush| - i) else 0
    case Done => 0
  }

  ghost function ReqWeight(s: Server, n: nat): nat
    requires n <= |s.reqs|
  {
    if n == 0 then 0 else ReqWeight(s, n - 1) + WeightAt(s, n - 1)
  }

  ghost function HandWeight(read: seq<Message>): nat {
    if read == [] then 0 else HandWeight(read[..|read| - 1]) + if read[|read| - 1].req.None? then 14 else 0
  }

  ghost function Weight(s: Server): nat { ReqWeight(s, |s.reqs|) + HandWeight(s.read) }

  /** From `s` to `t` request `r` loses at least `d` and only request `o` gains, at most 2. */
  ghost predicate LighterAt(s: Server, t: Server, r: nat, d: nat, o: nat, x: nat)
    requires x < |s.reqs| <= |t.reqs|
  {
    WeightAt(t, x) + (if x == r then d else 0) <= WeightAt(s, x) + if x == o then 2 else 0
  }

  lemma {:induction false} LighterSum(s: Server, t: Server, r: nat, d: nat, o: nat, n: nat)
    requires n <= |s.reqs| <= |t.reqs|
    requires forall x: nat {:trigger LighterAt(s, t, r, d, o, x)} :: x < |s.reqs| ==> LighterAt(s, t, r, d, o, x)
    ensures ReqWeight(t, n) + (if r < n then d else 0) <= ReqWeight(s, n) + if o < n then 2 else 0
  {
    if n > 0 {
      LighterSum(s, t, r, d, o, n - 1);
      assert LighterAt(s, t, r, d, o, n - 1);
    }
  }

  lemma {:induction false} HandWeightUpdate(read: seq<Message>, m: nat, q: Message)
    requires m < |read| && read[m].req.None? && q.req.Some?
    ensures HandWeight(read[m := q]) == HandWeight(read) - 14
  {
    var n := |read| - 1;
    var u := read[m := q];
    if m < n {
      assert u[..n] == read[..n][m := q];
      HandWeightUpdate(read[..n], m, q);
    } else {
      assert u[..n] == read[..n];
    }
  }

  /** The handler answers a flush too early: it has to queue up. */
  ghost predicate Queueing(s: Server, step: Step)
    requires Enabled(s, step)
  {
    step.Respond? && s.reqs[step.r].oldreq.Some? && !OldResponded(s, s.reqs[step.r])
  }

  ghost function Loss(s: Server, step: Step): nat
    requires Enabled(s, step)
  {
    if Queueing(s, step) then 3 else 1
  }

  ghost function Gainer(s: Server, step: Step): nat
    requires Enabled(s, step)
  {
    if Queueing(s, step) then s.reqs[step.r].oldreq.value else |s.reqs|
  }

  /** Whoever has responded has responded for good. */
  ghost predicate StillResponded(s: Server, t: Server) {
    |s.reqs| <= |t.reqs| && forall x: nat {:trigger t.reqs[x].responded} :: x < |s.reqs| && s.reqs[x].responded ==> t.reqs[x].responded
  }

  lemma {:induction false} StepStillResponded(s: Server, step: Step)
    requires Shape(s) && Enabled(s, step)
    ensures StillResponded(s, Apply(s, step))
  {
    var t := Apply(s, step);
    StepKeepsShape(s, step);
    forall x: nat | x < |s.reqs| && s.reqs[x].responded ensures t.reqs[x].responded {
      assert ReqOk(s, x) && ReqOk(t, x);
      StepGoes(s, step, x);
    }
  }

  lemma {:induction false} SameIsLighter(s: Server, t: Server, x: nat)
    requires x < |s.reqs| && StillResponded(s, t)
    requires t.reqs[x] == s.reqs[x].(ref := t.reqs[x].ref, freed := t.reqs[x].freed)
    ensures WeightAt(t, x) <= WeightAt(s, x)
  {
  }

  /** The steps of one request change no other, but for its reference count. */
  lemma {:induction false} PlainLighter(s: Server, step: Step, x: nat)
    requires Shape(s) && Enabled(s, step) && StillResponded(s, Apply(s, step)) && x < |s.reqs|
    requires step.Lock? || step.Write? || step.Unlock? || step.Mark? || step.Return? || step.Finish?
    ensures LighterAt(s, Apply(s, step), step.r, 1, |s.reqs|, x)
  {
    assert ReqOk(s, step.r);
    if x != step.r {
      SameIsLighter(s, Apply(s, step), x);
    }
  }

  lemma {:induction false} RemoveLighter(s: Server, r: nat, x: nat)
    requires Shape(s) && Enabled(s, Remove(r)) && StillResponded(s, Apply(s, Remove(r))) && x < |s.reqs|
    ensures LighterAt(s, Apply(s, Remove(r)), r, 1, |s.reqs|, x)
  {
    assert ReqOk(s, r) && TagOk(s, s.reqs[r].tag);
    if x != r {
      SameIsLighter(s, Apply(s, Remove(r)), x);
    }
  }

  lemma {:induction false} DispatchLighter(s: Server, r: nat, x: nat)
    requires Shape(s) && Enabled(s, Dispatch(r)) && StillResponded(s, Apply(s, Dispatch(r))) && x < |s.reqs|
    ensures LighterAt(s, Apply(s, Dispatch(r)), r, 1, |s.reqs|, x)
  {
    assert ReqOk(s, r);
    if s.reqs[r].kind.Flush? {
      assert TagOk(s, s.reqs[r].kind.oldtag);
    }
    if x != r {
      SameIsLighter(s, Apply(s, Dispatch(r)), x);
    }
  }

  lemma {:induction false} DropLighter(s: Server, r: nat, x: nat)
    requires Shape(s) && Enabled(s, Drop(r)) && StillResponded(s, Apply(s, Drop(r))) && x < |s.reqs|
    ensures LighterAt(s, Apply(s, Drop(r)), r, 1, |s.reqs|, x)
  {
    assert ReqOk(s, r);
    if x != r {
      SameIsLighter(s, Apply(s, Drop(r)), x);
    }
  }

  lemma {:induction false} WakeLighter(s: Server, r: nat, x: nat)
    requires Shape(s) && Enabled(s, Wake(r)) && StillResponded(s, Apply(s, Wake(r))) && x < |s.reqs|
    ensures LighterAt(s, Apply(s, Wake(r)), r, 1, |s.reqs|, x)
  {
    var f := s.reqs[r].flush[s.reqs[r].pc.next];
    assert ReqOk(s, r) && FlushOk(s, r, s.reqs[r].pc.next) && ReqOk(s, f);
    if x != r && x != f {
      SameIsLighter(s, Apply(s, Wake(r)), x);
    }
  }

  lemma {:induction false} RespondLighter(s: Server, r: nat, x: nat)
    requires Shape(s) && Enabled(s, Respond(r)) && StillResponded(s, Apply(s, Respond(r))) && x < |s.reqs|
    ensures LighterAt(s, Apply(s, Respond(r)), r, Loss(s, Respond(r)), Gainer(s, Respond(r)), x)
  {
    var t := Apply(s, Respond(r));
    assert ReqOk(s, r);
    if x != r && Gainer(s, Respond(r)) != x {
      SameIsLighter(s, t, x);
    } else if x != r {
      assert ReqOk(s, x);
      QueuedOnLighter(s, t, x);
    }
  }

  lemma {:induction false} QueuedOnLighter(s: Server, t: Server, x: nat)
    requires x < |s.reqs| && StillResponded(s, t) && !Awake(s.reqs[x].pc)
    requires t.reqs[x] == s.reqs[x].(flush := t.reqs[x].flush) && |t.reqs[x].flush| == |s.reqs[x].flush| + 1
    ensures WeightAt(t, x) <= WeightAt(s, x) + 2
  {
  }

  lemma {:induction false} StepLighter(s: Server, step: Step, x: nat)
    requires Shape(s) && Enabled(s, step) && Works(step) && x < |s.reqs|
    ensures LighterAt(s, Apply(s, step), step.r, Loss(s, step), Gainer(s, step), x)
  {
    StepStillResponded(s, step);
    match step {
      case Dispatch(r) => DispatchLighter(s, r, x);
      case Respond(r) => RespondLighter(s, r, x);
      case Drop(r) => DropLighter(s, r, x);
      case Remove(r) => RemoveLighter(s, r, x);
      case Wake(r) => WakeLighter(s, r, x);
      case _ => PlainLighter(s, step, x);
    }
  }

  /** Every step but the reading of a message brings the end nearer. */
  lemma {:induction false} StepCounts(s: Server, step: Step)
    requires Shape(s) && Enabled(s, step)
    ensures if step.Read? then Weight(Apply(s, step)) == Weight(s) + 14 else Weight(Apply(s, step)) < Weight(s)
  {
    var t := Apply(s, step);
    if step.Read? {
      assert t.read[..|s.read|] == s.read;
      SameWeights(s, t, |s.reqs|);
    } else if step.Arrive? {
      StepStillResponded(s, step);
      HandWeightUpdate(s.read, step.m, t.read[step.m]);
      forall x: nat | x < |s.reqs| ensures LighterAt(s, t, |s.reqs|, 0, |s.reqs|, x) {
        SameIsLighter(s, t, x);
      }
      LighterSum(s, t, |s.reqs|, 0, |s.reqs|, |s.reqs|);
    } else {
      forall x: nat | x < |s.reqs| ensures LighterAt(s, t, step.r, Loss(s, step), Gainer(s, step), x) {
        StepLighter(s, step, x);
      }
      LighterSum(s, t, step.r, Loss(s, step), Gainer(s, step), |s.reqs|);
    }
  }

  lemma {:induction false} SameWeights(s: Server, t: Server, n: nat)
    requires t.reqs == s.reqs && n <= |s.reqs|
    ensures ReqWeight(t, n) == ReqWeight(s, n)
  {
    if n > 0 {
      SameWeights(s, t, n - 1);
    }
  }

  /** How many messages a run reads. */
  ghost function Reads(steps: seq<Step>): nat {
    if steps == [] then 0 else (if steps[0].Read? then 1 else 0) + Reads(steps[1..])
  }

  lemma {:induction false} RunCounts(s: Server, steps: seq<Step>)
    requires Inv(s) && Exec(s, steps).Some?
    ensures |steps| + Weight(Exec(s, steps).value) <= Weight(s) + 15 * Reads(steps)
    decreases |steps|
  {
    if steps != [] {
      StepInv(s, steps[0]);
      StepCounts(s, steps[0]);
      RunCounts(Apply(s, steps[0]), steps[1..]);
    }
  }

  /** No run takes more than 15 steps for each message it reads: the server and its handlers always come to an end
      with what they have read. */
  lemma {:induction false} RunLength(steps: seq<Step>, s: Server)
    requires Reached(steps, s)
    ensures |steps| <= 15 * Reads(steps)
  {
    InitInv();
    RunCounts(Init(), steps);
  }

  // ----- chains of flushes -----

  /** The request that `r` waits for: a flush waits for the one it names, from the moment it is made. */
  ghost function Next(s: Server, r: nat): Option<nat>
    requires r < |s.reqs|
  {
    var q := s.reqs[r];
    if q.oldreq.Some? && !OldResponded(s, q) then q.oldreq
    else if q.pc.Arrived? && q.kind.Flush? && q.kind.oldtag in s.pool then Some(s.pool[q.kind.oldtag])
    else None
  }

  ghost predicate LinkAt(s: Server, path: seq<nat>, i: nat)
    requires i < |path|
  {
    path[i] < |s.reqs| && (i < |path| - 1 ==> Next(s, path[i]) == Some(path[i + 1]))
  }

  /** Each waits for the one after it. */
  ghost predicate Chain(s: Server, path: seq<nat>) {
    path != [] && forall i: nat {:trigger LinkAt(s, path, i)} :: i < |path| ==> LinkAt(s, path, i)
  }

  lemma {:induction false} ChainAppend(s: Server, path: seq<nat>, y: nat)
    requires Chain(s, path) && y < |s.reqs| && LinkAt(s, path, |path| - 1) && Next(s, path[|path| - 1]) == Some(y)
    ensures Chain(s, path + [y])
  {
    forall i: nat | i < |path + [y]| ensures LinkAt(s, path + [y], i) {
      if i < |path| {
        assert LinkAt(s, path, i);
      }
    }
  }

  ghost predicate ComesBack(s: Server, r: nat, path: seq<nat>, i: nat) {
    Chain(s, path) && path[0] == r && i < |path| && LinkAt(s, path, |path| - 1) && Next(s, path[|path| - 1]) == Some(path[i])
  }

  /** The chain of requests that `r` waits for enters a cycle. */
  ghost predicate Cyclic(s: Server, r: nat) { exists path: seq<nat>, i: nat :: ComesBack(s, r, path, i) }

  /** The requests in `k` wait for one another and for nobody else. */
  ghost predicate Knot(s: Server, k: set<nat>) {
    forall x: nat {:trigger x in k} :: x in k ==> x < |s.reqs| && Next(s, x).Some? && Next(s, x).value in k
  }

  lemma {:induction false} CycleIsKnot(s: Server, r: nat) returns (k: set<nat>)
    requires Cyclic(s, r)
    ensures r in k && Knot(s, k)
  {
    var path, i :| ComesBack(s, r, path, i);
    k := set j | 0 <= j < |path| :: path[j];
    assert path[0] in k;
    forall x: nat | x in k ensures x < |s.reqs| && Next(s, x).Some? && Next(s, x).value in k {
      var j: nat :| j < |path| && path[j] == x;
      assert LinkAt(s, path, j);
      if j < |path| - 1 {
        assert path[j + 1] in k;
      } else {
        assert path[i] in k;
      }
    }
  }

  lemma {:induction false} KnotIsCycle(s: Server, r: nat, k: set<nat>)
    requires r in k && Knot(s, k)
    ensures Cyclic(s, r)
  {
    assert forall i: nat :: i < |[r]| ==> LinkAt(s, [r], i);
    Walk(s, r, k, [r], {r});
  }

  /** Follow the chain until it comes back. */
  lemma {:induction false} Walk(s: Server, r: nat, k: set<nat>, path: seq<nat>, seen: set<nat>)
    requires Knot(s, k) && Chain(s, path) && path[0] == r && path[|path| - 1] in k && forall x :: x in seen <==> x in path
    ensures Cyclic(s, r)
    decreases |k - seen|
  {
    assert LinkAt(s, path, |path| - 1);
    var y := Next(s, path[|path| - 1]).value;
    if y in seen {
      var i: nat :| i < |path| && path[i] == y;
      assert ComesBack(s, r, path, i);
    } else {
      ChainAppend(s, path, y);
      SmallerSet(k - (seen + {y}), k - seen, y);
      Walk(s, r, k, path + [y], seen + {y});
    }
  }

  // ----- a cycle stays, and only a new request can close one -----

  predicate Waiting(pc: Pc) { pc.Arrived? || pc.Held? || pc.Queued? }

  lemma {:induction false} NextWaits(s: Server, x: nat)
    requires Shape(s) && x < |s.reqs| && Next(s, x).Some?
    ensures Waiting(s.reqs[x].pc) && Next(s, x).value < |s.reqs| && !s.reqs[Next(s, x).value].responded && !s.reqs[x].fake
  {
    assert ReqOk(s, x);
    if s.reqs[x].pc.Arrived? && s.reqs[x].kind.Flush? {
      assert TagOk(s, s.reqs[x].kind.oldtag);
      if s.reqs[x].kind.oldtag in s.pool {
        assert ReqOk(s, s.pool[s.reqs[x].kind.oldtag]);
      }
    }
  }

  /** Whoever waits for somebody that goes on waiting waits on. */
  lemma {:induction false} StepWaits(s: Server, step: Step, x: nat)
    requires Shape(s) && Enabled(s, step) && x < |s.reqs| && Next(s, x).Some?
    ensures Waiting(Apply(s, step).reqs[x].pc)
  {
    NextWaits(s, x);
    StepGoes(s, step, x);
  }

  lemma {:induction false} StepKeepsNext(s: Server, step: Step, x: nat)
    requires Shape(s) && Enabled(s, step) && x < |s.reqs| && Next(s, x).Some?
    requires Next(s, x).value < |s.reqs| && Waiting(Apply(s, step).reqs[Next(s, x).value].pc)
    ensures Next(Apply(s, step), x) == Next(s, x)
  {
    var t, y := Apply(s, step), Next(s, x).value;
    StepKeepsShape(s, step);
    NextWaits(s, x);
    StepGoes(s, step, x);
    StepGoes(s, step, y);
    assert ReqOk(s, x) && ReqOk(t, x) && ReqOk(t, y) && ReqOk(s, y);
    if s.reqs[x].pc.Arrived? {
      assert TagOk(s, s.reqs[x].kind.oldtag);
    }
  }

  lemma {:induction false} StepKeepsKnot(s: Server, step: Step, k: set<nat>)
    requires Shape(s) && Enabled(s, step) && Knot(s, k)
    ensures Knot(Apply(s, step), k)
  {
    forall x: nat | x in k ensures Next(Apply(s, step), x) == Next(s, x) {
      StepWaits(s, step, Next(s, x).value);
      StepKeepsNext(s, step, x);
    }
  }

  lemma {:induction false} RunKeepsKnot(s: Server, steps: seq<Step>, k: set<nat>)
    requires Inv(s) && Knot(s, k) && Exec(s, steps).Some?
    ensures Knot(Exec(s, steps).value, k)
    decreases |steps|
  {
    if steps != [] {
      StepInv(s, steps[0]);
      StepKeepsKnot(s, steps[0], k);
      RunKeepsKnot(Apply(s, steps[0]), steps[1..], k);
    }
  }

  lemma {:induction false} ArrivedAtDispatch(s: Server, r: nat, x: nat)
    requires Shape(s) && Enabled(s, Dispatch(r)) && x < |s.reqs| && s.reqs[x].pc.Arrived?
    ensures r != x ==> Apply(s, Dispatch(r)).reqs[x].pc.Arrived? && Apply(s, Dispatch(r)).reqs[x].oldreq == s.reqs[x].oldreq
    ensures r == x && s.reqs[x].kind.Flush? && s.reqs[x].kind.oldtag !in s.pool ==> Apply(s, Dispatch(r)).reqs[x].oldreq.None?
  {
    assert ReqOk(s, x);
    if s.reqs[r].kind.Flush? {
      assert TagOk(s, s.reqs[r].kind.oldtag);
    }
  }

  lemma {:induction false} ArrivedAtOther(s: Server, step: Step, x: nat)
    requires Shape(s) && Enabled(s, step) && !step.Dispatch? && x < |s.reqs| && s.reqs[x].pc.Arrived?
    ensures Apply(s, step).reqs[x].pc.Arrived? && Apply(s, step).reqs[x].oldreq == s.reqs[x].oldreq
  {
    if step.Wake? {
      assert FlushOk(s, step.r, s.reqs[step.r].pc.next);
    } else if step.Remove? {
      assert TagOk(s, s.reqs[step.r].tag);
    } else if step.Respond? || step.Drop? {
      assert ReqOk(s, step.r);
    }
  }

  /** A flush that has not looked up stays as it is, but for its own lookup. */
  lemma {:induction false} ArrivedStays(s: Server, step: Step, x: nat)
    requires Shape(s) && Enabled(s, step) && x < |s.reqs| && s.reqs[x].pc.Arrived?
    ensures step != Dispatch(x) ==> Apply(s, step).reqs[x].pc.Arrived? && Apply(s, step).reqs[x].oldreq == s.reqs[x].oldreq
    ensures step == Dispatch(x) && s.reqs[x].kind.Flush? && s.reqs[x].kind.oldtag !in s.pool ==> Apply(s, step).reqs[x].oldreq.None?
  {
    if step.Dispatch? {
      ArrivedAtDispatch(s, step.r, x);
    } else {
      ArrivedAtOther(s, step, x);
    }
  }

  /** Without a new request the tag map only loses entries. */
  lemma {:induction false} PoolShrinks(s: Server, step: Step, tag: nat)
    requires Shape(s) && Enabled(s, step) && !step.Arrive? && tag in Apply(s, step).pool
    ensures tag in s.pool && s.pool[tag] == Apply(s, step).pool[tag]
  {
    if step.Remove? {
      assert TagOk(s, s.reqs[step.r].tag);
    } else if step.Dispatch? && s.reqs[step.r].kind.Flush? {
      assert TagOk(s, s.reqs[step.r].kind.oldtag);
    } else if step.Wake? {
      assert FlushOk(s, step.r, s.reqs[step.r].pc.next);
    } else if step.Respond? || step.Drop? {
      assert ReqOk(s, step.r);
    }
  }

  lemma {:induction false} NoNewNext(s: Server, step: Step, x: nat)
    requires Shape(s) && Enabled(s, step) && !step.Arrive? && x < |s.reqs| && Next(Apply(s, step), x).Some?
    ensures Next(s, x) == Next(Apply(s, step), x)
  {
    var t := Apply(s, step);
    StepKeepsShape(s, step);
    StepStillResponded(s, step);
    StepGoes(s, step, x);
    NextWaits(t, x);
    assert ReqOk(s, x) && ReqOk(t, x);
    if s.reqs[x].pc.Arrived? {
      ArrivedStays(s, step, x);
      if t.reqs[x].pc.Arrived? {
        PoolShrinks(s, step, s.reqs[x].kind.oldtag);
      }
    }
  }

  lemma {:induction false} NoNewCycle(s: Server, step: Step, r: nat)
    requires Shape(s) && Enabled(s, step) && !step.Arrive? && Cyclic(Apply(s, step), r)
    ensures Cyclic(s, r)
  {
    var t := Apply(s, step);
    var k := CycleIsKnot(t, r);
    forall x: nat | x in k ensures x < |s.reqs| && Next(s, x) == Next(t, x) {
      NoNewNext(s, step, x);
    }
    KnotIsCycle(s, r, k);
  }

  // ----- nothing is lost -----

  /** Somebody is inside the call of `respond` for `f`. */
  ghost predicate Called(s: Server, f: nat) { exists o: nat :: CallsOn(s, o, f) }

  /** No process of the server can move a request on: all that can still happen is that a message comes in or that a
      handler answers a request it holds. */
  ghost predicate AtRest(s: Server) {
    forall step {:trigger Enabled(s, step)} :: Enabled(s, step) && Works(step) ==> step.Respond? && !Called(s, step.r)
  }

  lemma {:induction false} NoCallAtRest(s: Server, o: nat, j: nat)
    requires Inv(s) && AtRest(s) && s.wlock.None? && o < |s.reqs| && j < |s.out| && s.out[j].req == o
    ensures !s.reqs[o].pc.Calling?
    decreases |s.out| - j
  {
    assert ReqOk(s, o);
    if s.reqs[o].pc.Calling? {
      var f := CalledAtRest(s, o);
      assert WroteOk(s, f) && CallOk(s, o, f);
      var k :| 0 <= k < |s.out| && s.out[k].req == f;
      assert InOut(s.out[..k], o);
      NoCallAtRest(s, f, k);
    }
  }

  /** At rest, the flush being answered could only be inside a call itself. */
  lemma {:induction false} CalledAtRest(s: Server, o: nat) returns (f: nat)
    requires Inv(s) && AtRest(s) && s.wlock.None? && o < |s.reqs| && s.reqs[o].pc.Calling?
    ensures f < |s.reqs| && CallsOn(s, o, f) && s.reqs[f].pc.Calling?
  {
    assert ReqOk(s, o);
    var i := s.reqs[o].pc.next;
    f := s.reqs[o].flush[i];
    assert FlushOk(s, o, i) && ReqOk(s, f) && CallsOn(s, o, f);
    assert !Enabled(s, Return(o)) && !Enabled(s, Respond(f)) && !Enabled(s, Drop(f)) && !Enabled(s, Lock(f));
    assert !Enabled(s, Mark(f)) && !Enabled(s, Wake(f)) && !Enabled(s, Finish(f));
  }

  lemma {:induction false} LockHolderMoves(s: Server)
    requires Inv(s) && s.wlock.Some?
    ensures Enabled(s, Remove(s.wlock.value)) || Enabled(s, Write(s.wlock.value)) || Enabled(s, Unlock(s.wlock.value))
  {
    assert ReqOk(s, s.wlock.value);
  }

  lemma {:induction false} LockFreeAtRest(s: Server)
    requires Inv(s) && AtRest(s)
    ensures s.wlock.None?
  {
    if s.wlock.Some? {
      LockHolderMoves(s);
    }
  }

  lemma {:induction false} RestAt(s: Server, r: nat)
    requires Inv(s) && AtRest(s) && s.wlock.None? && r < |s.reqs|
    ensures s.reqs[r].pc.Done? || s.reqs[r].pc.Held? || (s.reqs[r].pc.Queued? && s.reqs[r].oldreq.Some?)
  {
    assert ReqOk(s, r) && WroteOk(s, r);
    assert !Enabled(s, Dispatch(r)) && !Enabled(s, Drop(r)) && !Enabled(s, Lock(r)) && !Enabled(s, Mark(r)) && !Enabled(s, Wake(r)) && !Enabled(s, Finish(r));
    if s.reqs[r].pc.Calling? {
      var j :| 0 <= j < |s.out| && s.out[j].req == r;
      NoCallAtRest(s, r, j);
    }
  }

  lemma {:induction false} QueuedWaits(s: Server, r: nat)
    requires Inv(s) && AtRest(s) && s.wlock.None? && r < |s.reqs| && s.reqs[r].pc.Queued?
    ensures Next(s, r).Some? && s.reqs[r].oldreq == Next(s, r) && Next(s, r).value < |s.reqs|
    ensures !s.reqs[Next(s, r).value].pc.Done?
  {
    assert ReqOk(s, r);
    var o := s.reqs[r].oldreq.value;
    RestAt(s, o);
    assert ReqOk(s, o);
  }

  /** The chain of `r` ends at a request that is with its handler. */
  ghost predicate EndsWithHandler(s: Server, r: nat, path: seq<nat>) {
    && Chain(s, path) && path[0] == r && LinkAt(s, path, |path| - 1)
    && var e := path[|path| - 1]; s.reqs[e].pc.Held? && Next(s, e).None? && !Called(s, e)
  }

  /** Follow the chain: it comes back, or it ends. */
  lemma {:induction false} FollowChain(s: Server, r: nat, path: seq<nat>, seen: set<nat>, left: set<nat>) returns (whole: seq<nat>)
    requires Shape(s) && Chain(s, path) && path[0] == r && (forall x :: x in seen <==> x in path) && forall x: nat :: x < |s.reqs| ==> x in seen || x in left
    ensures Cyclic(s, r) || (Chain(s, whole) && whole[0] == r && LinkAt(s, whole, |whole| - 1) && Next(s, whole[|whole| - 1]).None? && |whole| >= |path|)
    decreases |left|
  {
    assert LinkAt(s, path, |path| - 1);
    whole := path;
    var e := path[|path| - 1];
    if Next(s, e).Some? {
      var y := Next(s, e).value;
      NextWaits(s, e);
      if y in seen {
        var i: nat :| i < |path| && path[i] == y;
        assert ComesBack(s, r, path, i);
      } else {
        ChainAppend(s, path, y);
        SmallerSet(left - {y}, left, y);
        whole := FollowChain(s, r, path + [y], seen + {y}, left - {y});
      }
    }
  }

  /** No wake-up is lost and nobody is stuck on the write lock: when the server cannot move, every request
      is finished, or is with its handler, or is a flush queued behind one that is not answered; and the chain of
      requests it waits for ends at one that is with its handler, unless it enters a cycle. */
  lemma {:induction false} RestMeansWaiting(steps: seq<Step>, s: Server, r: nat)
    requires Reached(steps, s) && AtRest(s) && r < |s.reqs|
    ensures s.reqs[r].pc.Done? || s.reqs[r].pc.Held? || (s.reqs[r].pc.Queued? && s.reqs[r].oldreq.Some?)
    ensures s.reqs[r].pc.Queued? ==> s.reqs[r].oldreq.value < |s.reqs| && !InOut(s.out, s.reqs[r].oldreq.value)
    ensures s.reqs[r].pc.Done? || Cyclic(s, r) || exists path :: EndsWithHandler(s, r, path)
  {
    InitInv();
    LockFreeAtRest(s);
    RestAt(s, r);
    if s.reqs[r].pc.Queued? {
      QueuedWaits(s, r);
      var o := s.reqs[r].oldreq.value;
      RestAt(s, o);
      NotYetWritten(s, o);
    }
    if !s.reqs[r].pc.Done? && !Cyclic(s, r) {
      assert forall i: nat :: i < |[r]| ==> LinkAt(s, [r], i);
      var path := FollowChain(s, r, [r], {r}, set x: nat {:trigger s.reqs[x]} | x < |s.reqs|);
      ChainEnd(s, r, path);
    }
  }

  lemma {:induction false} ChainEnd(s: Server, r: nat, path: seq<nat>)
    requires Inv(s) && AtRest(s) && s.wlock.None? && r < |s.reqs| && !s.reqs[r].pc.Done?
    requires Chain(s, path) && path[0] == r && LinkAt(s, path, |path| - 1) && Next(s, path[|path| - 1]).None?
    ensures EndsWithHandler(s, r, path)
  {
    var e := path[|path| - 1];
    RestAt(s, e);
    if |path| > 1 {
      var p := |path| - 2;
      assert LinkAt(s, path, p);
      NextWaits(s, path[p]);
      assert ReqOk(s, e);
    }
    if s.reqs[e].pc.Queued? {
      QueuedWaits(s, e);
    }
    assert Enabled(s, Respond(e));
  }

  // ----- exactly who is never answered -----

  /** Nothing can happen any more but that a message comes in: every handler has answered too. */
  ghost predicate Blocked(s: Server) { forall step {:trigger Enabled(s, step)} :: Enabled(s, step) ==> !Works(step) }

  lemma {:induction false} BlockedMeansCyclic(s: Server, r: nat)
    requires Inv(s) && Blocked(s) && r < |s.reqs|
    ensures s.reqs[r].pc.Done? || Cyclic(s, r)
  {
    LockFreeAtRest(s);
    var k := set x: nat | x < |s.reqs| && !s.reqs[x].pc.Done?;
    forall x: nat | x in k ensures Next(s, x).Some? && Next(s, x).value in k {
      RestAt(s, x);
      assert !Enabled(s, Respond(x));
      QueuedWaits(s, x);
    }
    if r in k {
      KnotIsCycle(s, r, k);
    }
  }

  lemma {:induction false} CyclicIsUnanswered(s: Server, r: nat)
    requires Inv(s) && Cyclic(s, r)
    ensures !InOut(s.out, r)
  {
    var k := CycleIsKnot(s, r);
    NextWaits(s, r);
    NotYetWritten(s, r);
  }

  /** When the server and its handlers have done all they can, a request has its reply exactly if the chain of requests
      it waits for does not enter a cycle. */
  lemma {:induction false} AnsweredUnlessCyclic(steps: seq<Step>, s: Server, r: nat)
    requires Reached(steps, s) && Blocked(s) && r < |s.reqs|
    ensures InOut(s.out, r) <==> !Cyclic(s, r)
  {
    InitInv();
    BlockedMeansCyclic(s, r);
    assert WroteOk(s, r);
    if Cyclic(s, r) {
      CyclicIsUnanswered(s, r);
    }
  }

  /** No message is turned into a request. */
  ghost predicate NoArrivals(steps: seq<Step>) { forall i {:trigger steps[i]} :: 0 <= i < |steps| ==> Works(steps[i]) }

  /** A request that is in no cycle can be answered, without any new request. */
  lemma {:induction false} CanBeAnswered(s: Server, r: nat) returns (more: seq<Step>)
    requires Inv(s) && r < |s.reqs| && !Cyclic(s, r)
    ensures NoArrivals(more) && Exec(s, more).Some? && InOut(Exec(s, more).value.out, r) && Exec(s, more).value.read == s.read
    decreases Weight(s)
  {
    more := [];
    if Blocked(s) {
      BlockedMeansCyclic(s, r);
      assert WroteOk(s, r);
    } else {
      var step :| Enabled(s, step) && Works(step);
      StepInv(s, step);
      StepCounts(s, step);
      if Cyclic(Apply(s, step), r) {
        NoNewCycle(s, step, r);
      }
      var rest := CanBeAnswered(Apply(s, step), r);
      more := [step] + rest;
      assert more[1..] == rest;
    }
  }

  /** Some continuation of the run answers `r`. */
  ghost predicate MayBeAnswered(s: Server, r: nat)
    requires Inv(s)
  {
    exists more :: Exec(s, more).Some? && InOut(Exec(s, more).value.out, r)
  }

  /** A request without a reply will never get one, whatever happens, exactly when the chain of requests it waits for
      enters a cycle. */
  lemma {:induction false} StuckExactly(steps: seq<Step>, s: Server, r: nat)
    requires Reached(steps, s) && r < |s.reqs|
    ensures (InitInv(); Cyclic(s, r) <==> !MayBeAnswered(s, r))
  {
    InitInv();
    if Cyclic(s, r) {
      var k := CycleIsKnot(s, r);
      forall more | Exec(s, more).Some? ensures !InOut(Exec(s, more).value.out, r) {
        RunKeepsKnot(s, more, k);
        KnotIsCycle(Exec(s, more).value, r, k);
        CyclicIsUnanswered(Exec(s, more).value, r);
      }
    } else {
      var more := CanBeAnswered(s, r);
    }
  }

  // ----- a flush and the request it names -----

  /** flush(5): a request that was made, and not yet answered, before the flush that names it looked it up is answered
      before the flush, however the processes of the server go on from there. */
  lemma {:induction false} FlushAfterReply(steps: seq<Step>, s: Server, f: nat, o: nat, more: seq<Step>, t: Server)
    requires Reached(steps, s) && f < |s.reqs| && s.reqs[f].pc.Arrived? && o < |s.reqs| && o != f
    requires s.reqs[f].kind == Flush(s.reqs[o].tag) && !s.reqs[o].fake && !InOut(s.out, o)
    requires (InitInv(); Exec(s, more) == Some(t))
    ensures forall j :: 0 <= j < |t.out| && t.out[j].req == f ==> InOut(t.out[..j], o)
  {
    InitInv();
    assert ReqOk(s, f);
    NotYetWritten(s, f);
    assert Covered(s, f, o);
    RunKeepsCovered(s, more, f, o);
  }

  /** In `t` the flush `f` has no reply, or one that follows the reply to message `m`. */
  ghost predicate InOrder(t: Server, f: nat, m: nat) {
    forall j {:trigger t.out[j]} :: 0 <= j < |t.out| && t.out[j].req == f ==>
      m < |t.read| && t.read[m].req.Some? && InOut(t.out[..j], t.read[m].req.value)
  }

  ghost predicate AlwaysInOrder(s: Server, f: nat, m: nat)
    requires Inv(s)
  {
    forall more {:trigger Exec(s, more)} :: Exec(s, more).Some? ==> InOrder(Exec(s, more).value, f, m)
  }

  /** A message that carries the tag named by `f` and has no reply yet; it has no request yet, or one of its own. */
  ghost predicate Outstanding(s: Server, f: nat, m: nat) {
    && f < |s.reqs| && m < |s.read| && s.reqs[f].kind == Flush(s.read[m].tag)
    && (s.read[m].req.Some? ==> var o := s.read[m].req.value; o < |s.reqs| && o != f && !s.reqs[o].fake && !InOut(s.out, o))
  }

  /** Before the lookup of a flush that can be answered at all: every continuation answers the message first exactly
      if its request has been made.  That the message was read first is not enough. */
  lemma {:induction false} FlushOrderExact(steps: seq<Step>, s: Server, f: nat, m: nat)
    requires Reached(steps, s) && Outstanding(s, f, m) && s.reqs[f].pc.Arrived? && !Cyclic(s, f)
    ensures (InitInv(); AlwaysInOrder(s, f, m) <==> s.read[m].req.Some?)
  {
    InitInv();
    if s.read[m].req.Some? {
      assert HandOk(s, m);
      forall more | Exec(s, more).Some? ensures InOrder(Exec(s, more).value, f, m) {
        FlushAfterReply(steps, s, f, s.read[m].req.value, more, Exec(s, more).value);
        RunKeepsHand(s, more, m);
      }
    } else {
      var more := CanBeAnswered(s, f);
      var t := Exec(s, more).value;
      var j :| 0 <= j < |t.out| && t.out[j].req == f;
      assert !InOrder(t, f, m);
    }
  }

  lemma {:induction false} RunKeepsHand(s: Server, steps: seq<Step>, m: nat)
    requires Inv(s) && m < |s.read| && s.read[m].req.Some? && Exec(s, steps).Some?
    ensures m < |Exec(s, steps).value.read| && Exec(s, steps).value.read[m] == s.read[m]
    decreases |steps|
  {
    if steps != [] {
      StepInv(s, steps[0]);
      StepKeepsHand(s, steps[0], m);
      RunKeepsHand(Apply(s, steps[0]), steps[1..], m);
    }
  }

  lemma {:induction false} StepKeepsHand(s: Server, step: Step, m: nat)
    requires Shape(s) && Enabled(s, step) && m < |s.read| && s.read[m].req.Some?
    ensures m < |Apply(s, step).read| && Apply(s, step).read[m] == s.read[m]
  {
    if step.Dispatch? && s.reqs[step.r].kind.Flush? {
      assert TagOk(s, s.reqs[step.r].kind.oldtag);
    } else if step.Wake? {
      assert FlushOk(s, step.r, s.reqs[step.r].pc.next);
    } else if step.Remove? {
      assert TagOk(s, s.reqs[step.r].tag);
    } else if step.Respond? || step.Drop? {
      assert ReqOk(s, step.r);
    }
  }

  // ----- runs in which it goes wrong -----

  /** One step further. */
  lemma {:induction false} OneMore(steps: seq<Step>, s: Server, step: Step)
    requires Reached(steps, s) && (InitInv(); Enabled(s, step))
    ensures (InitInv(); Reached(steps + [step], Apply(s, step)))
  {
    InitInv();
    ExecAppend(Init(), steps, step);
  }

  lemma {:induction false} ExecAppend(s: Server, steps: seq<Step>, step: Step)
    requires Inv(s) && Exec(s, steps).Some? && Enabled(Exec(s, steps).value, step)
    ensures Exec(s, steps + [step]) == Some(Apply(Exec(s, steps).value, step))
    decreases |steps|
  {
    if steps == [] {
      StepInv(s, step);
      assert ([step])[1..] == [] && steps + [step] == [step];
    } else {
      StepInv(s, steps[0]);
      ExecAppend(Apply(s, steps[0]), steps[1..], step);
      assert (steps + [step])[1..] == steps[1..] + [step];
    }
  }

  /** A flush that names its own tag waits for itself, so it is never answered. */
  lemma {:induction false} SelfFlushNeverAnswered(steps: seq<Step>, s: Server, f: nat)
    requires Reached(steps, s) && f < |s.reqs| && s.reqs[f].pc.Arrived? && s.reqs[f].kind == Flush(s.reqs[f].tag)
    ensures (InitInv(); Cyclic(s, f) && !MayBeAnswered(s, f))
  {
    InitInv();
    assert ReqOk(s, f);
    KnotIsCycle(s, f, {f});
    StuckExactly(steps, s, f);
  }

  /** Two flushes that name each other wait for each other, so neither is ever answered. */
  lemma {:induction false} MutualFlushNeverAnswered(steps: seq<Step>, s: Server, f: nat, g: nat)
    requires Reached(steps, s) && f < |s.reqs| && g < |s.reqs| && s.reqs[f].pc.Arrived? && s.reqs[g].pc.Arrived?
    requires s.reqs[f].kind == Flush(s.reqs[g].tag) && s.reqs[g].kind == Flush(s.reqs[f].tag)
    ensures (InitInv(); Cyclic(s, f) && Cyclic(s, g) && !MayBeAnswered(s, f) && !MayBeAnswered(s, g))
  {
    InitInv();
    assert ReqOk(s, f) && ReqOk(s, g);
    assert Knot(s, {f, g});
    KnotIsCycle(s, f, {f, g});
    KnotIsCycle(s, g, {f, g});
    StuckExactly(steps, s, f);
    StuckExactly(steps, s, g);
  }

  /** Both happen. */
  lemma {:induction false} StuckFlushesHappen() returns (s: Server, t: Server)
    ensures Reached([Read(1, Flush(1)), Arrive(0)], s) && |s.reqs| == 1 && (InitInv(); !MayBeAnswered(s, 0))
    ensures Reached([Read(1, Flush(2)), Read(2, Flush(1)), Arrive(0), Arrive(1)], t) && |t.reqs| == 2 && (InitInv(); !MayBeAnswered(t, 0) && !MayBeAnswered(t, 1))
  {
    InitInv();
    var none: seq<Step> := [];
    assert Reached(none, Init());
    OneMore(none, Init(), Read(1, Flush(1)));
    var s1 := ApplyRead(Init(), 1, Flush(1));
    OneMore(none + [Read(1, Flush(1))], s1, Arrive(0));
    s := ApplyArrive(s1, 0);
    assert none + [Read(1, Flush(1))] + [Arrive(0)] == [Read(1, Flush(1)), Arrive(0)];
    SelfFlushNeverAnswered([Read(1, Flush(1)), Arrive(0)], s, 0);
    t := MutualFlushHappens();
    MutualFlushNeverAnswered([Read(1, Flush(2)), Read(2, Flush(1)), Arrive(0), Arrive(1)], t, 0, 1);
  }

  lemma {:induction false} MutualFlushHappens() returns (t: Server)
    ensures Reached([Read(1, Flush(2)), Read(2, Flush(1)), Arrive(0), Arrive(1)], t) && |t.reqs| == 2
    ensures t.reqs[0].pc.Arrived? && t.reqs[0].tag == 1 && t.reqs[0].kind == Flush(2)
    ensures t.reqs[1].pc.Arrived? && t.reqs[1].tag == 2 && t.reqs[1].kind == Flush(1)
  {
    InitInv();
    var none: seq<Step> := [];
    assert Reached(none, Init());
    OneMore(none, Init(), Read(1, Flush(2)));
    var s1 := ApplyRead(Init(), 1, Flush(2));
    OneMore(none + [Read(1, Flush(2))], s1, Read(2, Flush(1)));
    var s2 := ApplyRead(s1, 2, Flush(1));
    OneMore(none + [Read(1, Flush(2))] + [Read(2, Flush(1))], s2, Arrive(0));
    var s3 := ApplyArrive(s2, 0);
    OneMore(none + [Read(1, Flush(2))] + [Read(2, Flush(1))] + [Arrive(0)], s3, Arrive(1));
    t := ApplyArrive(s3, 1);
    assert none + [Read(1, Flush(2))] + [Read(2, Flush(1))] + [Arrive(0)] + [Arrive(1)]
        == [Read(1, Flush(2)), Read(2, Flush(1)), Arrive(0), Arrive(1)];
  }

  /** A request that waits for nobody is answered by its process alone. */
  lemma {:induction false} Answer(steps: seq<Step>, s: Server, r: nat) returns (all: seq<Step>, t: Server)
    requires Reached(steps, s) && r < |s.reqs| && s.reqs[r].pc.Held? && s.reqs[r].oldreq.None? && s.wlock.None?
    ensures Reached(all, t) && t.read == s.read && |t.reqs| == |s.reqs| && t.wlock.None?
    ensures t.pool == s.pool - {s.reqs[r].tag} && t.out == s.out + [Reply(s.reqs[r].tag, r)]
  {
    InitInv();
    assert ReqOk(s, r);
    OneMore(steps, s, Respond(r));
    var s1 := At(s, r, Ready);
    OneMore(steps + [Respond(r)], s1, Lock(r));
    var s2 := At(s1, r, Locked).(wlock := Some(r));
    all, t := WriteReply(steps + [Respond(r)] + [Lock(r)], s2, r);
  }

  /** What a process does with the write lock. */
  lemma {:induction false} WriteReply(steps: seq<Step>, s: Server, r: nat) returns (all: seq<Step>, t: Server)
    requires Reached(steps, s) && r < |s.reqs| && s.reqs[r].pc.Locked? && !s.reqs[r].fake
    ensures Reached(all, t) && t.read == s.read && |t.reqs| == |s.reqs| && t.wlock.None?
    ensures t.pool == s.pool - {s.reqs[r].tag} && t.out == s.out + [Reply(s.reqs[r].tag, r)]
  {
    InitInv();
    assert ReqOk(s, r) && TagOk(s, s.reqs[r].tag);
    OneMore(steps, s, Remove(r));
    var s1 := ApplyRemove(s, r);
    OneMore(steps + [Remove(r)], s1, Write(r));
    var s2 := ApplyWrite(s1, r);
    OneMore(steps + [Remove(r)] + [Write(r)], s2, Unlock(r));
    all, t := steps + [Remove(r)] + [Write(r)] + [Unlock(r)], At(s2, r, Unlocked).(wlock := None);
  }

  /** A message is read before the flush that names it, and still the flush is answered first: its process looks the
      tag up before the other has made its request. */
  lemma {:induction false} FlushOvertakes() returns (steps: seq<Step>, s: Server)
    ensures Reached(steps, s) && s.read == [Message(5, Plain, Some(1)), Message(6, Flush(5), Some(0))]
    ensures s.out == [Reply(6, 0), Reply(5, 1)]
  {
    InitInv();
    var none: seq<Step> := [];
    assert Reached(none, Init());
    OneMore(none, Init(), Read(5, Plain));
    var s1 := ApplyRead(Init(), 5, Plain);
    OneMore(none + [Read(5, Plain)], s1, Read(6, Flush(5)));
    var s2 := ApplyRead(s1, 6, Flush(5));
    var run := none + [Read(5, Plain)] + [Read(6, Flush(5))];
    steps, s := MakeAndAnswer(run, s2, 1);
    steps, s := MakeAndAnswer(steps, s, 0);
  }

  /** The whole life of a message whose tag is free and which names no request. */
  lemma {:induction false} MakeAndAnswer(steps: seq<Step>, s: Server, m: nat) returns (all: seq<Step>, t: Server)
    requires Reached(steps, s) && m < |s.read| && s.read[m].req.None? && s.read[m].tag !in s.pool && s.wlock.None?
    requires s.read[m].kind.Flush? ==> s.read[m].kind.oldtag !in s.pool && s.read[m].kind.oldtag != s.read[m].tag
    ensures Reached(all, t) && t.read == s.read[m := s.read[m].(req := Some(|s.reqs|))] && |t.reqs| == |s.reqs| + 1
    ensures t.pool == s.pool && t.wlock.None? && t.out == s.out + [Reply(s.read[m].tag, |s.reqs|)]
  {
    InitInv();
    var r := |s.reqs|;
    OneMore(steps, s, Arrive(m));
    var s1 := Apply(s, Arrive(m));
    OneMore(steps + [Arrive(m)], s1, Dispatch(r));
    var s2 := Apply(s1, Dispatch(r));
    all, t := Answer(steps + [Arrive(m)] + [Dispatch(r)], s2, r);
    assert s.pool[s.read[m].tag := r] - {s.read[m].tag} == s.pool;
  }
}
