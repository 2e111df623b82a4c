/**
 * What holds over every run of the 9P server: each request is answered at most once and with its
 * own tag, and is freed exactly when nobody refers to it any more.
 */
module NineRuns {
  import opened Options
  import opened NineRequests

  // ----- how a request moves on -----

  /** Where the processing of a request can go in one step. */
  ghost predicate Goes(s: Server, t: Server, step: Step, x: nat)
    requires x < |s.reqs| <= |t.reqs|
  {
    var q, p := s.reqs[x], t.reqs[x];
    && p.tag == q.tag && p.kind == q.kind && p.fake == q.fake
    && match q.pc
       case Arrived => (p.pc.Arrived? && p.oldreq == q.oldreq) || (p.pc.Held? && LookedUp(s, q, p))
       case Held => p.oldreq == q.oldreq && (p.pc.Held? || (p.pc.Ready? && q.oldreq.None?) || (p.pc.Dropping? && OldResponded(s, q)) || p.pc.Queued?)
       case Queued => p.oldreq == q.oldreq && (p.pc.Queued? || p.pc.Held?)
       case Dropping => (p.pc.Dropping? && p.oldreq == q.oldreq) || (p.pc.Ready? && p.oldreq.None?)
       case Ready => p.pc.Ready? || (p.pc.Locked? && s.wlock.None?)
       case Locked => p.pc.Locked? || p.pc.Removed?
       case Removed => p.pc.Removed? || (p.pc.Written? && step == Write(x))
       case Written => p.pc.Written? || p.pc.Unlocked?
       case Unlocked => p.pc.Unlocked? || p.pc.Waking?
       case _ => Awake(p.pc)
  }

  ghost predicate OldResponded(s: Server, q: Req) { q.oldreq.Some? && q.oldreq.value < |s.reqs| && s.reqs[q.oldreq.value].responded }

  ghost predicate LookedUp(s: Server, q: Req, p: Req) {
    q.kind.Flush? && q.kind.oldtag in s.pool ==> p.oldreq == Some(s.pool[q.kind.oldtag])
  }

  lemma {:induction false} DispatchGoes(s: Server, r: nat, x: nat)
    requires Shape(s) && Enabled(s, Dispatch(r)) && x < |s.reqs|
    ensures Goes(s, Apply(s, Dispatch(r)), Dispatch(r), x)
  {
    if s.reqs[r].kind.Flush? {
      assert TagOk(s, s.reqs[r].kind.oldtag);
    }
  }

  lemma {:induction false} CloseGoes(s: Server, step: Step, x: nat)
    requires Shape(s) && Enabled(s, step) && (step.Drop? || step.Remove?) && x < |s.reqs|
    ensures Goes(s, Apply(s, step), step, x)
  {
    assert ReqOk(s, step.r) && TagOk(s, s.reqs[step.r].tag);
  }

  lemma {:induction false} RespondGoes(s: Server, r: nat, x: nat)
    requires Shape(s) && Enabled(s, Respond(r)) && x < |s.reqs|
    ensures Goes(s, Apply(s, Respond(r)), Respond(r), x)
  {
    assert ReqOk(s, r);
  }

  lemma {:induction false} WakeGoes(s: Server, r: nat, x: nat)
    requires Shape(s) && Enabled(s, Wake(r)) && x < |s.reqs|
    ensures Goes(s, Apply(s, Wake(r)), Wake(r), x)
  {
    assert FlushOk(s, r, s.reqs[r].pc.next) && ReqOk(s, r);
  }

  lemma {:induction false} StepGoes(s: Server, step: Step, x: nat)
    requires Shape(s) && Enabled(s, step) && x < |s.reqs|
    ensures Goes(s, Apply(s, step), step, x)
  {
    match step {
      case Dispatch(r) => DispatchGoes(s, r, x);
      case Drop(r) => CloseGoes(s, step, x);
      case Remove(r) => CloseGoes(s, step, x);
      case Respond(r) => RespondGoes(s, r, x);
      case Wake(r) => WakeGoes(s, r, x);
      case _ =>
    }
  }

  // ----- replies -----

  /** No reply was written, and no request moved past or behind its reply. */
  ghost predicate Quiet(s: Server, t: Server) {
    && t.out == s.out && |s.reqs| <= |t.reqs|
    && (forall r: nat {:trigger QuietAt(s, t, r)} :: r < |s.reqs| ==> QuietAt(s, t, r))
    && (forall r: nat {:trigger t.reqs[r]} :: |s.reqs| <= r < |t.reqs| ==> !Answered(t.reqs[r].pc))
  }

  ghost predicate QuietAt(s: Server, t: Server, r: nat)
    requires r < |s.reqs| <= |t.reqs|
  {
    t.reqs[r].tag == s.reqs[r].tag && (Answered(t.reqs[r].pc) <==> Answered(s.reqs[r].pc))
  }

  lemma {:induction false} QuietKeepsReplies(s: Server, t: Server)
    requires Replies(s) && Quiet(s, t)
    ensures Replies(t)
  {
    forall i: nat | i < |t.out| ensures OutOk(t, i) {
      assert OutOk(s, i) && QuietAt(s, t, s.out[i].req);
    }
    forall r: nat | r < |t.reqs| ensures WroteOk(t, r) {
      if r < |s.reqs| {
        assert WroteOk(s, r) && QuietAt(s, t, r);
      }
    }
  }

  lemma {:induction false} WriteKeepsReplies(s: Server, r: nat)
    requires Replies(s) && Shape(s) && Enabled(s, Write(r))
    ensures Replies(Apply(s, Write(r)))
  {
    var t := Apply(s, Write(r));
    assert t.out[|s.out|].req == r;
    forall i: nat | i < |t.out| ensures OutOk(t, i) {
      assert i < |s.out| ==> OutOk(s, i);
    }
    forall x: nat | x < |t.reqs| ensures WroteOk(t, x) {
      assert WroteOk(s, x);
      if x != r && Answered(s.reqs[x].pc) {
        var i :| 0 <= i < |s.out| && s.out[i].req == x;
        assert t.out[i].req == x;
      }
    }
    forall i: nat | i < |s.out| ensures s.out[i].req != r {
      assert OutOk(s, i);
    }
  }

  lemma {:induction false} StepIsQuiet(s: Server, step: Step)
    requires Shape(s) && Enabled(s, step) && !step.Write?
    ensures Quiet(s, Apply(s, step))
  {
    var t := Apply(s, step);
    forall r: nat | r < |s.reqs| ensures QuietAt(s, t, r) {
      StepGoes(s, step, r);
    }
  }

  lemma {:induction false} StepKeepsReplies(s: Server, step: Step)
    requires Shape(s) && Replies(s) && Enabled(s, step)
    ensures Replies(Apply(s, step))
  {
    if step.Write? {
      WriteKeepsReplies(s, step.r);
    } else {
      StepIsQuiet(s, step);
      QuietKeepsReplies(s, Apply(s, step));
    }
  }

  // ----- reference counts -----

  /** How many flushes refer to request `o`. */
  ghost function Waits(reqs: seq<Req>, o: nat): nat {
    if reqs == [] then 0 else Waits(reqs[..|reqs| - 1], o) + Refers(reqs[|reqs| - 1], o)
  }

  ghost function Refers(q: Req, o: nat): nat { if q.oldreq == Some(o) then 1 else 0 }

  lemma {:induction false} WaitsUpdate(reqs: seq<Req>, i: nat, q: Req, o: nat)
    requires i < |reqs|
    ensures Waits(reqs[i := q], o) == Waits(reqs, o) - Refers(reqs[i], o) + Refers(q, o)
  {
    var n := |reqs| - 1;
    var u := reqs[i := q];
    if i < n {
      assert u[..n] == reqs[..n][i := q];
      WaitsUpdate(reqs[..n], i, q, o);
    } else {
      assert u[..n] == reqs[..n];
    }
  }

  lemma {:induction false} WaitsSame(s: seq<Req>, t: seq<Req>, o: nat)
    requires |s| == |t| && forall i :: 0 <= i < |s| ==> t[i].oldreq == s[i].oldreq
    ensures Waits(t, o) == Waits(s, o)
  {
    if s != [] {
      WaitsSame(s[..|s| - 1], t[..|t| - 1], o);
    }
  }

  /** Who holds request `r`: the tag map, the process answering it, and the flushes that name it. */
  ghost function Holders(s: Server, r: nat): nat
    requires r < |s.reqs|
  {
    (if s.reqs[r].tag in s.pool && s.pool[s.reqs[r].tag] == r then 1 else 0) + (if s.reqs[r].pc.Done? then 0 else 1) + Waits(s.reqs, r)
  }

  ghost predicate RefOk(s: Server, r: nat)
    requires r < |s.reqs|
  {
    if s.reqs[r].fake then s.reqs[r].freed <==> s.reqs[r].pc.Done?
    else s.reqs[r].ref == Holders(s, r) && (s.reqs[r].freed <==> Holders(s, r) == 0)
  }

  ghost predicate Refs(s: Server) {
    forall r: nat {:trigger RefOk(s, r)} :: r < |s.reqs| ==> RefOk(s, r)
  }

  /** What a step did to request `r` agrees with what it did to its holders. */
  ghost predicate RefMoves(s: Server, t: Server, r: nat)
    requires r < |s.reqs| == |t.reqs|
  {
    && t.reqs[r].fake == s.reqs[r].fake
    && if s.reqs[r].fake then s.reqs[r].freed == s.reqs[r].pc.Done? ==> t.reqs[r].freed == t.reqs[r].pc.Done?
       else
         && Holders(t, r) - Holders(s, r) == t.reqs[r].ref - s.reqs[r].ref
         && (if t.reqs[r].ref == s.reqs[r].ref - 1 then t.reqs[r].freed == (s.reqs[r].ref == 1)
             else t.reqs[r].freed == s.reqs[r].freed && (t.reqs[r].ref == s.reqs[r].ref || (t.reqs[r].ref > s.reqs[r].ref > 0)))
  }

  lemma {:induction false} RefMovesKeep(s: Server, t: Server)
    requires Refs(s) && |s.reqs| == |t.reqs|
    requires forall r: nat {:trigger RefMoves(s, t, r)} :: r < |s.reqs| ==> RefMoves(s, t, r)
    ensures Refs(t)
  {
    forall r: nat | r < |t.reqs| ensures RefOk(t, r) {
      assert RefOk(s, r) && RefMoves(s, t, r);
    }
  }

  lemma {:induction false} ArriveKeepsRefs(s: Server, m: nat)
    requires Shape(s) && Refs(s) && m < |s.read|
    ensures Refs(ApplyArrive(s, m))
  {
    var t := ApplyArrive(s, m);
    forall r: nat | r < |t.reqs| ensures RefOk(t, r) {
      assert t.reqs[..|s.reqs|] == s.reqs;
      if r < |s.reqs| {
        assert RefOk(s, r) && TagOk(s, s.reqs[r].tag);
      } else {
        NoneWait(s, r);
      }
    }
  }

  lemma {:induction false} NoneWait(s: Server, r: nat)
    requires Shape(s) && r >= |s.reqs|
    ensures Waits(s.reqs, r) == 0
  {
    forall i: nat | i < |s.reqs| ensures s.reqs[i].oldreq != Some(r) {
      assert ReqOk(s, i);
    }
    NoneRefer(s.reqs, r);
  }

  lemma {:induction false} NoneRefer(reqs: seq<Req>, o: nat)
    requires forall i :: 0 <= i < |reqs| ==> reqs[i].oldreq != Some(o)
    ensures Waits(reqs, o) == 0
  {
    if reqs != [] {
      NoneRefer(reqs[..|reqs| - 1], o);
    }
  }

  lemma {:induction false} DispatchKeepsRefs(s: Server, r: nat)
    requires Shape(s) && Refs(s) && Enabled(s, Dispatch(r))
    ensures Refs(Apply(s, Dispatch(r)))
  {
    var t := Apply(s, Dispatch(r));
    if s.reqs[r].kind.Flush? && s.reqs[r].kind.oldtag in s.pool {
      assert TagOk(s, s.reqs[r].kind.oldtag) && ReqOk(s, r);
      forall x: nat | x < |t.reqs| ensures RefMoves(s, t, x) {
        assert RefOk(s, x);
        LookupRef(s, t, r, s.pool[s.reqs[r].kind.oldtag], x);
      }
      RefMovesKeep(s, t);
    } else {
      forall x: nat | x < |t.reqs| ensures CountSame(s, t, x) {
      }
      CountsSameKeep(s, t);
    }
  }

  lemma {:induction false} LookupRef(s: Server, t: Server, r: nat, o: nat, x: nat)
    requires r < |s.reqs| == |t.reqs| && o < |s.reqs| && x < |s.reqs| && s.pool == t.pool
    requires s.reqs[r].oldreq.None? && !s.reqs[r].pc.Done? && !s.reqs[o].fake && RefOk(s, x)
    requires s.reqs[o].tag in s.pool && s.pool[s.reqs[o].tag] == o
    requires t.reqs == s.reqs[o := s.reqs[o].(ref := s.reqs[o].ref + 1)][r := t.reqs[r]]
    requires t.reqs[r] == s.reqs[r].(oldreq := Some(o), pc := Held, ref := s.reqs[r].ref + if r == o then 1 else 0)
    ensures RefMoves(s, t, x)
  {
    LookupWaits(s.reqs, t.reqs, r, x);
  }

  /** Only request `r` changed what it refers to. */
  lemma {:induction false} LookupWaits(s: seq<Req>, t: seq<Req>, r: nat, x: nat)
    requires r < |s| == |t| && forall i :: 0 <= i < |s| && i != r ==> t[i].oldreq == s[i].oldreq
    ensures Waits(t, x) == Waits(s, x) - Refers(s[r], x) + Refers(t[r], x)
  {
    WaitsUpdate(s, r, t[r], x);
    WaitsSame(s[r := t[r]], t, x);
  }

  lemma {:induction false} DropKeepsRefs(s: Server, r: nat)
    requires Shape(s) && Refs(s) && Enabled(s, Drop(r))
    ensures Refs(Apply(s, Drop(r)))
  {
    var t := Apply(s, Drop(r));
    assert ReqOk(s, r);
    var o := s.reqs[r].oldreq.value;
    assert ReqOk(s, o);
    forall x: nat | x < |t.reqs| ensures RefMoves(s, t, x) {
      DropRef(s, t, r, o, x);
    }
    RefMovesKeep(s, t);
  }

  lemma {:induction false} DropRef(s: Server, t: Server, r: nat, o: nat, x: nat)
    requires r < |s.reqs| == |t.reqs| && o < |s.reqs| && x < |s.reqs| && s.pool == t.pool && r != o
    requires s.reqs[r].oldreq == Some(o) && s.reqs[r].pc.Dropping? && !s.reqs[o].fake
    requires t.reqs == s.reqs[o := s.reqs[o].(ref := s.reqs[o].ref - 1, freed := s.reqs[o].ref == 1)][r := s.reqs[r].(oldreq := None, pc := Ready)]
    ensures RefMoves(s, t, x)
  {
    LookupWaits(s.reqs, t.reqs, r, x);
  }

  lemma {:induction false} RemoveKeepsRefs(s: Server, r: nat)
    requires Shape(s) && Refs(s) && Enabled(s, Remove(r))
    ensures Refs(Apply(s, Remove(r)))
  {
    var t := Apply(s, Remove(r));
    assert ReqOk(s, r) && TagOk(s, s.reqs[r].tag);
    forall x: nat | x < |t.reqs| ensures RefMoves(s, t, x) {
      assert RefOk(s, x);
      WaitsSame(s.reqs, t.reqs, x);
    }
    RefMovesKeep(s, t);
  }

  lemma {:induction false} FinishKeepsRefs(s: Server, r: nat)
    requires Shape(s) && Refs(s) && Enabled(s, Finish(r))
    ensures Refs(Apply(s, Finish(r)))
  {
    var t := Apply(s, Finish(r));
    forall x: nat | x < |t.reqs| ensures RefMoves(s, t, x) {
      assert RefOk(s, x);
      WaitsSame(s.reqs, t.reqs, x);
    }
    RefMovesKeep(s, t);
  }

  /** Neither the count of `x` nor who holds it changed. */
  ghost predicate CountSame(s: Server, t: Server, x: nat)
    requires x < |s.reqs| == |t.reqs|
  {
    t.reqs[x] == s.reqs[x].(pc := t.reqs[x].pc, responded := t.reqs[x].responded, flush := t.reqs[x].flush) && t.reqs[x].pc.Done? == s.reqs[x].pc.Done?
  }

  lemma {:induction false} CountsSameKeep(s: Server, t: Server)
    requires Refs(s) && |s.reqs| == |t.reqs| && t.pool == s.pool
    requires forall x: nat {:trigger CountSame(s, t, x)} :: x < |s.reqs| ==> CountSame(s, t, x)
    ensures Refs(t)
  {
    forall x: nat | x < |t.reqs| ensures RefOk(t, x) {
      assert RefOk(s, x) && CountSame(s, t, x);
      forall i: nat | i < |t.reqs| ensures t.reqs[i].oldreq == s.reqs[i].oldreq {
        assert CountSame(s, t, i);
      }
      WaitsSame(s.reqs, t.reqs, x);
    }
  }

  /** The other steps touch no count and no holder. */
  lemma {:induction false} OtherKeepsRefs(s: Server, step: Step)
    requires Shape(s) && Refs(s) && Enabled(s, step)
    requires step.Read? || step.Respond? || step.Lock? || step.Write? || step.Unlock? || step.Mark? || step.Wake? || step.Return?
    ensures Refs(Apply(s, step))
  {
    var t := Apply(s, step);
    if step.Respond? {
      assert ReqOk(s, step.r);
    } else if step.Wake? {
      assert FlushOk(s, step.r, s.reqs[step.r].pc.next) && ReqOk(s, step.r);
    }
    forall x: nat | x < |t.reqs| ensures CountSame(s, t, x) {
    }
    CountsSameKeep(s, t);
  }

  lemma {:induction false} StepKeepsRefs(s: Server, step: Step)
    requires Shape(s) && Refs(s) && Enabled(s, step)
    ensures Refs(Apply(s, step))
  {
    match step {
      case Arrive(m) => ArriveKeepsRefs(s, m);
      case Dispatch(r) => DispatchKeepsRefs(s, r);
      case Drop(r) => DropKeepsRefs(s, r);
      case Remove(r) => RemoveKeepsRefs(s, r);
      case Finish(r) => FinishKeepsRefs(s, r);
      case _ => OtherKeepsRefs(s, step);
    }
  }

  // ----- a flush and the request it names -----

  ghost predicate Before(out: seq<Reply>, o: nat, f: nat) {
    forall j :: 0 <= j < |out| && out[j].req == f ==> InOut(out[..j], o)
  }

  /** How far `f`, a flush that found `o` unanswered when it came in, has come, and what is then true of `o`. */
  ghost predicate Covered(s: Server, f: nat, o: nat) { CoveredPc(s, f, o) && Before(s.out, o, f) }

  ghost predicate CoveredPc(s: Server, f: nat, o: nat) {
    && f < |s.reqs| && o < |s.reqs| && f != o && !s.reqs[f].fake && !s.reqs[o].fake && s.reqs[f].kind == Flush(s.reqs[o].tag)
    && (s.reqs[f].pc.Held? || s.reqs[f].pc.Queued? || s.reqs[f].pc.Dropping? ==> s.reqs[f].oldreq == Some(o) || !Unremoved(s.reqs[o].pc))
    && (s.reqs[f].pc.Ready? ==> !Unremoved(s.reqs[o].pc))
    && (s.reqs[f].pc.Locked? || s.reqs[f].pc.Removed? ==> Answered(s.reqs[o].pc))
  }

  lemma {:induction false} CoverGoes(s: Server, t: Server, step: Step, f: nat, o: nat)
    requires Shape(s) && CoveredPc(s, f, o) && |s.reqs| <= |t.reqs| && Goes(s, t, step, f) && Goes(s, t, step, o)
    ensures CoveredPc(t, f, o)
  {
    assert ReqOk(s, f) && ReqOk(s, o);
  }

  lemma {:induction false} StepKeepsCovered(s: Server, step: Step, f: nat, o: nat)
    requires Shape(s) && Replies(s) && Enabled(s, step) && Covered(s, f, o)
    ensures Covered(Apply(s, step), f, o)
  {
    StepGoes(s, step, f);
    StepGoes(s, step, o);
    CoverGoes(s, Apply(s, step), step, f, o);
    assert WroteOk(s, o);
    if step.Write? {
      WriteKeepsBefore(s, step.r, o, f);
    } else {
      StepIsQuiet(s, step);
    }
  }

  // ----- who calls whom -----

  /** Request `o` is inside the call of `respond` for the flush `f` on its list. */
  ghost predicate CallsOn(s: Server, o: nat, f: nat) {
    o < |s.reqs| && s.reqs[o].pc.Calling? && s.reqs[o].pc.next < |s.reqs[o].flush| && s.reqs[o].flush[s.reqs[o].pc.next] == f
  }

  ghost predicate CallOk(s: Server, o: nat, f: nat) { CallsOn(s, o, f) ==> Before(s.out, o, f) }

  /** A request that wakes a flush was answered before the flush was. */
  ghost predicate Calls(s: Server) {
    forall o: nat, f: nat {:trigger CallOk(s, o, f)} :: CallOk(s, o, f)
  }

  lemma {:induction false} StepCalls(s: Server, step: Step, o: nat, f: nat)
    requires Shape(s) && Enabled(s, step) && CallsOn(Apply(s, step), o, f)
    ensures CallsOn(s, o, f) || (step == Wake(o) && FlushAsleep(s, o, f))
  {
    if step.Wake? {
      assert FlushOk(s, step.r, s.reqs[step.r].pc.next);
    } else if step.Remove? {
      assert TagOk(s, s.reqs[step.r].tag) && ReqOk(s, step.r);
    } else if step.Respond? || step.Drop? {
      assert ReqOk(s, step.r);
      if s.reqs[step.r].oldreq.Some? {
        assert ReqOk(s, s.reqs[step.r].oldreq.value);
      }
    } else if step.Dispatch? && s.reqs[step.r].kind.Flush? {
      assert TagOk(s, s.reqs[step.r].kind.oldtag);
    }
  }

  ghost predicate FlushAsleep(s: Server, o: nat, f: nat) { o < |s.reqs| && f < |s.reqs| && s.reqs[f].pc.Queued? }

  lemma {:induction false} StepKeepsCalls(s: Server, step: Step)
    requires Shape(s) && Replies(s) && Calls(s) && Enabled(s, step)
    ensures Calls(Apply(s, step))
  {
    var t := Apply(s, step);
    forall o: nat, f: nat ensures CallOk(t, o, f) {
      if CallsOn(t, o, f) {
        StepCalls(s, step, o, f);
        assert CallOk(s, o, f);
        if step == Wake(o) {
          NotYetWritten(s, f);
          StepIsQuiet(s, step);
        } else if step.Write? {
          assert WroteOk(s, o);
          WriteKeepsBefore(s, step.r, o, f);
        } else {
          StepIsQuiet(s, step);
        }
      }
    }
  }

  lemma {:induction false} NotYetWritten(s: Server, f: nat)
    requires Replies(s) && f < |s.reqs| && !Answered(s.reqs[f].pc)
    ensures forall j :: 0 <= j < |s.out| ==> s.out[j].req != f
  {
    forall j: nat | j < |s.out| ensures s.out[j].req != f {
      assert OutOk(s, j);
    }
  }

  lemma {:induction false} WriteKeepsBefore(s: Server, r: nat, o: nat, f: nat)
    requires Shape(s) && Enabled(s, Write(r)) && Before(s.out, o, f) && (r == f ==> InOut(s.out, o))
    ensures Before(Apply(s, Write(r)).out, o, f)
  {
    var t := Apply(s, Write(r));
    forall j | 0 <= j < |t.out| && t.out[j].req == f ensures InOut(t.out[..j], o) {
      if j < |s.out| {
        assert t.out[..j] == s.out[..j];
      } else {
        assert t.out[..j] == s.out;
      }
    }
  }

  // ----- messages and their requests -----

  ghost predicate HandOk(s: Server, m: nat)
    requires m < |s.read|
  {
    s.read[m].req.Some? ==>
      var r := s.read[m].req.value;
      r < |s.reqs| && s.reqs[r].tag == s.read[m].tag && s.reqs[r].kind == s.read[m].kind
  }

  ghost predicate PairOk(s: Server, m: nat, n: nat)
    requires m < n < |s.read|
  {
    s.read[m].req.Some? ==> s.read[m].req != s.read[n].req
  }

  /** The request made for a message has its tag and type, and no two messages share one. */
  ghost predicate Hands(s: Server) {
    && (forall m: nat {:trigger HandOk(s, m)} :: m < |s.read| ==> HandOk(s, m))
    && (forall m: nat, n: nat {:trigger PairOk(s, m, n)} :: m < n < |s.read| ==> PairOk(s, m, n))
  }

  lemma {:induction false} StepKeepsHands(s: Server, step: Step)
    requires Shape(s) && Hands(s) && Enabled(s, step)
    ensures Hands(Apply(s, step))
  {
    var t := Apply(s, step);
    forall m: nat | m < |t.read| ensures HandOk(t, m) {
      if m < |s.read| {
        assert HandOk(s, m);
        if s.read[m].req.Some? {
          StepGoes(s, step, s.read[m].req.value);
        }
      }
    }
    forall m: nat, n: nat | m < n < |t.read| ensures PairOk(t, m, n) {
      if n < |s.read| {
        assert PairOk(s, m, n) && HandOk(s, m) && HandOk(s, n);
      }
    }
  }

  // ----- runs -----

  ghost predicate Inv(s: Server) { Shape(s) && Replies(s) && Refs(s) && Calls(s) && Hands(s) }

  lemma InitInv()
    ensures Inv(Init())
  {
  }

  lemma StepInv(s: Server, step: Step)
    requires Inv(s) && Enabled(s, step)
    ensures Inv(Apply(s, step))
  {
    StepKeepsShape(s, step);
    StepKeepsReplies(s, step);
    StepKeepsRefs(s, step);
    StepKeepsCalls(s, step);
    StepKeepsHands(s, step);
  }

  /** The state after a run, if every step of it was possible. */
  ghost function Exec(s: Server, steps: seq<Step>): (t: Option<Server>)
    requires Inv(s)
    ensures t.Some? ==> Inv(t.value)
    decreases |steps|
  {
    if steps == [] then Some(s)
    else if !Enabled(s, steps[0]) then None
    else
      StepInv(s, steps[0]);
      Exec(Apply(s, steps[0]), steps[1..])
  }

  /** The server after the run `steps`. */
  ghost predicate Reached(steps: seq<Step>, s: Server) {
    InitInv();
    Exec(Init(), steps) == Some(s)
  }

  /** In every run each reply carries the tag of the request it answers, and no request is answered twice. */
  lemma {:induction false} AnsweredOnce(steps: seq<Step>, s: Server, i: nat)
    requires Reached(steps, s) && i < |s.out|
    ensures s.out[i].req < |s.reqs| && s.out[i].tag == s.reqs[s.out[i].req].tag
    ensures forall j: nat :: j < |s.out| && s.out[j].req == s.out[i].req ==> j == i
  {
    InitInv();
    assert Inv(s) && OutOk(s, i);
  }

  /** An accepted request without a reply is the one its tag maps to, up to the moment the tag is dropped. */
  lemma {:induction false} TagNamesUnanswered(steps: seq<Step>, s: Server, r: nat)
    requires Reached(steps, s) && r < |s.reqs| && !s.reqs[r].fake && !InOut(s.out, r)
    ensures (s.reqs[r].tag in s.pool && s.pool[s.reqs[r].tag] == r) || (s.reqs[r].pc.Removed? && s.wlock == Some(r))
  {
    InitInv();
    assert Inv(s) && ReqOk(s, r) && WroteOk(s, r);
  }

  /** A request is freed exactly when the tag map, its process and every flush that named it have let go. */
  lemma {:induction false} FreedWhenReleased(steps: seq<Step>, s: Server, r: nat)
    requires Reached(steps, s) && r < |s.reqs| && !s.reqs[r].fake
    ensures s.reqs[r].ref == Holders(s, r)
    ensures s.reqs[r].freed <==> s.reqs[r].ref == 0
    ensures s.reqs[r].freed ==> s.reqs[r].pc.Done? && InOut(s.out, r) && s.reqs[r].oldreq == None && s.reqs[r].flush == []
  {
    InitInv();
    assert Inv(s) && RefOk(s, r) && ReqOk(s, r) && WroteOk(s, r);
  }

  /** The requests a step works on: its own, the one it finds under a tag, its old request, the flush it wakes. */
  ghost predicate Touches(s: Server, step: Step, x: nat)
    requires x < |s.reqs| && Enabled(s, step) && Works(step)
  {
    var r := step.r;
    || x == r
    || (step.Dispatch? && s.reqs[r].kind.Flush? && s.reqs[r].kind.oldtag in s.pool && s.pool[s.reqs[r].kind.oldtag] == x)
    || ((step.Respond? || step.Drop?) && s.reqs[r].oldreq == Some(x))
    || (step.Remove? && !s.reqs[r].fake && s.reqs[r].tag in s.pool && s.pool[s.reqs[r].tag] == x)
    || (step.Wake? && s.reqs[r].flush[s.reqs[r].pc.next] == x)
  }

  lemma {:induction false} FreedUntouched(s: Server, step: Step, x: nat)
    requires Inv(s) && Enabled(s, step) && Works(step) && x < |s.reqs| && s.reqs[x].freed
    ensures !Touches(s, step, x)
  {
    var r := step.r;
    assert RefOk(s, x) && ReqOk(s, r) && TagOk(s, s.reqs[r].tag);
    if s.reqs[r].kind.Flush? {
      assert TagOk(s, s.reqs[r].kind.oldtag);
    }
    if s.reqs[r].oldreq == Some(x) {
      CountedOnce(s.reqs, r, x);
    }
    if step.Wake? {
      assert FlushOk(s, r, s.reqs[r].pc.next);
    }
  }

  /** No step of any run works on a request that has been freed. */
  lemma {:induction false} NeverTouchesFreed(steps: seq<Step>, s: Server, step: Step, x: nat)
    requires Reached(steps, s) && Enabled(s, step) && Works(step) && x < |s.reqs| && Touches(s, step, x)
    ensures !s.reqs[x].freed
  {
    InitInv();
    if s.reqs[x].freed {
      FreedUntouched(s, step, x);
    }
  }

  /** A step changes only the requests it works on. */
  lemma {:induction false} OthersUnchanged(s: Server, step: Step, x: nat)
    requires Inv(s) && Enabled(s, step) && Works(step) && x < |s.reqs| && !Touches(s, step, x)
    ensures Apply(s, step).reqs[x] == s.reqs[x]
  {
    var r := step.r;
    assert ReqOk(s, r) && TagOk(s, s.reqs[r].tag);
    if s.reqs[r].kind.Flush? {
      assert TagOk(s, s.reqs[r].kind.oldtag);
    }
    if step.Wake? {
      assert FlushOk(s, r, s.reqs[r].pc.next);
    }
  }

  lemma {:induction false} CountedOnce(reqs: seq<Req>, i: nat, o: nat)
    requires i < |reqs| && reqs[i].oldreq == Some(o)
    ensures Waits(reqs, o) > 0
  {
    if i < |reqs| - 1 {
      CountedOnce(reqs[..|reqs| - 1], i, o);
    }
  }

  lemma {:induction false} RunKeepsCovered(s: Server, steps: seq<Step>, f: nat, o: nat)
    requires Inv(s) && Covered(s, f, o) && Exec(s, steps).Some?
    ensures Covered(Exec(s, steps).value, f, o)
    decreases |steps|
  {
    if steps != [] {
      StepKeepsCovered(s, steps[0], f, o);
      StepInv(s, steps[0]);
      RunKeepsCovered(Apply(s, steps[0]), steps[1..], f, o);
    }
  }
}
