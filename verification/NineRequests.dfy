/**
 * The life of a request in the 9P server library: sys/src/lib9p/srv.c and req.c.
 *
 * Several processes answer requests at once.  Between two lock operations a process touches only
 * what it alone holds, so a run of the server is a sequence of the atomic steps below, each one
 * taken by the process that is working on the named message or request.  `getreq` is cut where it
 * releases the read lock: a message is read under it and gets its request only later, while other
 * processes read on.  `respond` is cut at its lock boundaries: the per-type part (for a Tflush, the test under the old request's lock), taking the
 * write lock, dropping the tag, writing, releasing, setting `responded`, waking the flushes that
 * queued up, and the final `closereq`.
 */
module NineRequests {
  import opened Options

  /** What a request asks for, as far as other requests can tell. */
  datatype Kind = Flush(oldtag: nat) | Plain

  /** How far the processing of a request has come. */
  datatype Pc =
    | Arrived              // read by `getreq`
    | Held                 // dispatched; its handler (or whoever wakes it) will call `respond`
    | Queued               // a flush on the list of its old request
    | Dropping             // a flush about to give up its reference to the old request
    | Ready                // about to take the write lock
    | Locked | Removed | Written   // holding the write lock; tag dropped; reply written
    | Unlocked
    | Waking(next: nat)    // `responded` is set; about to wake flush number `next`
    | Calling(next: nat)   // inside `respond` for flush number `next`
    | Done

  datatype Req = Req(tag: nat, kind: Kind, fake: bool, ref: int, pc: Pc, responded: bool,
                     flush: seq<nat>, oldreq: Option<nat>, freed: bool)

  datatype Reply = Reply(tag: nat, req: nat)

  /** A message that has been read, and the request made for it, once there is one. */
  datatype Message = Message(tag: nat, kind: Kind, req: Option<nat>)

  /** Every message read, every request made, the tag map, who holds the write lock, and what has been written. */
  datatype Server = Server(read: seq<Message>, reqs: seq<Req>, pool: map<nat, nat>, wlock: Option<nat>, out: seq<Reply>)

  function Init(): Server { Server([], [], map[], None, []) }

  // ----- the steps -----

  datatype Step =
    | Read(tag: nat, kind: Kind) | Arrive(m: nat) | Dispatch(r: nat) | Respond(r: nat) | Drop(r: nat)
    | Lock(r: nat) | Remove(r: nat) | Write(r: nat) | Unlock(r: nat)
    | Mark(r: nat) | Wake(r: nat) | Return(r: nat) | Finish(r: nat)

  /** A step taken for a request that has been made. */
  predicate Works(step: Step) { !step.Read? && !step.Arrive? }

  function Set(s: Server, r: nat, q: Req): Server
    requires r < |s.reqs|
  {
    s.(reqs := s.reqs[r := q])
  }

  function At(s: Server, r: nat, pc: Pc): Server
    requires r < |s.reqs|
  {
    Set(s, r, s.reqs[r].(pc := pc))
  }

  /** `closereq`: let go of one reference; the last one frees the request. */
  function Close(s: Server, r: nat): Server
    requires r < |s.reqs|
  {
    var q := s.reqs[r];
    Set(s, r, q.(ref := q.ref - 1, freed := q.ref == 1))
  }

  /** The part of `getreq` under the read lock. */
  function ApplyRead(s: Server, tag: nat, kind: Kind): Server { s.(read := s.read + [Message(tag, kind, None)]) }

  /** The rest of `getreq`: a new request, or, when its tag is taken, a fake one that only carries the error. */
  function ApplyArrive(s: Server, m: nat): Server
    requires m < |s.read|
  {
    var tag, kind := s.read[m].tag, s.read[m].kind;
    var s0 := s.(read := s.read[m := s.read[m].(req := Some(|s.reqs|))]);
    if tag in s.pool then
      s0.(reqs := s.reqs + [Req(tag, kind, true, 1, Ready, false, [], None, false)])
    else
      s0.(reqs := s.reqs + [Req(tag, kind, false, 2, Arrived, false, [], None, false)], pool := s.pool[tag := |s.reqs|])
  }

  /** The `s` function of the message type: a Tflush looks its old request up. */
  function ApplyDispatch(s: Server, r: nat): Server
    requires r < |s.reqs|
    requires s.reqs[r].kind.Flush? && s.reqs[r].kind.oldtag in s.pool ==> s.pool[s.reqs[r].kind.oldtag] < |s.reqs|
  {
    var s1 :=
      if s.reqs[r].kind.Flush? && s.reqs[r].kind.oldtag in s.pool then
        var o := s.pool[s.reqs[r].kind.oldtag];
        var s0 := Set(s, o, s.reqs[o].(ref := s.reqs[o].ref + 1));
        Set(s0, r, s0.reqs[r].(oldreq := Some(o)))
      else s;
    At(s1, r, Held)
  }

  /** The `r` function of the message type: `rflush` queues up behind an old request that has not responded. */
  function ApplyRespond(s: Server, r: nat): Server
    requires r < |s.reqs| && (s.reqs[r].oldreq.Some? ==> s.reqs[r].oldreq.value < |s.reqs|)
  {
    match s.reqs[r].oldreq
    case None => At(s, r, Ready)
    case Some(o) =>
      if s.reqs[o].responded then At(s, r, Dropping)
      else
        var s0 := Set(s, o, s.reqs[o].(flush := s.reqs[o].flush + [r]));
        At(s0, r, Queued)
  }

  function ApplyDrop(s: Server, r: nat): Server
    requires r < |s.reqs| && s.reqs[r].oldreq.Some? && s.reqs[r].oldreq.value < |s.reqs|
  {
    var s0 := Close(s, s.reqs[r].oldreq.value);
    Set(s0, r, s0.reqs[r].(oldreq := None, pc := Ready))
  }

  /** `closereq(removereq(...))`: drop whatever the tag maps to. */
  function ApplyRemove(s: Server, r: nat): Server
    requires r < |s.reqs| && (s.reqs[r].tag in s.pool ==> s.pool[s.reqs[r].tag] < |s.reqs|)
  {
    var t := s.reqs[r].tag;
    var s0 :=
      if s.reqs[r].fake || t !in s.pool then s
      else Close(s, s.pool[t]).(pool := s.pool - {t});
    At(s0, r, Removed)
  }

  function ApplyWrite(s: Server, r: nat): Server
    requires r < |s.reqs|
  {
    At(s, r, Written).(out := s.out + [Reply(s.reqs[r].tag, r)])
  }

  function ApplyMark(s: Server, r: nat): Server
    requires r < |s.reqs|
  {
    Set(s, r, s.reqs[r].(responded := true, pc := Waking(0)))
  }

  /** Call `respond` for the next flush on the list. */
  function ApplyWake(s: Server, r: nat): Server
    requires r < |s.reqs| && s.reqs[r].pc.Waking? && s.reqs[r].pc.next < |s.reqs[r].flush|
    requires s.reqs[r].flush[s.reqs[r].pc.next] < |s.reqs|
  {
    var i := s.reqs[r].pc.next;
    At(At(s, r, Calling(i)), s.reqs[r].flush[i], Held)
  }

  function ApplyFinish(s: Server, r: nat): Server
    requires r < |s.reqs|
  {
    var s0 := Set(s, r, s.reqs[r].(flush := [], pc := Done));
    if s.reqs[r].fake then Set(s0, r, s0.reqs[r].(freed := true)) else Close(s0, r)
  }

  ghost predicate Enabled(s: Server, step: Step) {
    match step
    case Read(tag, kind) => true
    case Arrive(m) => m < |s.read| && s.read[m].req.None? && (s.read[m].tag in s.pool ==> !s.read[m].kind.Flush?)
    case Dispatch(r) => r < |s.reqs| && s.reqs[r].pc == Arrived
    case Respond(r) => r < |s.reqs| && s.reqs[r].pc == Held
    case Drop(r) => r < |s.reqs| && s.reqs[r].pc == Dropping
    case Lock(r) => r < |s.reqs| && s.reqs[r].pc == Ready && s.wlock == None
    case Remove(r) => r < |s.reqs| && s.reqs[r].pc == Locked
    case Write(r) => r < |s.reqs| && s.reqs[r].pc == Removed
    case Unlock(r) => r < |s.reqs| && s.reqs[r].pc == Written
    case Mark(r) => r < |s.reqs| && s.reqs[r].pc == Unlocked
    case Wake(r) => r < |s.reqs| && s.reqs[r].pc.Waking? && s.reqs[r].pc.next < |s.reqs[r].flush|
    case Return(r) => r < |s.reqs| && s.reqs[r].pc.Calling? && CallReturned(s, r)
    case Finish(r) => r < |s.reqs| && s.reqs[r].pc.Waking? && s.reqs[r].pc.next == |s.reqs[r].flush|
  }

  ghost predicate CallReturned(s: Server, r: nat)
    requires r < |s.reqs| && s.reqs[r].pc.Calling?
  {
    var i := s.reqs[r].pc.next;
    i < |s.reqs[r].flush| && s.reqs[r].flush[i] < |s.reqs| && s.reqs[s.reqs[r].flush[i]].pc == Done
  }

  ghost function Apply(s: Server, step: Step): (t: Server)
    requires Shape(s) && Enabled(s, step)
    ensures |t.reqs| == |s.reqs| + if step.Arrive? then 1 else 0
  {
    match step
    case Read(tag, kind) => ApplyRead(s, tag, kind)
    case Arrive(m) => ApplyArrive(s, m)
    case Dispatch(r) => (if s.reqs[r].kind.Flush? then assert TagOk(s, s.reqs[r].kind.oldtag); ApplyDispatch(s, r) else ApplyDispatch(s, r))
    case Respond(r) => assert ReqOk(s, r); ApplyRespond(s, r)
    case Drop(r) => assert ReqOk(s, r); ApplyDrop(s, r)
    case Lock(r) => At(s, r, Locked).(wlock := Some(r))
    case Remove(r) => assert TagOk(s, s.reqs[r].tag); ApplyRemove(s, r)
    case Write(r) => ApplyWrite(s, r)
    case Unlock(r) => At(s, r, Unlocked).(wlock := None)
    case Mark(r) => ApplyMark(s, r)
    case Wake(r) => assert FlushOk(s, r, s.reqs[r].pc.next); ApplyWake(s, r)
    case Return(r) => At(s, r, Waking(s.reqs[r].pc.next + 1))
    case Finish(r) => ApplyFinish(s, r)
  }

  // ----- what every step keeps -----

  /** The reply is still to come, and the tag still belongs to the request. */
  predicate Unremoved(pc: Pc) { pc.Arrived? || pc.Held? || pc.Queued? || pc.Dropping? || pc.Ready? || pc.Locked? }

  predicate HasLock(pc: Pc) { pc.Locked? || pc.Removed? || pc.Written? }

  predicate Answered(pc: Pc) { pc.Written? || pc.Unlocked? || Awake(pc) }

  predicate Awake(pc: Pc) { pc.Waking? || pc.Calling? || pc.Done? }

  /** The tag map holds exactly the requests whose tag has not been dropped. */
  ghost predicate TagOk(s: Server, t: nat) {
    t in s.pool ==> s.pool[t] < |s.reqs| && var q := s.reqs[s.pool[t]]; q.tag == t && !q.fake && Unremoved(q.pc)
  }

  ghost predicate ReqOk(s: Server, r: nat)
    requires r < |s.reqs|
  {
    var q := s.reqs[r];
    && (!q.fake && Unremoved(q.pc) ==> q.tag in s.pool && s.pool[q.tag] == r)
    && (s.wlock == Some(r) <==> HasLock(q.pc))
    && (q.responded <==> Awake(q.pc))
    && (q.fake ==> q.oldreq == None && q.flush == [] && !q.pc.Arrived? && !q.pc.Held? && !q.pc.Queued? && !q.pc.Dropping?)
    && (q.oldreq.Some? ==> q.kind.Flush? && OldOk(s, r))
    && (q.pc.Queued? || q.pc.Dropping? ==> q.oldreq.Some?)
    && (q.pc.Queued? ==> InList(s, q.oldreq.value, r))
    && (q.pc.Waking? ==> q.pc.next <= |q.flush|)
    && (q.pc.Calling? ==> q.pc.next < |q.flush|)
    && (q.pc.Done? ==> q.flush == [])
    && (forall i, j :: 0 <= i < j < |q.flush| ==> q.flush[i] != q.flush[j])
  }

  ghost predicate OldOk(s: Server, r: nat)
    requires r < |s.reqs| && s.reqs[r].oldreq.Some?
  {
    var o := s.reqs[r].oldreq.value;
    && (s.reqs[r].pc.Held? || s.reqs[r].pc.Queued? || s.reqs[r].pc.Dropping?)
    && o < |s.reqs| && !s.reqs[o].fake
    && (s.reqs[r].pc.Dropping? ==> s.reqs[o].responded)
  }

  /** The flush number from which the list of `o` is still asleep. */
  function Asleep(q: Req): nat {
    if q.pc.Waking? then q.pc.next else if q.pc.Calling? then q.pc.next + 1 else 0
  }

  /** Flush `f` sleeps on the list of `o`. */
  ghost predicate InList(s: Server, o: nat, f: nat) {
    o < |s.reqs| && exists k :: Asleep(s.reqs[o]) <= k < |s.reqs[o].flush| && s.reqs[o].flush[k] == f
  }

  /** Entry `k` on the flush list of `o`: asleep, being answered, or done. */
  ghost predicate FlushOk(s: Server, o: nat, k: nat)
    requires o < |s.reqs| && k < |s.reqs[o].flush|
  {
    var f := s.reqs[o].flush[k];
    && f < |s.reqs| && !s.reqs[f].fake
    && (k >= Asleep(s.reqs[o]) ==> s.reqs[f].pc.Queued? && s.reqs[f].oldreq == Some(o))
    && (k < Asleep(s.reqs[o]) ==> !s.reqs[f].pc.Queued? && !s.reqs[f].pc.Arrived? && (s.reqs[f].pc.Held? ==> s.reqs[f].oldreq == Some(o)))
    && (k < Asleep(s.reqs[o]) && !(s.reqs[o].pc.Calling? && k == s.reqs[o].pc.next) ==> s.reqs[f].pc.Done?)
  }

  ghost predicate OutOk(s: Server, i: nat)
    requires i < |s.out|
  {
    s.out[i].req < |s.reqs| && var q := s.reqs[s.out[i].req]; q.tag == s.out[i].tag && Answered(q.pc)
  }

  ghost predicate InOut(out: seq<Reply>, r: nat) { exists i :: 0 <= i < |out| && out[i].req == r }

  ghost predicate WroteOk(s: Server, r: nat)
    requires r < |s.reqs|
  {
    Answered(s.reqs[r].pc) ==> InOut(s.out, r)
  }

  ghost predicate Shape(s: Server) {
    && (forall t: nat {:trigger TagOk(s, t)} :: TagOk(s, t))
    && (forall r: nat {:trigger ReqOk(s, r)} :: r < |s.reqs| ==> ReqOk(s, r))
    && (forall o: nat, k: nat {:trigger FlushOk(s, o, k)} :: o < |s.reqs| && k < |s.reqs[o].flush| ==> FlushOk(s, o, k))
    && (s.wlock.Some? ==> s.wlock.value < |s.reqs|)
  }

  /** The replies written: each carries the tag of its request, none is written twice, none is missing. */
  ghost predicate Replies(s: Server) {
    && (forall i: nat {:trigger OutOk(s, i)} :: i < |s.out| ==> OutOk(s, i))
    && (forall r: nat {:trigger WroteOk(s, r)} :: r < |s.reqs| ==> WroteOk(s, r))
    && (forall i, j :: 0 <= i < j < |s.out| ==> s.out[i].req != s.out[j].req)
  }

  // ----- shape -----

  /** Only reference counts and the messages read differ. */
  ghost predicate SameButRefs(s: Server, t: Server) {
    && |s.reqs| == |t.reqs| && s.pool == t.pool && s.wlock == t.wlock && s.out == t.out
    && forall r {:trigger t.reqs[r]} :: 0 <= r < |s.reqs| ==> t.reqs[r] == s.reqs[r].(ref := t.reqs[r].ref, freed := t.reqs[r].freed)
  }

  lemma {:induction false} ShapeIgnoresRefs(s: Server, t: Server)
    requires Shape(s) && SameButRefs(s, t)
    ensures Shape(t)
  {
    forall x: nat ensures TagOk(t, x) {
      assert TagOk(s, x);
    }
    forall r: nat | r < |t.reqs| ensures ReqOk(t, r) {
      assert ReqOk(s, r);
      ReqIgnoresRefs(s, t, r);
    }
    forall o: nat, k: nat | o < |t.reqs| && k < |t.reqs[o].flush| ensures FlushOk(t, o, k) {
      assert FlushOk(s, o, k);
    }
  }

  lemma {:induction false} ReqIgnoresRefs(s: Server, t: Server, r: nat)
    requires SameButRefs(s, t) && r < |s.reqs| && ReqOk(s, r)
    ensures ReqOk(t, r)
  {
    if s.reqs[r].pc.Queued? {
      var o := s.reqs[r].oldreq.value;
      var k :| Asleep(s.reqs[o]) <= k < |s.reqs[o].flush| && s.reqs[o].flush[k] == r;
      assert t.reqs[o].flush[k] == r;
    }
  }

  /** One request moves on; no list is touched. */
  ghost predicate Moves(s: Server, t: Server, r: nat) {
    && r < |s.reqs| == |t.reqs| && t.reqs == s.reqs[r := s.reqs[r].(pc := t.reqs[r].pc, responded := t.reqs[r].responded)]
    && PcMoves(s.reqs[r], t.reqs[r])
    && (s.reqs[r].oldreq.Some? ==> t.reqs[r].pc.Dropping? && OldOk(s, r) && s.reqs[s.reqs[r].oldreq.value].responded)
    && (if !s.reqs[r].fake && Unremoved(s.reqs[r].pc) && !Unremoved(t.reqs[r].pc) then t.pool == s.pool - {s.reqs[r].tag} else t.pool == s.pool)
    && (if HasLock(t.reqs[r].pc) then t.wlock == Some(r) && (s.wlock == None || s.wlock == t.wlock)
        else t.wlock == if s.wlock == Some(r) then None else s.wlock)
  }

  ghost predicate PcMoves(q: Req, p: Req) {
    && !q.pc.Arrived? && !q.pc.Queued? && !q.pc.Done? && !p.pc.Arrived? && !p.pc.Held? && !p.pc.Queued? && !p.pc.Done?
    && (Unremoved(p.pc) ==> Unremoved(q.pc)) && (Awake(q.pc) ==> Awake(p.pc)) && (p.responded <==> Awake(p.pc))
    && (q.fake ==> !p.pc.Dropping?) && (p.pc.Dropping? ==> q.oldreq.Some?)
    && Asleep(p) == Asleep(q) && (p.pc.Waking? ==> p.pc.next <= |q.flush|) && !p.pc.Calling?
  }

  /** What `ReqOk` says of `x` needs only `x` itself, its tag, the write lock and its old request. */
  ghost predicate Untouched(s: Server, t: Server, x: nat) {
    && x < |s.reqs| <= |t.reqs| && t.reqs[x] == s.reqs[x]
    && (s.reqs[x].tag in s.pool && s.pool[s.reqs[x].tag] == x ==> s.reqs[x].tag in t.pool && t.pool[s.reqs[x].tag] == x)
    && (s.wlock == Some(x) <==> t.wlock == Some(x))
    && (s.reqs[x].oldreq.Some? && s.reqs[x].oldreq.value < |s.reqs| ==> OldKept(s, t, s.reqs[x].oldreq.value))
  }

  ghost predicate OldKept(s: Server, t: Server, o: nat)
    requires o < |s.reqs| <= |t.reqs|
  {
    && t.reqs[o].fake == s.reqs[o].fake && (s.reqs[o].responded ==> t.reqs[o].responded)
  }

  lemma {:induction false} ReqKept(s: Server, t: Server, x: nat)
    requires Untouched(s, t, x) && ReqOk(s, x)
    requires s.reqs[x].pc.Queued? ==> InList(t, s.reqs[x].oldreq.value, x)
    ensures ReqOk(t, x)
  {
  }

  lemma StillInList(s: Server, t: Server, o: nat, f: nat)
    requires InList(s, o, f) && o < |t.reqs|
    requires Asleep(t.reqs[o]) <= Asleep(s.reqs[o]) && s.reqs[o].flush <= t.reqs[o].flush
    ensures InList(t, o, f)
  {
    var k :| Asleep(s.reqs[o]) <= k < |s.reqs[o].flush| && s.reqs[o].flush[k] == f;
    assert t.reqs[o].flush[k] == f;
  }

  /** Lists only grow at the end and nobody is woken. */
  ghost predicate ListsKept(s: Server, t: Server) {
    |s.reqs| <= |t.reqs| && forall o: nat {:trigger ListKept(s, t, o)} :: o < |s.reqs| ==> ListKept(s, t, o)
  }

  ghost predicate ListKept(s: Server, t: Server, o: nat)
    requires o < |s.reqs| <= |t.reqs|
  {
    Asleep(t.reqs[o]) <= Asleep(s.reqs[o]) && s.reqs[o].flush <= t.reqs[o].flush
  }

  lemma {:induction false} OthersKept(s: Server, t: Server, touched: set<nat>)
    requires Shape(s) && ListsKept(s, t)
    requires forall x: nat {:trigger Untouched(s, t, x)} :: x < |s.reqs| && x !in touched ==> Untouched(s, t, x)
    ensures forall x: nat {:trigger ReqOk(t, x)} :: x < |s.reqs| && x !in touched ==> ReqOk(t, x)
  {
    forall x: nat | x < |s.reqs| && x !in touched ensures ReqOk(t, x) {
      assert ReqOk(s, x) && Untouched(s, t, x);
      if s.reqs[x].pc.Queued? {
        assert ListKept(s, t, s.reqs[x].oldreq.value);
        StillInList(s, t, s.reqs[x].oldreq.value, x);
      }
      ReqKept(s, t, x);
    }
  }

  lemma {:induction false} MoveKeepsReqs(s: Server, t: Server, r: nat)
    requires Shape(s) && Moves(s, t, r)
    ensures forall x: nat {:trigger ReqOk(t, x)} :: x < |t.reqs| ==> ReqOk(t, x)
  {
    assert ReqOk(s, r) && TagOk(s, s.reqs[r].tag);
    forall o: nat | o < |s.reqs| ensures ListKept(s, t, o) {
    }
    forall x: nat | x < |s.reqs| && x != r ensures Untouched(s, t, x) {
      assert ReqOk(s, x);
    }
    OthersKept(s, t, {r});
    assert ReqOk(t, r);
  }

  lemma {:induction false} MoveKeepsShape(s: Server, t: Server, r: nat)
    requires Shape(s) && Moves(s, t, r)
    requires s.reqs[r].pc.Calling? ==> CallReturned(s, r)
    ensures Shape(t)
  {
    MoveKeepsReqs(s, t, r);
    assert ReqOk(s, r);
    forall x: nat ensures TagOk(t, x) {
      assert TagOk(s, x);
    }
    forall o: nat, k: nat | o < |t.reqs| && k < |t.reqs[o].flush| ensures FlushOk(t, o, k) {
      assert FlushOk(s, o, k);
    }
  }

  lemma {:induction false} ArriveKeepsShape(s: Server, m: nat)
    requires Shape(s) && m < |s.read|
    ensures Shape(ApplyArrive(s, m))
  {
    var t := ApplyArrive(s, m);
    forall x: nat ensures TagOk(t, x) {
      assert TagOk(s, x);
    }
    forall o: nat | o < |s.reqs| ensures ListKept(s, t, o) {
    }
    forall x: nat | x < |s.reqs| ensures Untouched(s, t, x) {
    }
    OthersKept(s, t, {});
    assert ReqOk(t, |s.reqs|);
    forall o: nat, k: nat | o < |t.reqs| && k < |t.reqs[o].flush| ensures FlushOk(t, o, k) {
      assert FlushOk(s, o, k);
    }
  }

  lemma {:induction false} DispatchKeepsShape(s: Server, r: nat)
    requires Shape(s) && Enabled(s, Dispatch(r))
    ensures Shape(Apply(s, Dispatch(r)))
  {
    assert ReqOk(s, r);
    if s.reqs[r].kind.Flush? {
      assert TagOk(s, s.reqs[r].kind.oldtag);
    }
    var old1 := if s.reqs[r].kind.Flush? && s.reqs[r].kind.oldtag in s.pool then Some(s.pool[s.reqs[r].kind.oldtag]) else None;
    var t := Set(s, r, s.reqs[r].(oldreq := old1, pc := Held));
    LookupKeepsShape(s, t, r, old1);
    ShapeIgnoresRefs(t, Apply(s, Dispatch(r)));
  }

  lemma {:induction false} LookupKeepsShape(s: Server, t: Server, r: nat, old1: Option<nat>)
    requires Shape(s) && Enabled(s, Dispatch(r)) && t == Set(s, r, s.reqs[r].(oldreq := old1, pc := Held))
    requires old1.Some? ==> s.reqs[r].kind.Flush? && old1.value < |s.reqs| && !s.reqs[old1.value].fake
    ensures Shape(t)
  {
    assert ReqOk(s, r);
    forall x: nat ensures TagOk(t, x) {
      assert TagOk(s, x);
    }
    forall o: nat | o < |s.reqs| ensures ListKept(s, t, o) {
    }
    forall x: nat | x < |s.reqs| && x != r ensures Untouched(s, t, x) {
    }
    OthersKept(s, t, {r});
    assert ReqOk(t, r);
    forall o: nat, k: nat | o < |t.reqs| && k < |t.reqs[o].flush| ensures FlushOk(t, o, k) {
      assert FlushOk(s, o, k);
    }
  }

  /** A flush queues up behind an old request that has not responded. */
  ghost predicate Queues(s: Server, t: Server, r: nat, o: nat) {
    && Enabled(s, Respond(r)) && s.reqs[r].oldreq == Some(o) && o < |s.reqs| && !s.reqs[o].responded
    && t == ApplyRespond(s, r)
  }

  lemma {:induction false} QueueOld(s: Server, t: Server, r: nat, o: nat)
    requires Shape(s) && Queues(s, t, r, o) && o != r
    ensures ReqOk(t, o)
  {
    assert ReqOk(s, r) && ReqOk(s, o);
    forall k: nat | k < |s.reqs[o].flush| ensures s.reqs[o].flush[k] != r {
      assert FlushOk(s, o, k);
    }
    if s.reqs[o].pc.Queued? {
      StillInList(s, t, s.reqs[o].oldreq.value, o);
    }
  }

  lemma {:induction false} QueueNew(s: Server, t: Server, r: nat, o: nat)
    requires Shape(s) && Queues(s, t, r, o)
    ensures ReqOk(t, r)
  {
    assert ReqOk(s, r) && ReqOk(s, o);
    forall k: nat | k < |s.reqs[o].flush| ensures s.reqs[o].flush[k] != r {
      assert FlushOk(s, o, k);
    }
    assert t.reqs[o].flush[|s.reqs[o].flush|] == r;
    assert InList(t, o, r);
  }

  lemma {:induction false} QueueKeepsReqs(s: Server, t: Server, r: nat, o: nat)
    requires Shape(s) && Queues(s, t, r, o)
    ensures forall x: nat {:trigger ReqOk(t, x)} :: x < |t.reqs| ==> ReqOk(t, x)
  {
    forall p: nat | p < |s.reqs| ensures ListKept(s, t, p) {
    }
    forall x: nat | x < |s.reqs| && x != r && x != o ensures Untouched(s, t, x) {
    }
    OthersKept(s, t, {r, o});
    QueueNew(s, t, r, o);
    if o != r {
      QueueOld(s, t, r, o);
    }
  }

  lemma {:induction false} QueueKeepsShape(s: Server, t: Server, r: nat, o: nat)
    requires Shape(s) && Queues(s, t, r, o)
    ensures Shape(t)
  {
    QueueKeepsReqs(s, t, r, o);
    assert ReqOk(s, r) && ReqOk(s, o);
    forall x: nat ensures TagOk(t, x) {
      assert TagOk(s, x);
    }
    forall p: nat, k: nat | p < |t.reqs| && k < |t.reqs[p].flush| ensures FlushOk(t, p, k) {
      if k < |s.reqs[p].flush| {
        assert FlushOk(s, p, k);
      }
    }
  }

  lemma {:induction false} WakeKeepsReqs(s: Server, t: Server, r: nat)
    requires Shape(s) && Enabled(s, Wake(r)) && t == Apply(s, Wake(r))
    ensures forall x: nat {:trigger ReqOk(t, x)} :: x < |t.reqs| ==> ReqOk(t, x)
  {
    var i := s.reqs[r].pc.next;
    var f := s.reqs[r].flush[i];
    assert ReqOk(s, r) && FlushOk(s, r, i);
    WakeWoken(s, t, r);
    forall x: nat | x < |t.reqs| && x != r && x != f ensures ReqOk(t, x) {
      assert ReqOk(s, x) && Untouched(s, t, x);
      if s.reqs[x].pc.Queued? {
        SleepsOn(s, t, r, i, s.reqs[x].oldreq.value, x);
      }
      ReqKept(s, t, x);
    }
  }

  lemma {:induction false} WakeWoken(s: Server, t: Server, r: nat)
    requires Shape(s) && Enabled(s, Wake(r)) && t == Apply(s, Wake(r))
    ensures ReqOk(t, r)
    ensures s.reqs[r].flush[s.reqs[r].pc.next] < |s.reqs| && ReqOk(t, s.reqs[r].flush[s.reqs[r].pc.next])
  {
    var f := s.reqs[r].flush[s.reqs[r].pc.next];
    assert ReqOk(s, r) && FlushOk(s, r, s.reqs[r].pc.next) && ReqOk(s, f);
  }

  lemma {:induction false} WakeKeepsShape(s: Server, r: nat)
    requires Shape(s) && Enabled(s, Wake(r))
    ensures Shape(Apply(s, Wake(r)))
  {
    var t := Apply(s, Wake(r));
    var i := s.reqs[r].pc.next;
    var f := s.reqs[r].flush[i];
    WakeKeepsReqs(s, t, r);
    assert ReqOk(s, r) && FlushOk(s, r, i) && ReqOk(s, f);
    forall x: nat ensures TagOk(t, x) {
      assert TagOk(s, x);
    }
    forall p: nat, k: nat | p < |t.reqs| && k < |t.reqs[p].flush| ensures FlushOk(t, p, k) {
      assert FlushOk(s, p, k);
    }
  }

  lemma SleepsOn(s: Server, t: Server, r: nat, i: nat, o: nat, x: nat)
    requires InList(s, o, x) && r < |s.reqs| == |t.reqs| && s.reqs[r].pc == Waking(i) && i < |s.reqs[r].flush| && s.reqs[r].flush[i] != x
    requires t.reqs[r].pc == Calling(i) && t.reqs[o].flush == s.reqs[o].flush && (o != r ==> Asleep(t.reqs[o]) <= Asleep(s.reqs[o]))
    ensures InList(t, o, x)
  {
    var k :| Asleep(s.reqs[o]) <= k < |s.reqs[o].flush| && s.reqs[o].flush[k] == x;
    assert t.reqs[o].flush[k] == x;
  }

  lemma {:induction false} FinishKeepsReqs(s: Server, t: Server, r: nat)
    requires Shape(s) && Enabled(s, Finish(r)) && t == Set(s, r, s.reqs[r].(flush := [], pc := Done))
    ensures forall x: nat {:trigger ReqOk(t, x)} :: x < |t.reqs| ==> ReqOk(t, x)
  {
    assert ReqOk(s, r);
    forall x: nat | x < |t.reqs| && x != r ensures ReqOk(t, x) {
      assert ReqOk(s, x) && Untouched(s, t, x);
      if s.reqs[x].pc.Queued? {
        StillInList(s, t, s.reqs[x].oldreq.value, x);
      }
      ReqKept(s, t, x);
    }
    assert ReqOk(t, r);
  }

  lemma {:induction false} FinishKeepsShape(s: Server, r: nat)
    requires Shape(s) && Enabled(s, Finish(r))
    ensures Shape(Apply(s, Finish(r)))
  {
    var t := Set(s, r, s.reqs[r].(flush := [], pc := Done));
    FinishKeepsReqs(s, t, r);
    assert ReqOk(s, r);
    forall x: nat ensures TagOk(t, x) {
      assert TagOk(s, x);
    }
    forall p: nat, k: nat | p < |t.reqs| && k < |t.reqs[p].flush| ensures FlushOk(t, p, k) {
      assert FlushOk(s, p, k);
    }
    ShapeIgnoresRefs(t, Apply(s, Finish(r)));
  }

  lemma {:induction false} DropKeepsShape(s: Server, r: nat)
    requires Shape(s) && Enabled(s, Drop(r))
    ensures Shape(Apply(s, Drop(r)))
  {
    assert ReqOk(s, r);
    var t := Set(s, r, s.reqs[r].(oldreq := None, pc := Ready));
    forall x: nat ensures TagOk(t, x) {
      assert TagOk(s, x);
    }
    forall p: nat | p < |s.reqs| ensures ListKept(s, t, p) {
    }
    forall x: nat | x < |s.reqs| && x != r ensures Untouched(s, t, x) {
    }
    OthersKept(s, t, {r});
    assert ReqOk(t, r);
    forall p: nat, k: nat | p < |t.reqs| && k < |t.reqs[p].flush| ensures FlushOk(t, p, k) {
      assert FlushOk(s, p, k);
    }
    ShapeIgnoresRefs(t, Apply(s, Drop(r)));
  }

  lemma {:induction false} RemoveKeepsShape(s: Server, r: nat)
    requires Shape(s) && Enabled(s, Remove(r))
    ensures Shape(Apply(s, Remove(r)))
  {
    assert ReqOk(s, r) && TagOk(s, s.reqs[r].tag);
    var s0 := if s.reqs[r].fake then s else Close(s, r);
    ShapeIgnoresRefs(s, s0);
    assert ReqOk(s0, r);
    MoveKeepsShape(s0, Apply(s, Remove(r)), r);
  }

  lemma {:induction false} RespondKeepsShape(s: Server, r: nat)
    requires Shape(s) && Enabled(s, Respond(r))
    ensures Shape(Apply(s, Respond(r)))
  {
    assert ReqOk(s, r);
    if s.reqs[r].oldreq.Some? && !s.reqs[s.reqs[r].oldreq.value].responded {
      QueueKeepsShape(s, Apply(s, Respond(r)), r, s.reqs[r].oldreq.value);
    } else {
      MoveKeepsShape(s, Apply(s, Respond(r)), r);
    }
  }

  /** The steps that only move one request on. */
  lemma {:induction false} MovesKeepShape(s: Server, step: Step)
    requires Shape(s) && Enabled(s, step) && (step.Lock? || step.Write? || step.Unlock? || step.Mark?)
    ensures Shape(Apply(s, step))
  {
    assert ReqOk(s, step.r);
    MoveKeepsShape(s, Apply(s, step), step.r);
  }

  lemma {:induction false} ReturnKeepsShape(s: Server, r: nat)
    requires Shape(s) && Enabled(s, Return(r))
    ensures Shape(Apply(s, Return(r)))
  {
    assert ReqOk(s, r);
    MoveKeepsShape(s, Apply(s, Return(r)), r);
  }

  lemma {:induction false} StepKeepsShape(s: Server, step: Step)
    requires Shape(s) && Enabled(s, step)
    ensures Shape(Apply(s, step))
  {
    match step {
      case Read(tag, kind) => ShapeIgnoresRefs(s, ApplyRead(s, tag, kind));
      case Arrive(m) => ArriveKeepsShape(s, m);
      case Dispatch(r) => DispatchKeepsShape(s, r);
      case Respond(r) => RespondKeepsShape(s, r);
      case Drop(r) => DropKeepsShape(s, r);
      case Remove(r) => RemoveKeepsShape(s, r);
      case Wake(r) => WakeKeepsShape(s, r);
      case Finish(r) => FinishKeepsShape(s, r);
      case Return(r) => ReturnKeepsShape(s, r);
      case _ => MovesKeepShape(s, step);
    }
  }
}
