/**
 * Fids in the 9P server library: sys/src/lib9p/fid.c and the `s` and `r` functions of srv.c that
 * allocate, look up, remove and close them.  A request keeps its fids in three fields until it is
 * freed.  The fid map is only touched under the server lock; auth, attach and walk handlers answer
 * before that lock is released, so a message type's use of the map is one step.
 */
module NineFids {
  import opened Options
  import opened NineRequests
  import opened NineRuns

  datatype Fid = Fid(num: nat, ref: int, freed: bool)

  /** The fid, newfid and afid fields of a request. */
  datatype Holding = Holding(fid: Option<nat>, newfid: Option<nat>, afid: Option<nat>)

  const EMPTY := Holding(None, None, None)

  /** What a message does with fids: clunk and remove take the fid out of the map, open, create, read,
      write, stat and wstat look it up. */
  datatype Msg = Auth(afid: nat) | Attach(fid: nat, auth: Option<nat>) | Walk(fid: nat, newfid: nat) | Take(fid: nat) | Use(fid: nat) | NoFid

  /** How the handler answers: it refuses before any new fid is made, it fails (for a walk: or stops short), it succeeds. */
  datatype Outcome = Refused | Failed | Good

  datatype Fids = Fids(msgs: seq<Msg>, held: seq<Holding>, fids: seq<Fid>, pool: map<nat, nat>)

  // ----- counting -----

  ghost function One(h: Option<nat>, f: nat): nat { if h == Some(f) then 1 else 0 }

  ghost function Hold(h: Holding, f: nat): nat { One(h.fid, f) + One(h.newfid, f) + One(h.afid, f) }

  ghost function Holds(held: seq<Holding>, f: nat): nat {
    if held == [] then 0 else Holds(held[..|held| - 1], f) + Hold(held[|held| - 1], f)
  }

  lemma {:induction false} HoldsUpdate(held: seq<Holding>, i: nat, h: Holding, f: nat)
    requires i < |held|
    ensures Holds(held[i := h], f) == Holds(held, f) - Hold(held[i], f) + Hold(h, f)
  {
    var n := |held| - 1;
    var u := held[i := h];
    if i < n {
      assert u[..n] == held[..n][i := h];
      HoldsUpdate(held[..n], i, h, f);
    } else {
      assert u[..n] == held[..n];
    }
  }

  lemma {:induction false} HoldsNone(held: seq<Holding>, f: nat)
    requires forall i :: 0 <= i < |held| ==> Hold(held[i], f) == 0
    ensures Holds(held, f) == 0
  {
    if held != [] {
      HoldsNone(held[..|held| - 1], f);
    }
  }

  lemma {:induction false} HoldsSome(held: seq<Holding>, i: nat, f: nat)
    requires i < |held|
    ensures Holds(held, f) >= Hold(held[i], f)
  {
    if i < |held| - 1 {
      HoldsSome(held[..|held| - 1], i, f);
    }
  }

  /** Who refers to fid `f`: the fid map and the fields of the requests. */
  ghost function FidHolders(s: Fids, f: nat): nat
    requires f < |s.fids|
  {
    (if s.fids[f].num in s.pool && s.pool[s.fids[f].num] == f then 1 else 0) + Holds(s.held, f)
  }

  // ----- the invariant -----

  ghost predicate FidOk(s: Fids, f: nat)
    requires f < |s.fids|
  {
    s.fids[f].ref == FidHolders(s, f) && (s.fids[f].freed <==> FidHolders(s, f) == 0)
  }

  ghost predicate NumOk(s: Fids, n: nat) { n in s.pool ==> s.pool[n] < |s.fids| && s.fids[s.pool[n]].num == n }

  ghost predicate Known(s: Fids, h: Option<nat>) { h.Some? ==> h.value < |s.fids| }

  ghost predicate HeldOk(s: Fids, r: nat)
    requires r < |s.held|
  {
    Known(s, s.held[r].fid) && Known(s, s.held[r].newfid) && Known(s, s.held[r].afid)
  }

  ghost predicate FidsOk(s: Fids) {
    && |s.msgs| == |s.held|
    && (forall f: nat {:trigger FidOk(s, f)} :: f < |s.fids| ==> FidOk(s, f))
    && (forall n: nat {:trigger NumOk(s, n)} :: NumOk(s, n))
    && (forall r: nat {:trigger HeldOk(s, r)} :: r < |s.held| ==> HeldOk(s, r))
  }

  // ----- the operations -----

  datatype Slot = FidSlot | NewSlot | AuthSlot

  function Get(h: Holding, slot: Slot): Option<nat> {
    match slot case FidSlot => h.fid case NewSlot => h.newfid case AuthSlot => h.afid
  }

  function Put(h: Holding, slot: Slot, f: Option<nat>): Holding {
    match slot case FidSlot => h.(fid := f) case NewSlot => h.(newfid := f) case AuthSlot => h.(afid := f)
  }

  function Assign(s: Fids, r: nat, slot: Slot, f: Option<nat>): Fids
    requires r < |s.held|
  {
    s.(held := s.held[r := Put(s.held[r], slot, f)])
  }

  function Count(s: Fids, f: nat, ref: int): Fids
    requires f < |s.fids|
  {
    s.(fids := s.fids[f := s.fids[f].(ref := ref, freed := ref == 0)])
  }

  /** `allocfid`, into a field of the request: one reference for the map, one for the request. */
  function Alloc(s: Fids, r: nat, slot: Slot, n: nat): Fids
    requires r < |s.held|
  {
    Assign(s.(fids := s.fids + [Fid(n, 2, false)], pool := s.pool[n := |s.fids|]), r, slot, Some(|s.fids|))
  }

  /** `lookupfid`, into a field of the request. */
  function Lookup(s: Fids, r: nat, slot: Slot, n: nat): Fids
    requires r < |s.held| && n in s.pool && s.pool[n] < |s.fids|
  {
    Assign(Count(s, s.pool[n], s.fids[s.pool[n]].ref + 1), r, slot, Some(s.pool[n]))
  }

  /** `removefid`, into a field of the request: the reference of the map goes with it. */
  function TakeOut(s: Fids, r: nat, slot: Slot, n: nat): Fids
    requires r < |s.held| && n in s.pool
  {
    Assign(s.(pool := s.pool - {n}), r, slot, Some(s.pool[n]))
  }

  /** `closefid(removefid(...))`: a fid that was made for a request that then failed. */
  function Discard(s: Fids, n: nat): Fids
    requires n in s.pool && s.pool[n] < |s.fids|
  {
    Count(s, s.pool[n], s.fids[s.pool[n]].ref - 1).(pool := s.pool - {n})
  }

  /** `closefid` on a field of a request being freed. */
  function CloseSlot(s: Fids, r: nat, slot: Slot): Fids
    requires r < |s.held| && Known(s, Get(s.held[r], slot))
  {
    match Get(s.held[r], slot)
    case None => s
    case Some(f) => Assign(Count(s, f, s.fids[f].ref - 1), r, slot, None)
  }

  lemma PutHold(h: Holding, slot: Slot, f: Option<nat>, g: nat)
    ensures Hold(Put(h, slot, f), g) == Hold(h, g) - One(Get(h, slot), g) + One(f, g)
  {
  }

  lemma {:induction false} AssignHolds(s: Fids, r: nat, slot: Slot, f: Option<nat>, g: nat)
    requires r < |s.held|
    ensures Holds(Assign(s, r, slot, f).held, g) == Holds(s.held, g) - One(Get(s.held[r], slot), g) + One(f, g)
  {
    HoldsUpdate(s.held, r, Put(s.held[r], slot, f), g);
    PutHold(s.held[r], slot, f, g);
  }

  lemma {:induction false} AllocKeeps(s: Fids, r: nat, slot: Slot, n: nat)
    requires FidsOk(s) && r < |s.held| && n !in s.pool && Get(s.held[r], slot) == None
    ensures FidsOk(Alloc(s, r, slot, n))
  {
    var t := Alloc(s, r, slot, n);
    forall f: nat | f < |t.fids| ensures FidOk(t, f) {
      AssignHolds(s, r, slot, Some(|s.fids|), f);
      if f < |s.fids| {
        assert FidOk(s, f);
      } else {
        Unheld(s, f);
      }
    }
    forall m: nat ensures NumOk(t, m) {
      assert NumOk(s, m);
    }
    forall x: nat | x < |t.held| ensures HeldOk(t, x) {
      assert HeldOk(s, x);
    }
  }

  lemma {:induction false} Unheld(s: Fids, f: nat)
    requires FidsOk(s) && f >= |s.fids|
    ensures Holds(s.held, f) == 0
  {
    forall i: nat | i < |s.held| ensures Hold(s.held[i], f) == 0 {
      assert HeldOk(s, i);
    }
    HoldsNone(s.held, f);
  }

  lemma {:induction false} LookupKeeps(s: Fids, r: nat, slot: Slot, n: nat)
    requires FidsOk(s) && r < |s.held| && n in s.pool && Get(s.held[r], slot) == None && NumOk(s, n)
    ensures FidsOk(Lookup(s, r, slot, n))
  {
    var t := Lookup(s, r, slot, n);
    forall f: nat | f < |t.fids| ensures FidOk(t, f) {
      assert FidOk(s, f);
      AssignHolds(s, r, slot, Some(s.pool[n]), f);
    }
    forall m: nat ensures NumOk(t, m) {
      assert NumOk(s, m);
    }
    forall x: nat | x < |t.held| ensures HeldOk(t, x) {
      assert HeldOk(s, x);
    }
  }

  lemma {:induction false} TakeOutKeeps(s: Fids, r: nat, slot: Slot, n: nat)
    requires FidsOk(s) && r < |s.held| && n in s.pool && Get(s.held[r], slot) == None
    ensures FidsOk(TakeOut(s, r, slot, n))
  {
    var t := TakeOut(s, r, slot, n);
    assert NumOk(s, n);
    forall f: nat | f < |t.fids| ensures FidOk(t, f) {
      assert FidOk(s, f);
      AssignHolds(s, r, slot, Some(s.pool[n]), f);
    }
    forall m: nat ensures NumOk(t, m) {
      assert NumOk(s, m);
    }
    forall x: nat | x < |t.held| ensures HeldOk(t, x) {
      assert HeldOk(s, x);
    }
  }

  lemma {:induction false} DiscardKeeps(s: Fids, n: nat)
    requires FidsOk(s) && n in s.pool && NumOk(s, n)
    ensures FidsOk(Discard(s, n))
  {
    var t := Discard(s, n);
    forall f: nat | f < |t.fids| ensures FidOk(t, f) {
      assert FidOk(s, f);
    }
    forall m: nat ensures NumOk(t, m) {
      assert NumOk(s, m);
    }
    forall x: nat | x < |t.held| ensures HeldOk(t, x) {
      assert HeldOk(s, x);
    }
  }

  lemma {:induction false} CloseSlotKeeps(s: Fids, r: nat, slot: Slot)
    requires FidsOk(s) && r < |s.held| && HeldOk(s, r)
    ensures FidsOk(CloseSlot(s, r, slot)) && CloseSlot(s, r, slot).held == s.held[r := Put(s.held[r], slot, None)]
  {
    var t := CloseSlot(s, r, slot);
    forall f: nat | f < |t.fids| ensures FidOk(t, f) {
      assert FidOk(s, f);
      AssignHolds(s, r, slot, None, f);
    }
    forall m: nat ensures NumOk(t, m) {
      assert NumOk(s, m);
    }
    forall x: nat | x < |t.held| ensures HeldOk(t, x) {
      assert HeldOk(s, x);
    }
  }

  // ----- the message types -----

  /** `sauth` and `rauth`. */
  ghost function DoAuth(s: Fids, r: nat, n: nat, out: Outcome): (t: Fids)
    requires FidsOk(s) && r < |s.held| && s.held[r] == EMPTY
    ensures FidsOk(t) && Beside(s, t, r)
  {
    if n in s.pool then s
    else
      AllocKeeps(s, r, AuthSlot, n);
      var s1 := Alloc(s, r, AuthSlot, n);
      if out.Good? then s1 else assert NumOk(s1, n); DiscardKeeps(s1, n); Discard(s1, n)
  }

  /** `sattach` and `rattach`. */
  ghost function DoAttach(s: Fids, r: nat, n: nat, auth: Option<nat>, out: Outcome): (t: Fids)
    requires FidsOk(s) && r < |s.held| && s.held[r] == EMPTY
    ensures FidsOk(t) && Beside(s, t, r)
  {
    if n in s.pool then s
    else
      AllocKeeps(s, r, FidSlot, n);
      var s1 := Alloc(s, r, FidSlot, n);
      assert NumOk(s1, n);
      if auth.Some? && auth.value !in s1.pool then DiscardKeeps(s1, n); Discard(s1, n)
      else if auth.Some? then
        assert NumOk(s1, auth.value);
        LookupKeeps(s1, r, AuthSlot, auth.value);
        var s2 := Lookup(s1, r, AuthSlot, auth.value);
        assert NumOk(s2, n);
        if out.Good? then s2 else DiscardKeeps(s2, n); Discard(s2, n)
      else if out.Good? then s1
      else DiscardKeeps(s1, n); Discard(s1, n)
  }

  /** `swalk` and `rwalk`. */
  ghost function DoWalk(s: Fids, r: nat, n: nat, m: nat, out: Outcome): (t: Fids)
    requires FidsOk(s) && r < |s.held| && s.held[r] == EMPTY
    ensures FidsOk(t) && Beside(s, t, r)
  {
    if n !in s.pool then s
    else
      assert NumOk(s, n);
      LookupKeeps(s, r, FidSlot, n);
      var s1 := Lookup(s, r, FidSlot, n);
      assert NumOk(s1, n);
      if out.Refused? then s1
      else if m == n then LookupKeeps(s1, r, NewSlot, n); Lookup(s1, r, NewSlot, n)
      else if m in s1.pool then s1
      else
        AllocKeeps(s1, r, NewSlot, m);
        var s2 := Alloc(s1, r, NewSlot, m);
        assert NumOk(s2, m);
        if out.Good? then s2 else DiscardKeeps(s2, m); Discard(s2, m)
  }

  /** Only request `r` got hold of fids. */
  ghost predicate Beside(s: Fids, t: Fids, r: nat) {
    && r < |s.held| == |t.held| && t.msgs == s.msgs && forall x :: 0 <= x < |s.held| && x != r ==> t.held[x] == s.held[x]
  }

  ghost function DoMsg(s: Fids, r: nat, out: Outcome): (t: Fids)
    requires FidsOk(s) && r < |s.held| && s.held[r] == EMPTY
    ensures FidsOk(t) && Beside(s, t, r)
  {
    match s.msgs[r]
    case Auth(n) => DoAuth(s, r, n, out)
    case Attach(n, auth) => DoAttach(s, r, n, auth, out)
    case Walk(n, m) => DoWalk(s, r, n, m, out)
    case Take(n) => if n in s.pool then TakeOutKeeps(s, r, FidSlot, n); TakeOut(s, r, FidSlot, n) else s
    case Use(n) => if n in s.pool then assert NumOk(s, n); LookupKeeps(s, r, FidSlot, n); Lookup(s, r, FidSlot, n) else s
    case NoFid => s
  }

  /** The number a message binds when it succeeds: a fresh one, or none. */
  ghost function Binds(s: Fids, m: Msg): Option<nat> {
    match m
    case Auth(n) => if n in s.pool then None else Some(n)
    case Attach(n, auth) => if n in s.pool || (auth.Some? && auth.value != n && auth.value !in s.pool) then None else Some(n)
    case Walk(n, m) => if n !in s.pool || m in s.pool then None else Some(m)
    case _ => None
  }

  ghost predicate Bound(s: Fids, t: Fids, r: nat, n: nat) {
    t.pool == s.pool[n := |s.fids|] && |t.fids| == |s.fids| + 1 && r < |t.held| && Hold(t.held[r], |s.fids|) > 0
  }

  lemma DiscardUndoes(s: Fids, n: nat, f: nat)
    requires n !in s.pool
    ensures s.pool[n := f] - {n} == s.pool
  {
  }

  lemma {:induction false} MapAfterAttach(s: Fids, r: nat, n: nat, auth: Option<nat>, out: Outcome)
    requires FidsOk(s) && r < |s.held| && s.held[r] == EMPTY
    ensures var t, b := DoAttach(s, r, n, auth, out), Binds(s, Attach(n, auth)); if out.Good? && b.Some? then Bound(s, t, r, n) else t.pool == s.pool
  {
    if n !in s.pool {
      DiscardUndoes(s, n, |s.fids|);
      AllocKeeps(s, r, FidSlot, n);
      if auth.Some? {
        assert NumOk(Alloc(s, r, FidSlot, n), auth.value);
      }
    }
  }

  lemma {:induction false} MapAfterWalk(s: Fids, r: nat, n: nat, m: nat, out: Outcome)
    requires FidsOk(s) && r < |s.held| && s.held[r] == EMPTY
    ensures var t, b := DoWalk(s, r, n, m, out), Binds(s, Walk(n, m)); if out.Good? && b.Some? then Bound(s, t, r, m) else t.pool == s.pool
  {
    assert NumOk(s, n);
    if m !in s.pool {
      DiscardUndoes(s, m, |s.fids|);
    }
  }

  /** A message that succeeds binds its new fid number to a new fid, which the request holds too; one that
      fails leaves the map as it was; a clunk or remove unbinds its number whatever its outcome. */
  lemma {:induction false} MapAfterMsg(s: Fids, r: nat, out: Outcome)
    requires FidsOk(s) && r < |s.held| && s.held[r] == EMPTY
    ensures var t, m := DoMsg(s, r, out), s.msgs[r];
      if m.Take? then t.pool == s.pool - {m.fid} && (m.fid in s.pool ==> t.held[r].fid == Some(s.pool[m.fid]))
      else if out.Good? && Binds(s, m).Some? then Bound(s, t, r, Binds(s, m).value)
      else t.pool == s.pool
  {
    match s.msgs[r] {
      case Auth(n) =>
        if n !in s.pool {
          DiscardUndoes(s, n, |s.fids|);
        }
      case Attach(n, auth) => MapAfterAttach(s, r, n, auth, out);
      case Walk(n, m) => MapAfterWalk(s, r, n, m, out);
      case _ =>
    }
  }

  /** The fids that a request holds after its message, in terms of the map before it.  The fid made for it is the
      `newest`; a message with an unknown fid, or with a number that is taken, gets none. */
  ghost function HeldAfter(pool: map<nat, nat>, newest: nat, m: Msg, out: Outcome): Holding {
    match m
    case Auth(n) => if n in pool then EMPTY else Holding(None, None, Some(newest))
    case Attach(n, auth) =>
      if n in pool then EMPTY
      else Holding(Some(newest), None,
                   if auth.None? then None else if auth.value == n then Some(newest) else if auth.value in pool then Some(pool[auth.value]) else None)
    case Walk(n, m) =>
      if n !in pool then EMPTY
      else Holding(Some(pool[n]), if out.Refused? then None else if m == n then Some(pool[n]) else if m in pool then None else Some(newest), None)
    case Take(n) => if n in pool then Holding(Some(pool[n]), None, None) else EMPTY
    case Use(n) => if n in pool then Holding(Some(pool[n]), None, None) else EMPTY
    case NoFid => EMPTY
  }

  lemma {:induction false} HeldAfterAttach(s: Fids, r: nat, n: nat, auth: Option<nat>, out: Outcome)
    requires FidsOk(s) && r < |s.held| && s.held[r] == EMPTY
    ensures DoAttach(s, r, n, auth, out).held[r] == HeldAfter(s.pool, |s.fids|, Attach(n, auth), out)
  {
    if n !in s.pool && auth.Some? {
      AllocKeeps(s, r, FidSlot, n);
      assert NumOk(Alloc(s, r, FidSlot, n), auth.value);
    }
  }

  lemma {:induction false} HeldAfterWalk(s: Fids, r: nat, n: nat, m: nat, out: Outcome)
    requires FidsOk(s) && r < |s.held| && s.held[r] == EMPTY
    ensures DoWalk(s, r, n, m, out).held[r] == HeldAfter(s.pool, |s.fids|, Walk(n, m), out)
  {
    assert NumOk(s, n);
  }

  /** What each message leaves its request holding. */
  lemma {:induction false} HeldAfterMsg(s: Fids, r: nat, out: Outcome)
    requires FidsOk(s) && r < |s.held| && s.held[r] == EMPTY
    ensures DoMsg(s, r, out).held[r] == HeldAfter(s.pool, |s.fids|, s.msgs[r], out)
  {
    match s.msgs[r] {
      case Attach(n, auth) => HeldAfterAttach(s, r, n, auth, out);
      case Walk(n, m) => HeldAfterWalk(s, r, n, m, out);
      case _ =>
    }
  }

  ghost predicate SameNums(s: Fids, t: Fids) {
    |s.fids| <= |t.fids| && forall f {:trigger t.fids[f]} :: 0 <= f < |s.fids| ==> t.fids[f].num == s.fids[f].num
  }

  lemma {:induction false} NumsAfterMsg(s: Fids, r: nat, out: Outcome)
    requires FidsOk(s) && r < |s.held| && s.held[r] == EMPTY
    ensures SameNums(s, DoMsg(s, r, out))
  {
    match s.msgs[r] {
      case Attach(n, auth) =>
        if n !in s.pool && auth.Some? {
          AllocKeeps(s, r, FidSlot, n);
          assert NumOk(Alloc(s, r, FidSlot, n), auth.value);
        }
      case Walk(n, m) => assert NumOk(s, n);
      case Use(n) => assert NumOk(s, n);
      case _ =>
    }
  }

  /** The count of a fid goes up by the fields of the request that hold it now; if the message takes it out of the map, that
      reference passes to the request. */
  lemma {:induction false} CountAfterMsg(s: Fids, r: nat, out: Outcome, f: nat)
    requires FidsOk(s) && r < |s.held| && s.held[r] == EMPTY && f < |s.fids|
    ensures var t, m := DoMsg(s, r, out), s.msgs[r];
      f < |t.fids| && t.fids[f].ref == s.fids[f].ref + Hold(t.held[r], f) - (if m.Take? && m.fid in s.pool && s.pool[m.fid] == f then 1 else 0)
  {
    var t := DoMsg(s, r, out);
    NumsAfterMsg(s, r, out);
    MapAfterMsg(s, r, out);
    assert FidOk(s, f) && FidOk(t, f) && NumOk(s, s.fids[f].num);
    assert t.held == s.held[r := t.held[r]];
    HoldsUpdate(s.held, r, t.held[r], f);
    if s.msgs[r].Take? {
      assert NumOk(s, s.msgs[r].fid);
    }
  }

  /** A message that only uses a fid holds it and nothing else changes; if the fid is unknown nothing changes at all. */
  lemma {:induction false} UseHolds(s: Fids, r: nat, out: Outcome)
    requires FidsOk(s) && r < |s.held| && s.held[r] == EMPTY && s.msgs[r].Use?
    ensures var t, n := DoMsg(s, r, out), s.msgs[r].fid;
      if n !in s.pool then t == s
      else s.pool[n] < |s.fids| && t == s.(held := s.held[r := Holding(Some(s.pool[n]), None, None)],
                                           fids := s.fids[s.pool[n] := s.fids[s.pool[n]].(ref := s.fids[s.pool[n]].ref + 1)])
  {
    var n := s.msgs[r].fid;
    assert NumOk(s, n);
    if n in s.pool {
      assert FidOk(s, s.pool[n]);
    }
  }

  /** The end of `closereq`: a freed request lets go of its fids. */
  ghost function Release(s: Fids, r: nat): (t: Fids)
    requires FidsOk(s) && r < |s.held|
    ensures FidsOk(t) && Beside(s, t, r) && t.held[r] == EMPTY
  {
    assert HeldOk(s, r);
    CloseSlotKeeps(s, r, FidSlot);
    var s1 := CloseSlot(s, r, FidSlot);
    assert HeldOk(s1, r);
    CloseSlotKeeps(s1, r, NewSlot);
    var s2 := CloseSlot(s1, r, NewSlot);
    assert HeldOk(s2, r);
    CloseSlotKeeps(s2, r, AuthSlot);
    CloseSlot(s2, r, AuthSlot)
  }

  // ----- requests and fids together -----

  datatype Both = Both(srv: Server, fids: Fids)

  /** A step of the server, with what it does to fids. */
  datatype Move = Move(step: Step, msg: Msg, out: Outcome)

  /** Before it is dispatched and after it is freed a request holds no fid; a fake request never does. */
  ghost predicate EmptyOk(b: Both, r: nat)
    requires r < |b.srv.reqs| == |b.fids.held|
  {
    b.srv.reqs[r].pc.Arrived? || b.srv.reqs[r].fake || b.srv.reqs[r].freed ==> b.fids.held[r] == EMPTY
  }

  ghost predicate BothOk(b: Both) {
    && Inv(b.srv) && FidsOk(b.fids) && |b.srv.reqs| == |b.fids.held|
    && forall r: nat {:trigger EmptyOk(b, r)} :: r < |b.srv.reqs| ==> EmptyOk(b, r)
  }

  /** The request that a step may free. */
  ghost function MayFree(s: Server, step: Step): Option<nat>
    requires Enabled(s, step)
  {
    match step
    case Drop(r) => s.reqs[r].oldreq
    case Remove(r) => if !s.reqs[r].fake && s.reqs[r].tag in s.pool then Some(s.pool[s.reqs[r].tag]) else None
    case Finish(r) => Some(r)
    case _ => None
  }

  ghost function Do(b: Both, m: Move): (c: Both)
    requires BothOk(b) && Enabled(b.srv, m.step)
    ensures BothOk(c)
  {
    StepInv(b.srv, m.step);
    var t := Apply(b.srv, m.step);
    var x := MayFree(b.srv, m.step);
    var c :=
      if m.step.Arrive? then Both(t, b.fids.(msgs := b.fids.msgs + [m.msg], held := b.fids.held + [EMPTY]))
      else if m.step.Dispatch? then assert EmptyOk(b, m.step.r); Both(t, DoMsg(b.fids, m.step.r, m.out))
      else if x.Some? && x.value < |t.reqs| && t.reqs[x.value].freed && !b.srv.reqs[x.value].freed then Both(t, Release(b.fids, x.value))
      else Both(t, b.fids);
    DoKeeps(b, m, c);
    c
  }

  lemma {:induction false} ArriveKeepsFids(s: Fids, m: Msg)
    requires FidsOk(s)
    ensures FidsOk(s.(msgs := s.msgs + [m], held := s.held + [EMPTY]))
  {
    var t := s.(msgs := s.msgs + [m], held := s.held + [EMPTY]);
    assert t.held[..|s.held|] == s.held;
    forall f: nat | f < |t.fids| ensures FidOk(t, f) {
      assert FidOk(s, f);
    }
    forall n: nat ensures NumOk(t, n) {
      assert NumOk(s, n);
    }
    forall x: nat | x < |t.held| ensures HeldOk(t, x) {
      assert x < |s.held| ==> HeldOk(s, x);
    }
  }

  /** A step frees only the request named by `MayFree`. */
  lemma {:induction false} FreesNamed(s: Server, step: Step, r: nat)
    requires Inv(s) && Enabled(s, step) && r < |s.reqs| && MayFree(s, step) != Some(r)
    ensures Apply(s, step).reqs[r].freed == s.reqs[r].freed
  {
    if Works(step) {
      assert ReqOk(s, step.r) && TagOk(s, s.reqs[step.r].tag);
      if s.reqs[step.r].kind.Flush? {
        assert TagOk(s, s.reqs[step.r].kind.oldtag);
      }
      if step.Wake? {
        assert FlushOk(s, step.r, s.reqs[step.r].pc.next);
      }
    }
  }

  /** Nothing that is freed comes back, and nothing goes back to where it arrived. */
  lemma {:induction false} FreedStays(s: Server, step: Step, r: nat)
    requires Inv(s) && Enabled(s, step) && r < |s.reqs|
    ensures s.reqs[r].freed ==> Apply(s, step).reqs[r].freed
    ensures Apply(s, step).reqs[r].fake == s.reqs[r].fake
    ensures Apply(s, step).reqs[r].pc.Arrived? ==> s.reqs[r].pc.Arrived?
  {
    StepGoes(s, step, r);
    if s.reqs[r].freed && Works(step) {
      FreedUntouched(s, step, r);
      OthersUnchanged(s, step, r);
    }
  }

  ghost predicate Follows(b: Both, m: Move, c: Both)
    requires BothOk(b) && Enabled(b.srv, m.step)
  {
    var t := Apply(b.srv, m.step);
    var x := MayFree(b.srv, m.step);
    c.srv == t &&
    if m.step.Arrive? then c.fids == b.fids.(msgs := b.fids.msgs + [m.msg], held := b.fids.held + [EMPTY])
    else if m.step.Dispatch? then FidsOk(c.fids) && Beside(b.fids, c.fids, m.step.r)
    else if x.Some? && x.value < |t.reqs| && t.reqs[x.value].freed && !b.srv.reqs[x.value].freed then
      FidsOk(c.fids) && Beside(b.fids, c.fids, x.value) && c.fids.held[x.value] == EMPTY
    else c.fids == b.fids
  }

  lemma {:induction false} DoKeeps(b: Both, m: Move, c: Both)
    requires BothOk(b) && Enabled(b.srv, m.step) && Follows(b, m, c)
    ensures BothOk(c)
  {
    StepInv(b.srv, m.step);
    if m.step.Arrive? {
      ArriveKeepsFids(b.fids, m.msg);
    }
    forall r: nat | r < |c.srv.reqs| ensures EmptyOk(c, r) {
      if r < |b.srv.reqs| {
        assert EmptyOk(b, r) && RefOk(b.srv, r) && ReqOk(b.srv, r);
        FreedStays(b.srv, m.step, r);
        if MayFree(b.srv, m.step) != Some(r) {
          FreesNamed(b.srv, m.step, r);
        }
        if m.step == Dispatch(r) {
          DispatchedLives(b.srv, r);
        }
      }
    }
  }

  lemma {:induction false} DispatchedLives(s: Server, r: nat)
    requires Inv(s) && Enabled(s, Dispatch(r))
    ensures var q := Apply(s, Dispatch(r)).reqs[r]; !q.fake && !q.freed && q.pc.Held?
  {
    assert ReqOk(s, r) && RefOk(s, r);
    if s.reqs[r].kind.Flush? {
      assert TagOk(s, s.reqs[r].kind.oldtag);
    }
  }

  // ----- runs -----

  ghost function Run(b: Both, moves: seq<Move>): (c: Option<Both>)
    requires BothOk(b)
    ensures c.Some? ==> BothOk(c.value)
    decreases |moves|
  {
    if moves == [] then Some(b)
    else if !Enabled(b.srv, moves[0].step) then None
    else Run(Do(b, moves[0]), moves[1..])
  }

  lemma StartOk()
    ensures BothOk(Both(Init(), Fids([], [], [], map[])))
  {
    InitInv();
  }

  ghost predicate RunsTo(moves: seq<Move>, b: Both) {
    StartOk();
    Run(Both(Init(), Fids([], [], [], map[])), moves) == Some(b)
  }

  /** In every run the count of a fid is its map entry plus the request fields that hold it, and it is
      destroyed exactly when the last of these is gone. */
  lemma {:induction false} FidFreedWhenReleased(moves: seq<Move>, b: Both, f: nat)
    requires RunsTo(moves, b) && f < |b.fids.fids|
    ensures b.fids.fids[f].ref == FidHolders(b.fids, f)
    ensures b.fids.fids[f].freed <==> FidHolders(b.fids, f) == 0
  {
    StartOk();
    assert FidOk(b.fids, f);
  }

  /** No request that has not been freed holds a destroyed fid, the fid map names none, and a freed request holds no fid. */
  lemma {:induction false} HeldFidsLive(moves: seq<Move>, b: Both, r: nat, slot: Slot)
    requires RunsTo(moves, b) && r < |b.srv.reqs|
    ensures r < |b.fids.held|
    ensures b.srv.reqs[r].freed ==> b.fids.held[r] == EMPTY
    ensures Get(b.fids.held[r], slot).Some? ==> var f := Get(b.fids.held[r], slot).value; f < |b.fids.fids| && !b.fids.fids[f].freed
    ensures forall n: nat {:trigger n in b.fids.pool} :: n in b.fids.pool ==> b.fids.pool[n] < |b.fids.fids| && !b.fids.fids[b.fids.pool[n]].freed
  {
    StartOk();
    assert BothOk(b) && EmptyOk(b, r) && HeldOk(b.fids, r);
    if Get(b.fids.held[r], slot).Some? {
      var f := Get(b.fids.held[r], slot).value;
      HoldsSome(b.fids.held, r, f);
      assert FidOk(b.fids, f);
    }
    forall n: nat | n in b.fids.pool ensures b.fids.pool[n] < |b.fids.fids| && !b.fids.fids[b.fids.pool[n]].freed {
      assert NumOk(b.fids, n);
      assert FidOk(b.fids, b.fids.pool[n]);
    }
  }

  // ----- a fid in use -----

  lemma {:induction false} HeldByMove(b: Both, m: Move, r: nat)
    requires BothOk(b) && Enabled(b.srv, m.step) && r < |b.srv.reqs| && !b.srv.reqs[r].pc.Arrived? && !Do(b, m).srv.reqs[r].freed
    ensures Do(b, m).fids.held[r] == b.fids.held[r]
  {
    StepInv(b.srv, m.step);
  }

  /** Once its message has been dealt with, a request holds the same fids for as long as it lives. */
  lemma {:induction false} HeldWhileLives(b: Both, moves: seq<Move>, c: Both, r: nat)
    requires BothOk(b) && r < |b.srv.reqs| && !b.srv.reqs[r].pc.Arrived? && Run(b, moves) == Some(c)
    ensures r < |c.srv.reqs| && (b.srv.reqs[r].freed ==> c.srv.reqs[r].freed)
    ensures !c.srv.reqs[r].freed ==> c.fids.held[r] == b.fids.held[r]
    decreases |moves|
  {
    if moves != [] {
      var d := Do(b, moves[0]);
      FreedStays(b.srv, moves[0].step, r);
      HeldWhileLives(d, moves[1..], c, r);
      if !c.srv.reqs[r].freed {
        HeldByMove(b, moves[0], r);
      }
    }
  }

  /** In every run, a fid that a request holds when its message has been dealt with is not destroyed before the request is
      freed, whatever clunks it meanwhile. */
  lemma {:induction false} HeldFidStays(b: Both, m: Move, r: nat, slot: Slot, more: seq<Move>, c: Both)
    requires BothOk(b) && Enabled(b.srv, m.step) && m.step == Dispatch(r) && Run(Do(b, m), more) == Some(c) && r < |c.srv.reqs| && !c.srv.reqs[r].freed
    ensures r < |b.fids.held| && b.fids.held[r] == EMPTY
    ensures var h := HeldAfter(b.fids.pool, |b.fids.fids|, b.fids.msgs[r], m.out);
      c.fids.held[r] == h && (Get(h, slot).Some? ==> Get(h, slot).value < |c.fids.fids| && !c.fids.fids[Get(h, slot).value].freed)
  {
    assert EmptyOk(b, r);
    HeldAfterMsg(b.fids, r, m.out);
    DispatchedLives(b.srv, r);
    HeldWhileLives(Do(b, m), more, c, r);
    assert HeldOk(c.fids, r);
    if Get(c.fids.held[r], slot).Some? {
      var f := Get(c.fids.held[r], slot).value;
      HoldsSome(c.fids.held, r, f);
      assert FidOk(c.fids, f);
    }
  }

  /** So a fid that a read finds stays until the read is done with it. */
  lemma {:induction false} UsedFidStays(moves: seq<Move>, b: Both, m: Move, r: nat, n: nat, more: seq<Move>, c: Both)
    requires RunsTo(moves, b) && BothOk(b) && Enabled(b.srv, m.step) && m.step == Dispatch(r) && r < |b.fids.msgs| && b.fids.msgs[r] == Use(n)
    requires n in b.fids.pool && Run(Do(b, m), more) == Some(c) && r < |c.srv.reqs| && !c.srv.reqs[r].freed
    ensures b.fids.pool[n] < |c.fids.fids| && !c.fids.fids[b.fids.pool[n]].freed && c.fids.held[r].fid == Some(b.fids.pool[n])
  {
    HeldFidStays(b, m, r, FidSlot, more, c);
  }
}
