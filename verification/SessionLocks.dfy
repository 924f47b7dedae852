/** The per-session lock table of the sandbox sidecar: locks are created on first
    use, reference counted, and dropped from the table as soon as nobody needs them.

    Every function below is one atomic step: one `with _state_lock` section, or one
    operation on a session's own lock. */
module SessionLocks {

  type Sid = string
  type Tid = nat
  /** Identity of a `_SessionState` object: its position in creation order. */
  type LockId = nat

  /** A thread between entering and leaving `_session_lock`, and the object it got. */
  datatype Seat = Seat(sid: Sid, lock: LockId)

  /** `refs` has one entry per state object ever made, also for those no longer mapped;
      `queued` are the threads still waiting in `lock.acquire`. */
  datatype Table = Table(
    lastUsed: map<Sid, int>,
    states: map<Sid, LockId>,
    refs: seq<nat>,
    holder: map<LockId, Tid>,
    queued: set<Tid>,
    seats: map<Tid, Seat>)

  const EMPTY := Table(map[], map[], [], map[], {}, map[])

  /** Running the body of `with _session_lock(sid)`. */
  predicate Inside(t: Table, tid: Tid) {
    tid in t.seats && t.seats[tid].lock in t.holder && t.holder[t.seats[tid].lock] == tid
  }

  predicate InsideOf(t: Table, tid: Tid, sid: Sid) {
    Inside(t, tid) && t.seats[tid].sid == sid
  }

  /** What the steps below index; `LockInv` implies it, so it never blocks a step. */
  ghost predicate Formed(t: Table) {
    && (forall s <- t.states :: t.states[s] < |t.refs|)
    && (forall tid <- t.seats :: t.seats[tid].lock < |t.refs| && t.refs[t.seats[tid].lock] > 0)
  }

  // ---------------------------------------------------------------- atomic steps

  /** `setdefault(session_id, _SessionState(Lock()))`. */
  function SetDefault(t: Table, sid: Sid): Table {
    if sid in t.states then t
    else t.(states := t.states[sid := |t.refs|], refs := t.refs + [0])
  }

  /** First half of entering: find or make the state object and count this thread. */
  function Enter(t: Table, tid: Tid, sid: Sid): Table
    requires Formed(t)
  {
    var u := SetDefault(t, sid);
    var l := u.states[sid];
    u.(refs := u.refs[l := u.refs[l] + 1], queued := u.queued + {tid}, seats := u.seats[tid := Seat(sid, l)])
  }

  predicate CanAcquire(t: Table, tid: Tid) {
    tid in t.seats && tid in t.queued && t.seats[tid].lock !in t.holder
  }

  function Acquire(t: Table, tid: Tid): Table
    requires CanAcquire(t, tid)
  {
    t.(holder := t.holder[t.seats[tid].lock := tid], queued := t.queued - {tid})
  }

  function Release(t: Table, tid: Tid): Table
    requires Inside(t, tid)
  {
    t.(holder := t.holder - {t.seats[tid].lock})
  }

  /** Drop this thread's reference: after a timed-out acquire, or after a release. */
  function Depart(t: Table, tid: Tid): Table
    requires Formed(t) && tid in t.seats
  {
    var Seat(sid, l) := t.seats[tid];
    var refs := t.refs[l := t.refs[l] - 1];
    t.(refs := refs,
       queued := t.queued - {tid},
       seats := t.seats - {tid},
       states := if refs[l] == 0 && sid !in t.lastUsed then t.states - {sid} else t.states)
  }

  function Touch(t: Table, sid: Sid, now: int): Table {
    SetDefault(t, sid).(lastUsed := t.lastUsed[sid := now])
  }

  function Forget(t: Table, sid: Sid): Table
    requires Formed(t)
  {
    t.(lastUsed := t.lastUsed - {sid},
       states := if sid in t.states && t.refs[t.states[sid]] == 0 then t.states - {sid} else t.states)
  }

  // ------------------------------------------------------------------ invariant

  ghost function Users(seats: map<Tid, Seat>, l: LockId): set<Tid> {
    set tid | tid in seats && seats[tid].lock == l
  }

  ghost predicate RefsCountUsers(refs: seq<nat>, seats: map<Tid, Seat>) {
    forall l :: 0 <= l < |refs| ==> refs[l] == |Users(seats, l)|
  }

  /** A thread's state object is still the mapped one, whatever was removed meanwhile. */
  ghost predicate SeatsMapped(seats: map<Tid, Seat>, states: map<Sid, LockId>) {
    forall tid <- seats :: seats[tid].sid in states && states[seats[tid].sid] == seats[tid].lock
  }

  ghost predicate DistinctLocks(states: map<Sid, LockId>, made: nat) {
    && (forall s <- states :: states[s] < made)
    && (forall s, s' :: s in states && s' in states && states[s] == states[s'] ==> s == s')
  }

  ghost predicate HoldersSeated(holder: map<LockId, Tid>, seats: map<Tid, Seat>, queued: set<Tid>) {
    && (forall l <- holder :: holder[l] in seats && seats[holder[l]].lock == l && holder[l] !in queued)
    && (forall tid <- queued :: tid in seats)
  }

  /** No leak: an entry is there for a thread that uses it or for a live session; and
      no live session is without its entry. */
  ghost predicate NoLeak(states: map<Sid, LockId>, refs: seq<nat>, lastUsed: map<Sid, int>)
    requires DistinctLocks(states, |refs|)
  {
    && (forall s <- states :: refs[states[s]] > 0 || s in lastUsed)
    && (forall s <- lastUsed :: s in states)
  }

  ghost predicate LockInv(t: Table) {
    && DistinctLocks(t.states, |t.refs|)
    && SeatsMapped(t.seats, t.states)
    && HoldersSeated(t.holder, t.seats, t.queued)
    && RefsCountUsers(t.refs, t.seats)
    && NoLeak(t.states, t.refs, t.lastUsed)
  }

  // -------------------------------------------------- every step keeps the invariant

  lemma CountedSeats(refs: seq<nat>, seats: map<Tid, Seat>, tid: Tid)
    requires RefsCountUsers(refs, seats) && tid in seats && seats[tid].lock < |refs|
    ensures refs[seats[tid].lock] > 0
  {
    assert tid in Users(seats, seats[tid].lock);
  }

  lemma InvIsFormed(t: Table)
    requires LockInv(t)
    ensures Formed(t)
  {
    forall tid <- t.seats ensures t.seats[tid].lock < |t.refs| && t.refs[t.seats[tid].lock] > 0 {
      assert t.states[t.seats[tid].sid] == t.seats[tid].lock;
      CountedSeats(t.refs, t.seats, tid);
    }
  }

  lemma CountAfterNew(refs: seq<nat>, seats: map<Tid, Seat>)
    requires RefsCountUsers(refs, seats)
    requires forall tid <- seats :: seats[tid].lock < |refs|
    ensures RefsCountUsers(refs + [0], seats)
  {
    assert Users(seats, |refs|) == {};
  }

  lemma CountAfterJoin(refs: seq<nat>, seats: map<Tid, Seat>, tid: Tid, seat: Seat)
    requires RefsCountUsers(refs, seats) && tid !in seats && seat.lock < |refs|
    ensures RefsCountUsers(refs[seat.lock := refs[seat.lock] + 1], seats[tid := seat])
  {
    var seats', refs' := seats[tid := seat], refs[seat.lock := refs[seat.lock] + 1];
    assert Users(seats', seat.lock) == Users(seats, seat.lock) + {tid};
    forall l | 0 <= l < |refs| ensures refs'[l] == |Users(seats', l)| {
      if l != seat.lock {
        assert Users(seats', l) == Users(seats, l);
      }
    }
  }

  lemma CountAfterLeave(refs: seq<nat>, seats: map<Tid, Seat>, tid: Tid)
    requires RefsCountUsers(refs, seats) && tid in seats && seats[tid].lock < |refs| && refs[seats[tid].lock] > 0
    ensures RefsCountUsers(refs[seats[tid].lock := refs[seats[tid].lock] - 1], seats - {tid})
  {
    var l0 := seats[tid].lock;
    forall l | 0 <= l < |refs| ensures |Users(seats - {tid}, l)| == if l == l0 then refs[l] - 1 else refs[l] {
      assert tid in Users(seats, l0);
      assert Users(seats - {tid}, l) == if l == l0 then Users(seats, l) - {tid} else Users(seats, l);
    }
  }

  lemma SetDefaultKeeps(t: Table, sid: Sid)
    requires LockInv(t)
    ensures var u := SetDefault(t, sid);
            && DistinctLocks(u.states, |u.refs|) && SeatsMapped(u.seats, u.states)
            && HoldersSeated(u.holder, u.seats, u.queued) && RefsCountUsers(u.refs, u.seats)
  {
    if sid !in t.states {
      InvIsFormed(t);
      CountAfterNew(t.refs, t.seats);
    }
  }

  lemma JoinKeepsMap(seats: map<Tid, Seat>, states: map<Sid, LockId>, tid: Tid, sid: Sid)
    requires SeatsMapped(seats, states) && sid in states
    ensures SeatsMapped(seats[tid := Seat(sid, states[sid])], states)
  {}

  lemma JoinLeaksNothing(t: Table, sid: Sid)
    requires DistinctLocks(t.states, |t.refs|) && NoLeak(t.states, t.refs, t.lastUsed)
    ensures var u := SetDefault(t, sid);
            var refs := u.refs[u.states[sid] := u.refs[u.states[sid]] + 1];
            DistinctLocks(u.states, |refs|) && NoLeak(u.states, refs, t.lastUsed)
  {}

  lemma JoinKeepsHolders(holder: map<LockId, Tid>, seats: map<Tid, Seat>, queued: set<Tid>, tid: Tid, seat: Seat)
    requires HoldersSeated(holder, seats, queued) && tid !in seats
    ensures HoldersSeated(holder, seats[tid := seat], queued + {tid})
  {}

  lemma EnterKeeps(t: Table, tid: Tid, sid: Sid)
    requires LockInv(t) && tid !in t.seats
    ensures Formed(t) && LockInv(Enter(t, tid, sid))
  {
    InvIsFormed(t);
    SetDefaultKeeps(t, sid);
    var u := SetDefault(t, sid);
    var l := u.states[sid];
    JoinedIsFine(u, t.lastUsed, tid, sid, l);
    JoinLeaksNothing(t, sid);
  }

  lemma JoinedIsFine(u: Table, lastUsed: map<Sid, int>, tid: Tid, sid: Sid, l: LockId)
    requires DistinctLocks(u.states, |u.refs|) && SeatsMapped(u.seats, u.states)
    requires HoldersSeated(u.holder, u.seats, u.queued) && RefsCountUsers(u.refs, u.seats)
    requires tid !in u.seats && sid in u.states && l == u.states[sid]
    ensures SeatsMapped(u.seats[tid := Seat(sid, l)], u.states)
    ensures HoldersSeated(u.holder, u.seats[tid := Seat(sid, l)], u.queued + {tid})
    ensures RefsCountUsers(u.refs[l := u.refs[l] + 1], u.seats[tid := Seat(sid, l)])
  {
    CountAfterJoin(u.refs, u.seats, tid, Seat(sid, l));
    JoinKeepsMap(u.seats, u.states, tid, sid);
    JoinKeepsHolders(u.holder, u.seats, u.queued, tid, Seat(sid, l));
  }

  lemma AcquireKeeps(t: Table, tid: Tid)
    requires LockInv(t) && CanAcquire(t, tid)
    ensures LockInv(Acquire(t, tid))
  {}

  lemma ReleaseKeeps(t: Table, tid: Tid)
    requires LockInv(t) && Inside(t, tid)
    ensures LockInv(Release(t, tid))
  {}

  /** The popped entry was nobody's: a zero count means no seat is left on it. */
  lemma PopKeepsMap(refs: seq<nat>, seats: map<Tid, Seat>, states: map<Sid, LockId>, sid: Sid)
    requires RefsCountUsers(refs, seats) && SeatsMapped(seats, states)
    requires sid in states && states[sid] < |refs| && refs[states[sid]] == 0
    ensures SeatsMapped(seats, states - {sid})
  {
    forall x <- seats ensures seats[x].sid != sid {
      if seats[x].sid == sid {
        CountedSeats(refs, seats, x);
        assert false;
      }
    }
  }

  lemma LeaveLeaksNothing(states: map<Sid, LockId>, refs: seq<nat>, lastUsed: map<Sid, int>, sid: Sid)
    requires DistinctLocks(states, |refs|) && NoLeak(states, refs, lastUsed) && sid in states && refs[states[sid]] > 0
    ensures var refs' := refs[states[sid] := refs[states[sid]] - 1];
            var states' := if refs'[states[sid]] == 0 && sid !in lastUsed then states - {sid} else states;
            DistinctLocks(states', |refs'|) && NoLeak(states', refs', lastUsed)
  {}

  lemma LeaveKeepsHolders(holder: map<LockId, Tid>, seats: map<Tid, Seat>, queued: set<Tid>, tid: Tid)
    requires HoldersSeated(holder, seats, queued) && tid in seats && !(seats[tid].lock in holder && holder[seats[tid].lock] == tid)
    ensures HoldersSeated(holder, seats - {tid}, queued - {tid})
  {}

  lemma DepartKeeps(t: Table, tid: Tid)
    requires LockInv(t) && tid in t.seats && !Inside(t, tid)
    ensures Formed(t) && LockInv(Depart(t, tid))
  {
    InvIsFormed(t);
    CountAfterLeave(t.refs, t.seats, tid);
    var Seat(sid, l) := t.seats[tid];
    var refs, seats := t.refs[l := t.refs[l] - 1], t.seats - {tid};
    var states := if refs[l] == 0 && sid !in t.lastUsed then t.states - {sid} else t.states;
    assert l == t.states[sid];
    LeaveLeaksNothing(t.states, t.refs, t.lastUsed, sid);
    LeaveKeepsHolders(t.holder, t.seats, t.queued, tid);
    assert SeatsMapped(seats, t.states);
    hide NoLeak, HoldersSeated, Inside;
    if states != t.states {
      PopKeepsMap(refs, seats, t.states, sid);
    }
    assert Depart(t, tid) == Table(t.lastUsed, states, refs, t.holder, t.queued - {tid}, seats);
  }

  lemma TouchKeeps(t: Table, sid: Sid, now: int)
    requires LockInv(t)
    ensures LockInv(Touch(t, sid, now))
  {
    SetDefaultKeeps(t, sid);
  }

  lemma ForgetKeeps(t: Table, sid: Sid)
    requires LockInv(t)
    ensures Formed(t) && LockInv(Forget(t, sid))
  {
    InvIsFormed(t);
  }

  // --------------------------------------------------------------- whole runs

  /** Any interleaving: each step names the thread or session it is about. */
  datatype Action =
    | AEnter(tid: Tid, sid: Sid)
    | AAcquire(tid: Tid)
    | ATimeout(tid: Tid)
    | ARelease(tid: Tid)
    | ALeave(tid: Tid)
    | ATouch(sid: Sid, now: int)
    | AForget(sid: Sid)

  ghost predicate Step(t: Table, a: Action, u: Table) {
    && Formed(t)
    && match a
       case AEnter(tid, sid) => tid !in t.seats && u == Enter(t, tid, sid)
       case AAcquire(tid) => CanAcquire(t, tid) && u == Acquire(t, tid)
       case ATimeout(tid) => tid in t.seats && tid in t.queued && u == Depart(t, tid)
       case ARelease(tid) => Inside(t, tid) && u == Release(t, tid)
       case ALeave(tid) => tid in t.seats && tid !in t.queued && !Inside(t, tid) && u == Depart(t, tid)
       case ATouch(sid, now) => u == Touch(t, sid, now)
       case AForget(sid) => u == Forget(t, sid)
  }

  ghost predicate StepAt(ts: seq<Table>, acts: seq<Action>, i: nat)
    requires i < |acts| && i + 1 < |ts|
  {
    Step(ts[i], acts[i], ts[i + 1])
  }

  ghost predicate Run(ts: seq<Table>, acts: seq<Action>) {
    && |ts| == |acts| + 1
    && ts[0] == EMPTY
    && forall i: nat :: i < |acts| ==> StepAt(ts, acts, i)
  }

  lemma StepKeeps(t: Table, a: Action, u: Table)
    requires LockInv(t) && Step(t, a, u)
    ensures LockInv(u)
  {
    match a
    case AEnter(tid, sid) => EnterKeeps(t, tid, sid);
    case AAcquire(tid) => AcquireKeeps(t, tid);
    case ATimeout(tid) => DepartKeeps(t, tid);
    case ARelease(tid) => ReleaseKeeps(t, tid);
    case ALeave(tid) => DepartKeeps(t, tid);
    case ATouch(sid, now) => TouchKeeps(t, sid, now);
    case AForget(sid) => ForgetKeeps(t, sid);
  }

  lemma {:induction false} RunKeeps(ts: seq<Table>, acts: seq<Action>, n: nat)
    requires Run(ts, acts) && n < |ts|
    ensures LockInv(ts[n])
  {
    if n > 0 {
      RunKeeps(ts, acts, n - 1);
      assert StepAt(ts, acts, n - 1);
      StepKeeps(ts[n - 1], acts[n - 1], ts[n]);
    }
  }

  /** Nobody shares a session's critical section, although its lock object may have
      been dropped from the table and made anew any number of times. */
  lemma MutualExclusion(t: Table, a: Tid, b: Tid, sid: Sid)
    requires LockInv(t) && InsideOf(t, a, sid) && InsideOf(t, b, sid)
    ensures a == b
  {
    assert t.seats[a].lock == t.states[sid] == t.seats[b].lock;
  }

  /** A waiter is blocked by a live owner and by nothing else: it never waits on a
      lock that later arrivals do not use. */
  lemma BlockedOnlyByOwner(t: Table, tid: Tid)
    requires LockInv(t) && tid in t.seats && tid in t.queued
    ensures CanAcquire(t, tid) <==> !exists x :: InsideOf(t, x, t.seats[tid].sid)
  {
    var l, sid := t.seats[tid].lock, t.seats[tid].sid;
    if l in t.holder {
      var x := t.holder[l];
      assert t.states[t.seats[x].sid] == l == t.states[sid];
      assert InsideOf(t, x, sid);
    }
    forall x | InsideOf(t, x, sid) ensures l in t.holder {
      assert t.seats[x].lock == t.states[sid];
    }
  }

  /** The promises over every reachable state of every interleaving. */
  lemma LockTableSafety(ts: seq<Table>, acts: seq<Action>, n: nat)
    requires Run(ts, acts) && n < |ts|
    ensures var t := ts[n];
            && (forall sid, a, b :: InsideOf(t, a, sid) && InsideOf(t, b, sid) ==> a == b)
            && (forall tid <- t.seats :: t.seats[tid].sid in t.states && t.states[t.seats[tid].sid] == t.seats[tid].lock)
            && (forall s <- t.states :: s in t.lastUsed || exists tid :: tid in t.seats && t.seats[tid].sid == s)
            && (forall s <- t.lastUsed :: s in t.states)
            && (forall tid <- t.queued :: tid in t.seats && (CanAcquire(t, tid) || exists x :: InsideOf(t, x, t.seats[tid].sid)))
  {
    RunKeeps(ts, acts, n);
    var t := ts[n];
    forall sid, a, b | InsideOf(t, a, sid) && InsideOf(t, b, sid) ensures a == b {
      MutualExclusion(t, a, b, sid);
    }
    forall s <- t.states ensures s in t.lastUsed || exists tid :: tid in t.seats && t.seats[tid].sid == s {
      if s !in t.lastUsed {
        var tid :| tid in Users(t.seats, t.states[s]);
        assert t.states[t.seats[tid].sid] == t.states[s];
      }
    }
    forall tid <- t.queued ensures tid in t.seats && (CanAcquire(t, tid) || exists x :: InsideOf(t, x, t.seats[tid].sid)) {
      BlockedOnlyByOwner(t, tid);
    }
  }
}
