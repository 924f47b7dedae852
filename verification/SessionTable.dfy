/** The lock table as the sidecar keeps it: two dictionaries and the `_SessionState`
    objects they point to, changed in place. Each method is proved to be exactly one
    atomic step of `SessionLocks`. */
module SessionTable {
  import opened SessionLocks

  lemma EnterInParts(t: Table, u: Table, tid: Tid, sid: Sid, l: LockId, refs: nat)
    requires Formed(t) && u == SetDefault(t, sid) && sid in u.states && l == u.states[sid] && l < |u.refs| && refs == u.refs[l]
    ensures Enter(t, tid, sid)
            == u.(refs := u.refs[l := refs + 1]).(queued := u.queued + {tid}, seats := u.seats[tid := Seat(sid, l)])
  {}

  class SessionState {
    ghost const id: LockId
    var held: bool
    var refs: nat

    constructor (ghost id: LockId)
      ensures this.id == id && !held && refs == 0
    {
      this.id := id;
      held, refs := false, 0;
    }
  }

  class Sessions {
    var lastUsed: map<Sid, int>
    var states: map<Sid, SessionState>
    /** Every state object ever made, and what the threads are doing with them. */
    ghost var made: seq<SessionState>
    ghost var holder: map<LockId, Tid>
    ghost var queued: set<Tid>
    ghost var seats: map<Tid, Seat>

    ghost function Refs(): (r: seq<nat>)
      reads this, made
      ensures |r| == |made| && forall i :: 0 <= i < |made| ==> r[i] == made[i].refs
    {
      seq(|made|, i requires 0 <= i < |made| reads this, made => made[i].refs)
    }

    ghost function States(): map<Sid, LockId>
      reads this
    {
      map s | s in states :: states[s].id
    }

    ghost function View(): Table
      reads this, made
    {
      Table(lastUsed, States(), Refs(), holder, queued, seats)
    }

    /** The objects represent a well-formed table. Nothing here mentions the lock
        invariant: every method is one step of `SessionLocks`, which keeps it. */
    ghost predicate Valid()
      reads this, made
    {
      Wired() && Formed(View())
    }

    ghost predicate Wired()
      reads this, made
    {
      && (forall i :: 0 <= i < |made| ==> made[i].id == i && (made[i].held <==> i in holder))
      && (forall s <- states :: states[s] in made)
      && (forall l <- holder :: l < |made|)
    }

    constructor ()
      ensures Wired() && View() == EMPTY && LockInv(View())
    {
      lastUsed, states := map[], map[];
      made, holder, queued, seats := [], map[], {}, map[];
    }

    method SetDefault(sid: Sid) returns (state: SessionState)
      requires Wired()
      modifies this`states, this`made
      ensures Wired() && View() == SessionLocks.SetDefault(old(View()), sid)
      ensures sid in states && state == states[sid] && state in made
      ensures state.id < |made| && sid in View().states && View().states[sid] == state.id
      ensures |View().refs| == |made| && View().refs[state.id] == state.refs
      ensures old(made) <= made && forall o <- made :: o in old(made) || fresh(o)
    {
      if sid in states {
        state := states[sid];
      } else {
        state := new SessionState(|made|);
        ghost var before := States();
        states := states[sid := state];
        made := made + [state];
        assert States() == before[sid := state.id];
        assert Refs() == old(Refs()) + [0];
      }
    }

    method Count(state: SessionState, refs: nat)
      requires Wired() && state in made
      modifies state`refs
      ensures state.refs == refs
      ensures Wired() && state.id < |made| && View() == old(View()).(refs := old(Refs())[state.id := refs])
    {
      state.refs := refs;
      assert Refs() == old(Refs())[state.id := refs];
    }

    method Pop(sid: Sid)
      requires Wired()
      modifies this`states
      ensures Wired() && View() == old(View()).(states := old(States()) - {sid})
    {
      ghost var before := States();
      states := states - {sid};
      assert States() == before - {sid};
    }

    ghost method Seated(queued': set<Tid>, seats': map<Tid, Seat>)
      requires Wired()
      modifies this`queued, this`seats
      ensures queued == queued' && seats == seats'
      ensures Wired() && View() == old(View()).(queued := queued', seats := seats')
    {
      queued, seats := queued', seats';
    }

    /** The first `_state_lock` section of `_session_lock`. */
    method Enter(ghost tid: Tid, sid: Sid) returns (state: SessionState)
      requires Valid() && tid !in seats
      modifies this, made
      ensures Wired() && View() == SessionLocks.Enter(old(View()), tid, sid)
      ensures tid in seats && state in made && state.id == seats[tid].lock
    {
      hide Formed, SessionLocks.Enter, SessionLocks.SetDefault, View, Wired, Refs, States;
      ghost var t := View();
      state := SetDefault(sid);
      EnterInParts(t, View(), tid, sid, state.id, state.refs);
      Join(tid, sid, state);
    }

    /** The reference is counted; the thread queues for the lock. */
    method Join(ghost tid: Tid, ghost sid: Sid, state: SessionState)
      requires Wired() && state in made
      modifies this`queued, this`seats, state`refs
      ensures Wired() && state.id < |made| && seats == old(seats)[tid := Seat(sid, state.id)]
      ensures View() == old(View()).(refs := old(View()).refs[state.id := old(state.refs) + 1])
                                   .(queued := old(View()).queued + {tid}, seats := old(View()).seats[tid := Seat(sid, state.id)])
    {
      Count(state, state.refs + 1);
      Seated(queued + {tid}, seats[tid := Seat(sid, state.id)]);
    }

    /** `state.lock.acquire(timeout=...)`; a thread whose patience ends gets `false`. */
    method Acquire(ghost tid: Tid, state: SessionState, expired: bool) returns (ok: bool)
      requires Wired() && tid in seats && tid in queued && state in made && state.id == seats[tid].lock
      modifies this`holder, this`queued, state
      ensures ok <==> old(CanAcquire(View(), tid)) && !expired
      ensures Wired() && View() == if ok then SessionLocks.Acquire(old(View()), tid) else old(View())
    {
      if state.held || expired {
        return false;
      }
      state.held := true;
      holder, queued := holder[state.id := tid], queued - {tid};
      assert Refs() == old(Refs());
      return true;
    }

    method Release(ghost tid: Tid, state: SessionState)
      requires Wired() && Inside(View(), tid) && state in made && state.id == seats[tid].lock
      modifies this`holder, state
      ensures Wired() && View() == SessionLocks.Release(old(View()), tid)
    {
      state.held := false;
      holder := holder - {state.id};
      assert Refs() == old(Refs());
    }

    /** The closing `_state_lock` section, the same after a timeout and after a release. */
    method Leave(ghost tid: Tid, sid: Sid, state: SessionState)
      requires Valid() && tid in seats
      requires state in made && seats[tid] == Seat(sid, state.id)
      modifies this, state
      ensures Wired() && View() == Depart(old(View()), tid)
    {
      Count(state, state.refs - 1);
      if state.refs == 0 && sid !in lastUsed {
        Pop(sid);
      }
      Seated(queued - {tid}, seats - {tid});
    }

    method Touch(sid: Sid, now: int)
      requires Wired()
      modifies this`lastUsed, this`states, this`made
      ensures Wired() && View() == SessionLocks.Touch(old(View()), sid, now)
    {
      var _ := SetDefault(sid);
      Use(lastUsed[sid := now]);
    }

    method Use(lastUsed': map<Sid, int>)
      requires Wired()
      modifies this`lastUsed
      ensures Wired() && View() == old(View()).(lastUsed := lastUsed')
    {
      lastUsed := lastUsed';
    }

    method Forget(sid: Sid)
      requires Valid()
      modifies this`lastUsed, this`states
      ensures Wired() && View() == SessionLocks.Forget(old(View()), sid)
    {
      lastUsed := lastUsed - {sid};
      if sid in states && states[sid].refs == 0 {
        Pop(sid);
      }
    }
  }
}
