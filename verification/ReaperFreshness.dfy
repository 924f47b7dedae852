/** How long a session lives after its last use: the reaper's check in terms of what happened
    and when, and no longer of what the sidecar remembers of it. */
module ReaperFreshness {
  import opened Prelude
  import opened SessionLocks
  import opened SandboxLifecycle

  predicate IsServed(job: Job) {
    !job.Create? && job.body == Some(Served)
  }

  /** Time goes on, a last use is a former one or this moment, and a request is served only by
      recording a use. */
  ghost predicate Timely(w: World, w': World) {
    && w.now <= w'.now
    && (forall t <- w'.jobs :: IsServed(w'.jobs[t]) ==> (t in w.jobs && w.jobs[t] == w'.jobs[t]) || UseTouch(w, t, w'))
    && forall sid <- w'.locks.lastUsed ::
         (sid in w.locks.lastUsed && w'.locks.lastUsed[sid] == w.locks.lastUsed[sid]) || w'.locks.lastUsed[sid] == w.now
  }

  lemma {:induction false} DiscoveredNow(found: seq<Sid>, now: int)
    ensures forall sid <- Discovered(found, now).lastUsed :: Discovered(found, now).lastUsed[sid] == now
  {
    if found != [] {
      DiscoveredNow(found[..|found| - 1], now);
    }
  }

  /** A step that neither records a use nor makes a session: no time passes, last uses and
      times to live stay or are forgotten, and creations under way are left alone. */
  ghost predicate Quiet(w: World, w': World) {
    && w'.now == w.now && w.known <= w'.known
    && (forall sid <- w'.locks.lastUsed :: sid in w.locks.lastUsed && w'.locks.lastUsed[sid] == w.locks.lastUsed[sid])
    && (forall sid <- w'.ttl.own :: sid in w.ttl.own && w'.ttl.own[sid] == w.ttl.own[sid])
    && (forall tid <- w'.jobs :: w'.jobs[tid].Create? || IsServed(w'.jobs[tid]) ==> tid in w.jobs && w.jobs[tid] == w'.jobs[tid])
  }

  lemma QuietGo(w: World, u: World, tid: Tid, b: Body)
    requires u.now == w.now && u.known == w.known && u.locks.lastUsed == w.locks.lastUsed && u.ttl == w.ttl && u.jobs == w.jobs
    requires tid in w.jobs && !w.jobs[tid].Create? && !b.Served?
    ensures Quiet(w, Go(u, tid, b))
  {}

  lemma RequestQuiet(w: World, tid: Tid, w': World)
    requires tid !in w.jobs && tid in w'.jobs && !w'.jobs[tid].Create? && w'.jobs[tid].body.None?
    requires w' == w.(known := w'.known, jobs := w.jobs[tid := w'.jobs[tid]], stale := w'.stale) && w.known <= w'.known
    ensures Quiet(w, w')
  {}

  lemma ArrivalQuiet(w: World, w': World)
    requires Arrival(w, w')
    ensures Quiet(w, w')
  {
    hide Quiet;
    if tid, sid :| StartUse(w, tid, sid, w') { RequestQuiet(w, tid, w'); }
    else if tid, sid, bucket, discard, key :| StartDelete(w, tid, sid, bucket, discard, key, w') { RequestQuiet(w, tid, w'); }
    else if sid :| StartReap(w, sid, w') { RequestQuiet(w, REAPER, w'); }
    else if Snapshot(w, w') { SnapshotQuiet(w, w'); }
  }

  lemma SnapshotQuiet(w: World, w': World)
    requires Snapshot(w, w')
    ensures Quiet(w, w')
  {}

  lemma GetLockQuiet(w: World, tid: Tid, w': World)
    requires GetLock(w, tid, w')
    ensures Quiet(w, w')
  {
    QuietGo(w, w.(locks := Acquire(w.locks, tid)), tid, Fresh);
    hide Quiet;
  }

  lemma EnteringQuiet(w: World, tid: Tid, w': World)
    requires EnterLock(w, tid, w') || LeaveLock(w, tid, w')
    ensures Quiet(w, w')
  {}

  lemma EndingQuiet(w: World, tid: Tid, w': World)
    requires GiveUp(w, tid, w') || Unlock(w, tid, w')
    ensures Quiet(w, w')
  {}

  lemma LockingQuiet(w: World, w': World)
    requires Locking(w, w')
    ensures Quiet(w, w')
  {
    hide Quiet, EnterLock, GetLock, GiveUp, Unlock, LeaveLock;
    if tid :| GetLock(w, tid, w') { GetLockQuiet(w, tid, w'); }
    else if tid :| EnterLock(w, tid, w') || LeaveLock(w, tid, w') { EnteringQuiet(w, tid, w'); }
    else if tid :| GiveUp(w, tid, w') || Unlock(w, tid, w') { EndingQuiet(w, tid, w'); }
  }

  lemma WorkingQuiet(w: World, w': World)
    requires Working(w, w') && !exists tid :: UseTouch(w, tid, w')
    ensures Quiet(w, w')
  {
    hide Quiet;
    if tid :| UseFinds(w, tid, w') { QuietGo(w, w, tid, Running); }
    else if tid :| ReapCheck(w, tid, w') { QuietGo(w, w, tid, Packing); }
    else if tid :| DeleteKeep(w, tid, w') { QuietGo(w, w, tid, Packing); }
    else if tid :| DeleteDiscard(w, tid, w') { QuietGo(w, w, tid, w'.jobs[tid].body.value); }
  }

  lemma PutQuiet(w: World, tid: Tid, ok: bool, w': World)
    requires Put(w, tid, ok, w')
    ensures Quiet(w, w')
  {
    QuietGo(w, w.(objects := w'.objects), tid, Removing(NoPurge));
    hide Quiet;
  }

  lemma PurgeOneQuiet(w: World, tid: Tid, stem: Stem, ok: bool, w': World)
    requires PurgeOne(w, tid, stem, ok, w')
    ensures Quiet(w, w')
  {
    QuietGo(w, w.(objects := w'.objects), tid, w'.jobs[tid].body.value);
    hide Quiet;
  }

  lemma ArchivingQuiet(w: World, w': World)
    requires Archiving(w, w')
    ensures Quiet(w, w')
  {
    hide Quiet, Put, PurgeOne, Pack, SkipPack, PurgeEnd;
    if tid, ok :| Put(w, tid, ok, w') { PutQuiet(w, tid, ok, w'); }
    else if tid, stem, ok :| PurgeOne(w, tid, stem, ok, w') { PurgeOneQuiet(w, tid, stem, ok, w'); }
    else if tid :| Pack(w, tid, w') || SkipPack(w, tid, w') || PurgeEnd(w, tid, w') { GoingOnQuiet(w, tid, w'); }
  }

  lemma GoingOnQuiet(w: World, tid: Tid, w': World)
    requires Pack(w, tid, w') || SkipPack(w, tid, w') || PurgeEnd(w, tid, w')
    ensures Quiet(w, w')
  {
    assert tid in w.jobs && !w.jobs[tid].Create? && w' == Go(w, tid, w'.jobs[tid].body.value) && !w'.jobs[tid].body.value.Served?;
    hide *;
    QuietGo(w, w, tid, w'.jobs[tid].body.value);
  }

  lemma RemoveQuiet(w: World, tid: Tid, gone: bool, w': World)
    requires Remove(w, tid, gone, w') || RemoveRaises(w, tid, gone, w')
    ensures Quiet(w, w')
  {
    QuietGo(w, w.(containers := w'.containers), tid, w'.jobs[tid].body.value);
    hide Quiet;
  }

  lemma DropQuiet(w: World, tid: Tid, w': World)
    requires Drop(w, tid, w')
    ensures Quiet(w, w')
  {}

  lemma TearingDownQuiet(w: World, w': World)
    requires TearingDown(w, w')
    ensures Quiet(w, w')
  {
    hide Quiet, Drop, Remove, RemoveRaises;
    if tid :| Drop(w, tid, w') { DropQuiet(w, tid, w'); }
    else if tid, gone :| Remove(w, tid, gone, w') || RemoveRaises(w, tid, gone, w') { RemoveQuiet(w, tid, gone, w'); }
  }

  lemma TickTimely(w: World, w': World, secs: nat, sid: Sid)
    requires Tick(w, secs, w')
    ensures Timely(w, w') && (Settled(w, sid) ==> TtlStays(w, w', sid))
  {}

  lemma RestartTimely(w: World, w': World, found: seq<Sid>, gone: set<Sid>, sid: Sid)
    requires Restart(w, found, gone, w')
    ensures Timely(w, w') && (Settled(w, sid) ==> TtlStays(w, w', sid))
  {
    DiscoveredNow(found, w.now);
    hide Discovered;
  }

  lemma SurroundingsTimely(w: World, w': World, sid: Sid)
    requires Surroundings(w, w')
    ensures Timely(w, w') && (Settled(w, sid) ==> TtlStays(w, w', sid))
  {
    hide Tick, Restart, Timely, Settled, TtlStays;
    if secs: nat :| Tick(w, secs, w') { TickTimely(w, w', secs, sid); }
    else if found, gone :| Restart(w, found, gone, w') { RestartTimely(w, w', found, gone, sid); }
    else if other :| Stop(w, other, w') { QuietKeeps(w, w', sid); }
    else if bucket, stem :| DropObject(w, bucket, stem, w') { QuietKeeps(w, w', sid); }
  }

  /** The session is known, and its creation, if it is under way, has recorded its time to live. */
  ghost predicate Settled(w: World, sid: Sid) {
    sid in w.known && forall tid <- w.jobs :: w.jobs[tid].Create? && w.jobs[tid].sid == sid ==> w.jobs[tid].stage.Timed?
  }

  ghost predicate TtlStays(w: World, w': World, sid: Sid) {
    Settled(w', sid) && (sid in w'.ttl.own ==> sid in w.ttl.own && w'.ttl.own[sid] == w.ttl.own[sid])
  }

  /** A creation goes on to another stage, or ends. */
  ghost predicate Stages(w: World, w': World, tid: Tid) {
    && tid in w.jobs && w.jobs[tid].Create? && w.known == w'.known
    && forall t <- w'.jobs :: t in w.jobs && if t == tid then w'.jobs[t].Create? && w'.jobs[t].sid == w.jobs[t].sid && !w.jobs[t].stage.Timed?
                                             else w'.jobs[t] == w.jobs[t]
  }

  lemma StageSettled(w: World, w': World, tid: Tid, sid: Sid)
    requires Settled(w, sid) && Stages(w, w', tid)
    ensures Settled(w', sid) && (w.jobs[tid].sid == sid ==> w.jobs[tid].stage.Timed?)
  {}

  lemma CreationTimely(w: World, w': World, sid: Sid)
    requires Creation(w, w')
    ensures Timely(w, w') && (Settled(w, sid) ==> TtlStays(w, w', sid))
  {
    hide CreateRun, CreateCount, CreateNothing, CreateKey, CreateStore, CreateTtl, CreateTouch, CreateFailsEarly, CreateFailsLate;
    hide Settled, TtlStays, Timely;
    if tid, job :| CreateRun(w, tid, job, w') { RunTimely(w, w', tid, job, sid); }
    else if tid :| CreateCount(w, tid, w') || CreateNothing(w, tid, w') { CountTimely(w, w', tid, sid); }
    else if tid, removed :| CreateFailsEarly(w, tid, removed, w') || CreateFailsLate(w, tid, removed, w') { FailTimely(w, w', tid, removed, sid); }
    else if tid :| CreateKey(w, tid, w') || CreateStore(w, tid, w') { EarlyTimely(w, w', tid, sid); }
    else if tid :| CreateTtl(w, tid, w') || CreateTouch(w, tid, w') { LateTimely(w, w', tid, sid); }
  }

  lemma RunTimely(w: World, w': World, tid: Tid, job: Job, sid: Sid)
    requires CreateRun(w, tid, job, w')
    ensures Timely(w, w') && (Settled(w, sid) ==> TtlStays(w, w', sid))
  {}

  lemma CountTimely(w: World, w': World, tid: Tid, sid: Sid)
    requires CreateCount(w, tid, w') || CreateNothing(w, tid, w')
    ensures Timely(w, w') && (Settled(w, sid) ==> TtlStays(w, w', sid))
  {}

  lemma FailTimely(w: World, w': World, tid: Tid, removed: bool, sid: Sid)
    requires CreateFailsEarly(w, tid, removed, w') || CreateFailsLate(w, tid, removed, w')
    ensures Timely(w, w') && (Settled(w, sid) ==> TtlStays(w, w', sid))
  {
    hide Settled;
    if Settled(w, sid) {
      StageSettled(w, w', tid, sid);
    }
  }

  lemma EarlyTimely(w: World, w': World, tid: Tid, sid: Sid)
    requires CreateKey(w, tid, w') || CreateStore(w, tid, w')
    ensures Timely(w, w') && (Settled(w, sid) ==> TtlStays(w, w', sid))
  {
    hide Settled;
    if Settled(w, sid) {
      StageSettled(w, w', tid, sid);
    }
  }

  lemma LateTimely(w: World, w': World, tid: Tid, sid: Sid)
    requires CreateTtl(w, tid, w') || CreateTouch(w, tid, w')
    ensures Timely(w, w') && (Settled(w, sid) ==> TtlStays(w, w', sid))
  {
    hide Settled;
    if Settled(w, sid) {
      StageSettled(w, w', tid, sid);
    }
  }

  lemma TouchTtl(w: World, w': World, tid: Tid, sid: Sid)
    requires UseTouch(w, tid, w')
    ensures Timely(w, w') && (Settled(w, sid) ==> TtlStays(w, w', sid))
  {}

  lemma QuietKeeps(w: World, w': World, sid: Sid)
    requires Quiet(w, w')
    ensures Timely(w, w') && (Settled(w, sid) ==> TtlStays(w, w', sid))
  {}

  lemma StepTimely(w: World, w': World, sid: Sid)
    requires SandboxLifecycle.Step(w, w')
    ensures Timely(w, w') && (Settled(w, sid) ==> TtlStays(w, w', sid))
  {
    hide Surroundings, Creation, Arrival, Locking, Working, Archiving, TearingDown, Settled, TtlStays, Timely, Quiet, UseTouch;
    if Surroundings(w, w') {
      SurroundingsTimely(w, w', sid);
    } else if Creation(w, w') {
      CreationTimely(w, w', sid);
    } else if tid :| UseTouch(w, tid, w') {
      TouchTtl(w, w', tid, sid);
    } else {
      if Arrival(w, w') { ArrivalQuiet(w, w'); }
      else if Locking(w, w') { LockingQuiet(w, w'); }
      else if Working(w, w') { WorkingQuiet(w, w'); }
      else if Archiving(w, w') { ArchivingQuiet(w, w'); }
      else if TearingDown(w, w') { TearingDownQuiet(w, w'); }
      QuietKeeps(w, w', sid);
    }
  }

  /** Thread `tid` records a use of its session: at the end of an exec or file request, or when
      the session has just been made. */
  ghost predicate Uses(w: World, tid: Tid, w': World) {
    UseTouch(w, tid, w') || CreateTouch(w, tid, w')
  }

  /** Thread `tid` is the reaper about to remove the container. */
  ghost predicate Reaps(w: World, tid: Tid, w': World) {
    && tid in w.jobs && w.jobs[tid].Reap?
    && exists gone :: Remove(w, tid, gone, w') || RemoveRaises(w, tid, gone, w')
  }

  /** From a use on, whatever is remembered of the session is not older than it. */
  lemma {:induction false} RememberedSince(ws: seq<World>, i: nat, n: nat, tid: Tid)
    requires IsRun(ws) && i < n < |ws| && Uses(ws[i], tid, ws[i + 1])
    ensures tid in ws[i].jobs && ws[i].now <= ws[n].now
    ensures ws[i].jobs[tid].sid in ws[n].locks.lastUsed ==> ws[n].locks.lastUsed[ws[i].jobs[tid].sid] >= ws[i].now
  {
    hide SandboxLifecycle.Step;
    assert tid in ws[i].jobs;
    assert SandboxLifecycle.StepAt(ws, n - 1);
    StepTimely(ws[n - 1], ws[n], ws[i].jobs[tid].sid);
    if i + 1 < n {
      hide Uses;
      RememberedSince(ws, i, n - 1, tid);
    }
  }

  /** A session whose container runs is removed by the reaper only if every use of it, in the
      whole run, is longer ago than its time to live. */
  lemma ReaperSparesTheUsed(ws: seq<World>, i: nat, n: nat, user: Tid, reaper: Tid)
    requires IsRun(ws) && i < n && n + 1 < |ws| && Uses(ws[i], user, ws[i + 1])
    requires Reaps(ws[n], reaper, ws[n + 1]) && ws[n].jobs[reaper].sid in ws[n].containers
    requires user in ws[i].jobs && ws[i].jobs[user].sid == ws[n].jobs[reaper].sid
    ensures ws[n].now - ws[i].now > TtlOf(ws[n].ttl, ws[n].jobs[reaper].sid)
  {
    RememberedSince(ws, i, n, user);
    var gone :| Remove(ws[n], reaper, gone, ws[n + 1]) || RemoveRaises(ws[n], reaper, gone, ws[n + 1]);
    ReaperOnlyRemovesIdle(ws, n, reaper, gone);
  }

  /** A request that has been served has recorded its use. */
  lemma {:induction false} ServedAfterTouch(ws: seq<World>, i: nat, tid: Tid) returns (k: nat)
    requires IsRun(ws) && i < |ws| && At(ws[i], tid, Served)
    ensures k < i && UseTouch(ws[k], tid, ws[k + 1])
    ensures ws[k].jobs[tid].sid == ws[i].jobs[tid].sid && ws[k].now <= ws[i].now
  {
    hide SandboxLifecycle.Step;
    assert SandboxLifecycle.StepAt(ws, i - 1);
    StepTimely(ws[i - 1], ws[i], ws[i].jobs[tid].sid);
    assert IsServed(ws[i].jobs[tid]);
    if UseTouch(ws[i - 1], tid, ws[i]) {
      k := i - 1;
    } else {
      k := ServedAfterTouch(ws, i - 1, tid);
    }
  }

  /** And so a session for which a request has returned ok, having left the critical section at
      step i, is removed by the reaper only when a time to live has passed since that request
      recorded its use. */
  lemma ReaperSparesTheServed(ws: seq<World>, i: nat, n: nat, user: Tid, reaper: Tid) returns (k: nat)
    requires IsRun(ws) && i < n && n + 1 < |ws|
    requires At(ws[i], user, Served) && Unlock(ws[i], user, ws[i + 1])
    requires Reaps(ws[n], reaper, ws[n + 1]) && ws[n].jobs[reaper].sid in ws[n].containers
    requires ws[i].jobs[user].sid == ws[n].jobs[reaper].sid
    ensures k < i && UseTouch(ws[k], user, ws[k + 1]) && ws[n].now - ws[k].now > TtlOf(ws[n].ttl, ws[n].jobs[reaper].sid)
  {
    k := ServedAfterTouch(ws, i, user);
    ReaperSparesTheUsed(ws, k, n, user, reaper);
  }

  /** A session's own time to live, as long as it is remembered, is the one it was made with;
      until a restart or the end of the session there is no other. */
  lemma {:induction false} OwnTimeToLive(ws: seq<World>, i: nat, n: nat, tid: Tid)
    requires IsRun(ws) && i < n < |ws| && CreateTtl(ws[i], tid, ws[i + 1])
    ensures tid in ws[i].jobs && ws[i].jobs[tid].Create?
    ensures var job := ws[i].jobs[tid];
            && Settled(ws[n], job.sid)
            && (job.sid in ws[n].ttl.own && job.ttl > 0 ==> TtlOf(ws[n].ttl, job.sid) == job.ttl)
            && (n == i + 1 && job.ttl > 0 ==> job.sid in ws[n].ttl.own)
  {
    hide SandboxLifecycle.Step;
    var sid := ws[i].jobs[tid].sid;
    if n == i + 1 {
      RunKeepsInv(ws, i);
      assert Alone(tid, ws[i].jobs[tid], ws[i].jobs, ws[i].locks.lastUsed, ws[i].stale, ws[i].madeKey);
      assert sid in ws[i].known;
    } else {
      OwnTimeToLive(ws, i, n - 1, tid);
      assert SandboxLifecycle.StepAt(ws, n - 1);
      StepTimely(ws[n - 1], ws[n], sid);
    }
  }

  /** The other way round: the stale list has every session whose last use is older than its
      time to live. */
  lemma StaleAreTheIdle(w: World, w': World, sid: Sid)
    requires Snapshot(w, w')
    ensures sid in w'.stale <==> sid in w.locks.lastUsed && w.now - w.locks.lastUsed[sid] > TtlOf(w.ttl, sid)
  {}

  /** And a reaper that has locked a session goes on exactly if there is no younger use. */
  lemma IdleIsReaped(w: World, reaper: Tid)
    requires At(w, reaper, Fresh) && w.jobs[reaper].Reap?
    ensures var sid := w.jobs[reaper].sid;
            (exists w' :: ReapCheck(w, reaper, w')) <==>
            (sid in w.locks.lastUsed ==> w.now - w.locks.lastUsed[sid] > TtlOf(w.ttl, sid))
  {
    if Idle(w.locks.lastUsed, w.ttl, w.now, w.jobs[reaper].sid) {
      assert ReapCheck(w, reaper, Go(w, reaper, Packing));
    }
  }
}
