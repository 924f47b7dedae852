/** A creation goes through whenever there is room, and what is then remembered of the session. */
module SessionCreation {
  import opened Prelude
  import SessionLocks
  import opened SandboxLifecycle

  /** Fewer containers than the configured maximum, if there is one, and nobody counting. */
  predicate Room(w: World) {
    w.counting.None? && (w.cap > 0 ==> |w.containers| < w.cap)
  }

  ghost predicate Fresh(w: World, tid: SessionLocks.Tid, job: Job) {
    job.Create? && job.stage.Made? && tid !in w.jobs && tid !in w.locks.seats && tid != REAPER && job.sid !in w.known
  }

  /** The container runs, the session's own settings and a use now are remembered, and every
      other session, every archive and every other thread is as before. */
  ghost predicate Created(w: World, job: Job, w': World)
    requires job.Create?
  {
    && w'.containers == w.containers + {job.sid} && w'.jobs == w.jobs && w'.counting.None? && w'.objects == w.objects
    && w'.locks.lastUsed == w.locks.lastUsed[job.sid := w.now] && w'.now == w.now && w'.cap == w.cap
    && w'.keys == (if job.key.Some? then w.keys[job.sid := job.key.value] else w.keys - {job.sid})
    && w'.storage == (if job.bucket.Some? then w.storage[job.sid := job.bucket.value] else w.storage)
    && w'.ttl.usual == w.ttl.usual && w'.ttl.own == (if job.ttl > 0 then w.ttl.own[job.sid := job.ttl] else w.ttl.own)
  }

  lemma CountThenRun(w: World, tid: SessionLocks.Tid, job: Job) returns (counted: World, made: World)
    requires Room(w) && Fresh(w, tid, job)
    ensures Step(w, counted) && Step(counted, made)
    ensures made.jobs == w.jobs[tid := job] && made.containers == w.containers + {job.sid} && made.counting.None?
    ensures made.objects == w.objects && made.locks == w.locks && made.now == w.now && made.cap == w.cap
    ensures made.keys == w.keys && made.storage == w.storage && made.ttl == w.ttl
  {
    counted := w.(counting := Some(tid));
    made := counted.(counting := None, containers := w.containers + {job.sid}, known := w.known + {job.sid},
      madeKey := if job.key.Some? then w.madeKey[job.sid := job.key.value] else w.madeKey, jobs := w.jobs[tid := job]);
    assert CreateCount(w, tid, counted) && CreateRun(counted, tid, job, made);
    assert Creation(w, counted) && Creation(counted, made);
  }

  lemma RecordKey(w: World, tid: SessionLocks.Tid, job: Job) returns (keyed: World)
    requires tid in w.jobs && w.jobs[tid] == job && job.Create? && job.stage.Made?
    ensures Step(w, keyed)
    ensures keyed == w.(keys := if job.key.Some? then w.keys[job.sid := job.key.value] else w.keys - {job.sid},
                        jobs := w.jobs[tid := job.(stage := Keyed)])
  {
    keyed := w.(keys := if job.key.Some? then w.keys[job.sid := job.key.value] else w.keys - {job.sid},
      jobs := w.jobs[tid := job.(stage := Keyed)]);
    assert CreateKey(w, tid, keyed);
    hide CreateKey;
    assert Creation(w, keyed);
  }

  lemma RecordStorage(w: World, tid: SessionLocks.Tid, job: Job) returns (stored: World)
    requires tid in w.jobs && w.jobs[tid] == job && job.Create? && job.stage.Keyed?
    ensures Step(w, stored)
    ensures stored == w.(storage := if job.bucket.Some? then w.storage[job.sid := job.bucket.value] else w.storage,
                         jobs := w.jobs[tid := job.(stage := Stored)])
  {
    stored := w.(storage := if job.bucket.Some? then w.storage[job.sid := job.bucket.value] else w.storage,
      jobs := w.jobs[tid := job.(stage := Stored)]);
    assert CreateStore(w, tid, stored);
    hide CreateStore;
    assert Creation(w, stored);
  }

  lemma RecordTtl(w: World, tid: SessionLocks.Tid, job: Job) returns (timed: World)
    requires tid in w.jobs && w.jobs[tid] == job && job.Create? && job.stage.Stored?
    ensures Step(w, timed)
    ensures timed == w.(ttl := if job.ttl > 0 then w.ttl.(own := w.ttl.own[job.sid := job.ttl]) else w.ttl,
                        jobs := w.jobs[tid := job.(stage := Timed)])
  {
    timed := w.(ttl := if job.ttl > 0 then w.ttl.(own := w.ttl.own[job.sid := job.ttl]) else w.ttl,
      jobs := w.jobs[tid := job.(stage := Timed)]);
    assert CreateTtl(w, tid, timed);
    hide CreateTtl;
    assert Creation(w, timed);
  }

  lemma RecordUse(w: World, tid: SessionLocks.Tid, job: Job) returns (touched: World)
    requires tid in w.jobs && w.jobs[tid] == job && job.Create? && job.stage.Timed?
    ensures Step(w, touched)
    ensures touched == w.(locks := touched.locks, jobs := w.jobs - {tid})
    ensures touched.locks.lastUsed == w.locks.lastUsed[job.sid := w.now]
  {
    touched := w.(locks := SessionLocks.Touch(w.locks, job.sid, w.now), jobs := w.jobs - {tid});
    assert CreateTouch(w, tid, touched);
    hide CreateTouch;
    assert Creation(w, touched);
  }

  /** Wherever there is room, whatever else is under way, six steps make a session, and then it is
      remembered with its own key, bucket and time to live. */
  lemma CreationGoesThrough(w: World, tid: SessionLocks.Tid, job: Job) returns (ws: seq<World>)
    requires Room(w) && Fresh(w, tid, job)
    ensures |ws| == 7 && ws[0] == w && forall i :: 0 <= i < 6 ==> Step(ws[i], ws[i + 1])
    ensures Created(w, job, ws[6])
  {
    hide SandboxLifecycle.Step;
    var counted, made := CountThenRun(w, tid, job);
    var keyed := RecordKey(made, tid, job);
    var stored := RecordStorage(keyed, tid, keyed.jobs[tid]);
    var timed := RecordTtl(stored, tid, stored.jobs[tid]);
    var touched := RecordUse(timed, tid, timed.jobs[tid]);
    assert touched.jobs == w.jobs;
    ws := [w, counted, made, keyed, stored, timed, touched];
  }
}
