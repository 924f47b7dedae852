/** Sessions of the sandbox sidecar from creation to removal, as an interleaving of
    small steps: request handlers, DELETE with or without purge, and the idle reaper,
    over the shared dictionaries, an abstract Docker and an abstract object store.
    One step is one `_state_lock` section, one lock operation, or one Docker or
    storage call, which succeeds or reports failure. */
module SandboxLifecycle {
  import opened Prelude
  import opened SessionLocks

  type Stem = string
  type Bucket = string

  /** What became of the archive in a teardown. */
  datatype Purge = NoPurge | Purged(stems: set<Stem>) | PurgeFailed

  /** How far a thread is inside `with _session_lock(sid)`. */
  datatype Body =
    | Fresh
    | Running
    | Served
    | Packing
    | Packed(bucket: Bucket)
    | Purging(todo: set<Stem>, done: set<Stem>)
    | Removing(purge: Purge)
    | Removed(purge: Purge)
    | Finished(purge: Purge)
    | Raised

  datatype CreateStage = Made | Keyed | Stored | Timed

  /** The program a thread runs; `body` is absent until it owns the session lock. */
  datatype Job =
    | Create(sid: Sid, key: Option<Stem>, bucket: Option<Bucket>, ttl: int, stage: CreateStage)
    | Use(sid: Sid, body: Option<Body>)
    | Delete(sid: Sid, bucket: Option<Bucket>, discard: bool, key: Option<Stem>, body: Option<Body>)
    | Reap(sid: Sid, body: Option<Body>)

  /** A discard DELETE that has returned ok, and what it purged; nothing without a bucket. */
  datatype Cleared = Cleared(sid: Sid, bucket: Option<Bucket>, key: Option<Stem>, stems: set<Stem>)

  /** Times to live: a session's own, and the configured one for all others. */
  datatype Ttls = Ttls(own: map<Sid, int>, usual: int)

  /** `containers` are those that run. `cap` is the configured maximum of sessions, and `counting` the thread that holds
      `_create_count_lock` with the count found below it. `objects` records which session wrote each archive, `madeKey` the archive key a
      session was created with, `known` every id made or named so far; none of the
      three is read by the program. */
  datatype World = World(
    locks: Table,
    ttl: Ttls,
    storage: map<Sid, Bucket>,
    keys: map<Sid, Stem>,
    now: int,
    cap: int,
    counting: Option<Tid>,
    containers: set<Sid>,
    objects: map<(Bucket, Stem), Sid>,
    jobs: map<Tid, Job>,
    stale: set<Sid>,
    known: set<Sid>,
    madeKey: map<Sid, Stem>,
    cleared: set<Cleared>)

  /** The reaper's own thread. */
  const REAPER: Tid := 0

  function TtlOf(ttl: Ttls, sid: Sid): int {
    if sid in ttl.own then ttl.own[sid] else ttl.usual
  }

  predicate Idle(lastUsed: map<Sid, int>, ttl: Ttls, now: int, sid: Sid) {
    sid !in lastUsed || now - lastUsed[sid] > TtlOf(ttl, sid)
  }

  /** `_archive_stem`. */
  function StemOf(w: World, sid: Sid): Stem {
    if sid in w.keys then w.keys[sid] else sid
  }

  function Look<T>(m: map<Sid, T>, sid: Sid): Option<T> {
    if sid in m then Some(m[sid]) else None
  }

  predicate BeingMade(w: World, sid: Sid) {
    exists tid <- w.jobs :: w.jobs[tid].Create? && w.jobs[tid].sid == sid
  }

  /** Thread `tid` owns its session lock and has come to `b`. */
  predicate At(w: World, tid: Tid, b: Body) {
    tid in w.jobs && !w.jobs[tid].Create? && w.jobs[tid].body == Some(b)
  }

  function Go(w: World, tid: Tid, b: Body): World
    requires tid in w.jobs && !w.jobs[tid].Create?
  {
    w.(jobs := w.jobs[tid := w.jobs[tid].(body := Some(b))])
  }

  /** The bucket a teardown archives to: DELETE's own, resolved when the request came
      in; for the reaper the one remembered now. */
  function ArchiveBucket(w: World, tid: Tid): Option<Bucket>
    requires tid in w.jobs && !w.jobs[tid].Create?
  {
    if w.jobs[tid].Delete? then w.jobs[tid].bucket else Look(w.storage, w.jobs[tid].sid)
  }

  // ------------------------------------------------------------------- the steps

  /** Time passes. */
  ghost predicate Tick(w: World, secs: nat, w': World) {
    w' == w.(now := w.now + secs)
  }

  /** A container stops by itself. */
  ghost predicate Stop(w: World, sid: Sid, w': World) {
    sid in w.containers && w' == w.(containers := w.containers - {sid})
  }

  /** DELETE on a bare archive key, and the retention sweep. */
  ghost predicate DropObject(w: World, bucket: Bucket, stem: Stem, w': World) {
    w' == w.(objects := w.objects - {(bucket, stem)})
  }

  /** `_create_count_lock` is taken and the containers are counted. */
  ghost predicate CreateCount(w: World, tid: Tid, w': World) {
    && w.counting.None? && (w.cap > 0 ==> |w.containers| < w.cap)
    && w' == w.(counting := Some(tid))
  }

  /** `docker run` under that lock; the id is fresh. */
  ghost predicate CreateRun(w: World, tid: Tid, job: Job, w': World) {
    && job.Create? && job.stage.Made? && w.counting == Some(tid)
    && tid !in w.jobs && tid !in w.locks.seats && tid != REAPER && job.sid !in w.known
    && w' == w.(counting := None, containers := w.containers + {job.sid}, known := w.known + {job.sid},
                madeKey := if job.key.Some? then w.madeKey[job.sid := job.key.value] else w.madeKey,
                jobs := w.jobs[tid := job])
  }

  /** `docker run` fails. */
  ghost predicate CreateNothing(w: World, tid: Tid, w': World) {
    w.counting == Some(tid) && w' == w.(counting := None)
  }

  ghost predicate CreateKey(w: World, tid: Tid, w': World) {
    && tid in w.jobs && w.jobs[tid].Create? && w.jobs[tid].stage.Made?
    && var job := w.jobs[tid];
       w' == w.(keys := if job.key.Some? then w.keys[job.sid := job.key.value] else w.keys - {job.sid},
                jobs := w.jobs[tid := job.(stage := Keyed)])
  }

  ghost predicate CreateStore(w: World, tid: Tid, w': World) {
    && tid in w.jobs && w.jobs[tid].Create? && w.jobs[tid].stage.Keyed?
    && var job := w.jobs[tid];
       w' == w.(storage := if job.bucket.Some? then w.storage[job.sid := job.bucket.value] else w.storage,
                jobs := w.jobs[tid := job.(stage := Stored)])
  }

  ghost predicate CreateTtl(w: World, tid: Tid, w': World) {
    && tid in w.jobs && w.jobs[tid].Create? && w.jobs[tid].stage.Stored?
    && var job := w.jobs[tid];
       w' == w.(ttl := if job.ttl > 0 then w.ttl.(own := w.ttl.own[job.sid := job.ttl]) else w.ttl,
                jobs := w.jobs[tid := job.(stage := Timed)])
  }

  ghost predicate CreateTouch(w: World, tid: Tid, w': World) {
    && tid in w.jobs && w.jobs[tid].Create? && w.jobs[tid].stage.Timed?
    && w' == w.(locks := Touch(w.locks, w.jobs[tid].sid, w.now), jobs := w.jobs - {tid})
  }

  /** Workspace init fails right after `docker run`; the exit code of `rm` is ignored. */
  ghost predicate CreateFailsEarly(w: World, tid: Tid, removed: bool, w': World) {
    && tid in w.jobs && w.jobs[tid].Create? && w.jobs[tid].stage.Made?
    && w' == w.(containers := if removed then w.containers - {w.jobs[tid].sid} else w.containers, jobs := w.jobs - {tid})
  }

  /** Resetting the input directories fails after the session was stored. */
  ghost predicate CreateFailsLate(w: World, tid: Tid, removed: bool, w': World) {
    && Formed(w.locks) && tid in w.jobs && w.jobs[tid].Create? && w.jobs[tid].stage.Stored?
    && var sid := w.jobs[tid].sid;
       w' == Forgotten(w.(containers := if removed then w.containers - {sid} else w.containers, jobs := w.jobs - {tid}), sid)
  }

  /** `_forget`. */
  ghost function Forgotten(w: World, sid: Sid): World
    requires Formed(w.locks)
  {
    w.(locks := Forget(w.locks, sid), storage := w.storage - {sid}, ttl := w.ttl.(own := w.ttl.own - {sid}), keys := w.keys - {sid})
  }

  /** A request arrives; a caller learns an id only when its creation has returned.
      DELETE resolves its bucket here, before it takes any lock. */
  ghost predicate StartUse(w: World, tid: Tid, sid: Sid, w': World) {
    && tid !in w.jobs && tid !in w.locks.seats && tid != REAPER && !BeingMade(w, sid)
    && w' == w.(known := w.known + {sid}, jobs := w.jobs[tid := Use(sid, None)])
  }

  ghost predicate StartDelete(w: World, tid: Tid, sid: Sid, bucket: Option<Bucket>, discard: bool, key: Option<Stem>, w': World) {
    && tid !in w.jobs && tid !in w.locks.seats && tid != REAPER && !BeingMade(w, sid)
    && w' == w.(known := w.known + {sid},
                jobs := w.jobs[tid := Delete(sid, if bucket.Some? then bucket else Look(w.storage, sid), discard, key, None)])
  }

  ghost predicate Snapshot(w: World, w': World) {
    && REAPER !in w.jobs && w.stale == {}
    && w' == w.(stale := set sid | sid in w.locks.lastUsed && Idle(w.locks.lastUsed, w.ttl, w.now, sid))
  }

  ghost predicate StartReap(w: World, sid: Sid, w': World) {
    && REAPER !in w.jobs && REAPER !in w.locks.seats && sid in w.stale
    && w' == w.(stale := w.stale - {sid}, jobs := w.jobs[REAPER := Reap(sid, None)])
  }

  ghost predicate EnterLock(w: World, tid: Tid, w': World) {
    && Formed(w.locks) && tid in w.jobs && !w.jobs[tid].Create? && w.jobs[tid].body.None? && tid !in w.locks.seats
    && w' == w.(locks := Enter(w.locks, tid, w.jobs[tid].sid))
  }

  ghost predicate GetLock(w: World, tid: Tid, w': World) {
    && CanAcquire(w.locks, tid) && tid in w.jobs && !w.jobs[tid].Create?
    && w' == Go(w.(locks := Acquire(w.locks, tid)), tid, Fresh)
  }

  ghost predicate GiveUp(w: World, tid: Tid, w': World) {
    && Formed(w.locks) && tid in w.locks.seats && tid in w.locks.queued
    && w' == w.(locks := Depart(w.locks, tid), jobs := w.jobs - {tid})
  }

  /** The discard DELETE that now returns ok, if this is one. */
  function ClearedBy(job: Job): set<Cleared> {
    if job.Delete? && job.discard && job.body.Some? && job.body.value.Finished? && !job.body.value.purge.PurgeFailed?
    then {Cleared(job.sid, job.bucket, job.key, if job.body.value.purge.Purged? then job.body.value.purge.stems else {})}
    else {}
  }

  /** The end of the critical section, however it is left. */
  ghost predicate Unlock(w: World, tid: Tid, w': World) {
    && Inside(w.locks, tid) && tid in w.jobs && !w.jobs[tid].Create?
    && w' == w.(locks := Release(w.locks, tid), jobs := w.jobs - {tid}, cleared := w.cleared + ClearedBy(w.jobs[tid]))
  }

  ghost predicate LeaveLock(w: World, tid: Tid, w': World) {
    && Formed(w.locks) && tid in w.locks.seats && tid !in w.locks.queued && !Inside(w.locks, tid)
    && w' == w.(locks := Depart(w.locks, tid))
  }

  /** `/exec` and the file handlers: work only in a running container, then touch. One that
      has not come to its touch when it leaves has failed. */
  ghost predicate UseFinds(w: World, tid: Tid, w': World) {
    && At(w, tid, Fresh) && w.jobs[tid].Use? && w.jobs[tid].sid in w.containers
    && w' == Go(w, tid, Running)
  }

  ghost predicate UseTouch(w: World, tid: Tid, w': World) {
    && At(w, tid, Running) && w.jobs[tid].Use?
    && w' == Go(w.(locks := Touch(w.locks, w.jobs[tid].sid, w.now)), tid, Served)
  }

  /** The reaper looks at staleness again, now under the session's lock. */
  ghost predicate ReapCheck(w: World, tid: Tid, w': World) {
    && At(w, tid, Fresh) && w.jobs[tid].Reap? && Idle(w.locks.lastUsed, w.ttl, w.now, w.jobs[tid].sid)
    && w' == Go(w, tid, Packing)
  }

  ghost predicate DeleteKeep(w: World, tid: Tid, w': World) {
    && At(w, tid, Fresh) && w.jobs[tid].Delete? && !w.jobs[tid].discard
    && w' == Go(w, tid, Packing)
  }

  ghost predicate DeleteDiscard(w: World, tid: Tid, w': World) {
    && At(w, tid, Fresh) && w.jobs[tid].Delete? && w.jobs[tid].discard
    && var job := w.jobs[tid];
       w' == if job.bucket.None? then Go(w, tid, Removing(NoPurge))
             else Go(w, tid, Purging({if job.key.Some? then job.key.value else StemOf(w, job.sid), job.sid}, {}))
  }

  /** `docker exec tar` needs the container; every other outcome is SkipPack. */
  ghost predicate Pack(w: World, tid: Tid, w': World) {
    && At(w, tid, Packing) && w.jobs[tid].sid in w.containers && ArchiveBucket(w, tid).Some?
    && w' == Go(w, tid, Packed(ArchiveBucket(w, tid).value))
  }

  ghost predicate SkipPack(w: World, tid: Tid, w': World) {
    At(w, tid, Packing) && w' == Go(w, tid, Removing(NoPurge))
  }

  /** The upload; the object key is computed only now. */
  ghost predicate Put(w: World, tid: Tid, ok: bool, w': World) {
    && tid in w.jobs && !w.jobs[tid].Create? && w.jobs[tid].body.Some? && w.jobs[tid].body.value.Packed?
    && var sid, bucket := w.jobs[tid].sid, w.jobs[tid].body.value.bucket;
       w' == Go(if ok then w.(objects := w.objects[(bucket, StemOf(w, sid)) := sid]) else w, tid, Removing(NoPurge))
  }

  ghost predicate PurgeOne(w: World, tid: Tid, stem: Stem, ok: bool, w': World) {
    && tid in w.jobs && w.jobs[tid].Delete? && w.jobs[tid].bucket.Some?
    && w.jobs[tid].body.Some? && w.jobs[tid].body.value.Purging? && stem in w.jobs[tid].body.value.todo
    && var b := w.jobs[tid].body.value;
       w' == if ok then Go(w.(objects := w.objects - {(w.jobs[tid].bucket.value, stem)}), tid, Purging(b.todo - {stem}, b.done + {stem}))
             else Go(w, tid, Removing(PurgeFailed))
  }

  ghost predicate PurgeEnd(w: World, tid: Tid, w': World) {
    && tid in w.jobs && w.jobs[tid].Delete? && w.jobs[tid].bucket.Some?
    && w.jobs[tid].body.Some? && w.jobs[tid].body.value.Purging? && w.jobs[tid].body.value.todo == {}
    && w' == Go(w, tid, Removing(Purged(w.jobs[tid].body.value.done)))
  }

  ghost predicate AtRemoving(w: World, tid: Tid) {
    tid in w.jobs && !w.jobs[tid].Create? && w.jobs[tid].body.Some? && w.jobs[tid].body.value.Removing?
  }

  /** `docker rm -f`. DELETE goes on only when Docker reports success or no such
      container; the reaper does not look at the exit code. */
  ghost predicate Remove(w: World, tid: Tid, gone: bool, w': World) {
    && AtRemoving(w, tid)
    && (w.jobs[tid].Delete? ==> gone || w.jobs[tid].sid !in w.containers)
    && w' == Go(w.(containers := if gone then w.containers - {w.jobs[tid].sid} else w.containers),
                tid, Removed(w.jobs[tid].body.value.purge))
  }

  ghost predicate RemoveRaises(w: World, tid: Tid, gone: bool, w': World) {
    && AtRemoving(w, tid)
    && w' == Go(w.(containers := if gone then w.containers - {w.jobs[tid].sid} else w.containers), tid, Raised)
  }

  ghost predicate Drop(w: World, tid: Tid, w': World) {
    && Formed(w.locks) && tid in w.jobs && !w.jobs[tid].Create? && w.jobs[tid].body.Some? && w.jobs[tid].body.value.Removed?
    && w' == Forgotten(Go(w, tid, Finished(w.jobs[tid].body.value.purge)), w.jobs[tid].sid)
  }

  /** `_touch` on every session found at startup. */
  function Discovered(found: seq<Sid>, now: int): Table {
    if found == [] then EMPTY else Touch(Discovered(found[..|found| - 1], now), found[|found| - 1], now)
  }

  /** The process ends at any moment and starts again: containers that do not run any more
      are removed, some or all of the others are found and touched, and everything else the
      sidecar remembered is lost; the store keeps its archives. */
  ghost predicate Restart(w: World, found: seq<Sid>, gone: set<Sid>, w': World) {
    && (forall k :: 0 <= k < |found| ==> found[k] in w.containers && found[k] !in gone)
    && w' == w.(locks := Discovered(found, w.now), ttl := w.ttl.(own := map[]), storage := map[], keys := map[],
                counting := None, containers := w.containers - gone, jobs := map[], stale := {})
  }

  /** The clock, containers that stop, deletions by archive key or retention, and restarts. */
  ghost predicate Surroundings(w: World, w': World) {
    || (exists secs: nat :: Tick(w, secs, w'))
    || (exists sid :: Stop(w, sid, w'))
    || (exists found, gone :: Restart(w, found, gone, w'))
    || (exists bucket, stem :: DropObject(w, bucket, stem, w'))
  }

  /** `create_session`. */
  ghost predicate Creation(w: World, w': World) {
    || (exists tid, job :: CreateRun(w, tid, job, w'))
    || (exists tid :: CreateCount(w, tid, w') || CreateNothing(w, tid, w'))
    || (exists tid :: CreateKey(w, tid, w') || CreateStore(w, tid, w') || CreateTtl(w, tid, w') || CreateTouch(w, tid, w'))
    || (exists tid, removed :: CreateFailsEarly(w, tid, removed, w') || CreateFailsLate(w, tid, removed, w'))
  }

  /** A request or the next stale session is taken up. */
  ghost predicate Arrival(w: World, w': World) {
    || (exists tid, sid :: StartUse(w, tid, sid, w'))
    || (exists tid, sid, bucket, discard, key :: StartDelete(w, tid, sid, bucket, discard, key, w'))
    || Snapshot(w, w')
    || (exists sid :: StartReap(w, sid, w'))
  }

  /** `_session_lock`. */
  ghost predicate Locking(w: World, w': World) {
    || (exists tid :: EnterLock(w, tid, w') || GetLock(w, tid, w') || GiveUp(w, tid, w') || Unlock(w, tid, w') || LeaveLock(w, tid, w'))
  }

  /** Inside the critical section, up to the decision what to do with the archive. */
  ghost predicate Working(w: World, w': World) {
    || (exists tid :: UseFinds(w, tid, w') || UseTouch(w, tid, w'))
    || (exists tid :: ReapCheck(w, tid, w') || DeleteKeep(w, tid, w') || DeleteDiscard(w, tid, w'))
  }

  /** Archiving, or purging the archive. */
  ghost predicate Archiving(w: World, w': World) {
    || (exists tid :: Pack(w, tid, w') || SkipPack(w, tid, w') || PurgeEnd(w, tid, w'))
    || (exists tid, ok :: Put(w, tid, ok, w'))
    || (exists tid, stem, ok :: PurgeOne(w, tid, stem, ok, w'))
  }

  /** Removing the container and forgetting the session. */
  ghost predicate TearingDown(w: World, w': World) {
    || (exists tid :: Drop(w, tid, w'))
    || (exists tid, gone :: Remove(w, tid, gone, w') || RemoveRaises(w, tid, gone, w'))
  }

  ghost predicate Step(w: World, w': World) {
    Surroundings(w, w') || Creation(w, w') || Arrival(w, w') || Locking(w, w') || Working(w, w') || Archiving(w, w') || TearingDown(w, w')
  }

  // ------------------------------------------------------------------- invariant

  /** A thread has a body exactly while it owns its session's lock. */
  ghost predicate Seated(tid: Tid, job: Job, locks: Table) {
    if job.Create? then tid !in locks.seats
    else if job.body.Some? then InsideOf(locks, tid, job.sid)
    else tid in locks.seats ==> tid in locks.queued && locks.seats[tid].sid == job.sid
  }

  ghost predicate SeatsServed(locks: Table, jobs: map<Tid, Job>) {
    && (forall tid <- locks.queued :: tid in jobs && !jobs[tid].Create? && jobs[tid].body.None?)
    && (forall tid :: Inside(locks, tid) ==> tid in jobs && !jobs[tid].Create? && jobs[tid].body.Some?)
  }

  /** Nobody else knows an id under construction, and it is not yet a live session. */
  ghost predicate Alone(tid: Tid, job: Job, jobs: map<Tid, Job>, lastUsed: map<Sid, int>, stale: set<Sid>, madeKey: map<Sid, Stem>) {
    job.Create? ==>
      && job.sid !in lastUsed && job.sid !in stale
      && (forall t <- jobs :: t != tid ==> jobs[t].sid != job.sid)
      && (job.key.Some? ==> job.sid in madeKey && madeKey[job.sid] == job.key.value)
  }

  /** What the container looks like from inside the critical section. */
  ghost predicate Fits(job: Job, containers: set<Sid>) {
    !job.Create? && job.body.Some? ==>
      var b := job.body.value;
      && (job.Use? ==> b.Fresh? || b.Running? || b.Served?)
      && (job.Delete? && (b.Removed? || b.Finished?) ==> job.sid !in containers)
      && (b.Purging? || ((b.Removing? || b.Removed? || b.Finished?) && b.purge.Purged?) ==> job.Delete? && job.bucket.Some?)
  }

  /** The reaper's target is a tracked session or already gone, and stays idle from
      the check under the lock until it has been forgotten. */
  ghost predicate Doomed(tid: Tid, job: Job, lastUsed: map<Sid, int>, ttl: Ttls, now: int, containers: set<Sid>, stale: set<Sid>) {
    job.Reap? ==>
      && tid == REAPER && job.sid !in stale
      && ((job.body.Some? && job.body.value.Finished?) || job.sid in lastUsed || job.sid !in containers)
      && (job.body.Some? && (job.body.value.Packing? || job.body.value.Packed? || job.body.value.Removing? || job.body.value.Removed?)
          ==> Idle(lastUsed, ttl, now, job.sid))
  }

  /** No archive of this session's is at this address, only one that another session
      may rightly keep there. */
  ghost predicate Vacated(objects: map<(Bucket, Stem), Sid>, madeKey: map<Sid, Stem>, bucket: Bucket, stem: Stem, sid: Sid) {
    (bucket, stem) in objects ==>
      var other := objects[(bucket, stem)];
      other != sid && (stem == other || (other in madeKey && madeKey[other] == stem))
  }

  function DoneStems(job: Job): set<Stem> {
    if job.Create? || job.body.None? then {}
    else match job.body.value
      case Purging(_, done) => done
      case Removing(Purged(stems)) => stems
      case Removed(Purged(stems)) => stems
      case Finished(Purged(stems)) => stems
      case _ => {}
  }

  /** The session's own id and the forwarded key are always among the purged stems. */
  ghost predicate Covers(stems: set<Stem>, sid: Sid, key: Option<Stem>) {
    sid in stems && (key.Some? ==> key.value in stems)
  }

  ghost predicate PurgeHolds(job: Job, objects: map<(Bucket, Stem), Sid>, madeKey: map<Sid, Stem>) {
    job.Delete? && job.bucket.Some? ==>
      forall stem <- DoneStems(job) :: Vacated(objects, madeKey, job.bucket.value, stem, job.sid)
  }

  /** No session is archived that a discard has cleared. */
  ghost predicate Uncleared(job: Job, cleared: set<Cleared>) {
    !job.Create? && job.body.Some? && job.body.value.Packed? ==> forall c <- cleared :: c.sid != job.sid
  }

  /** A purge in progress covers what it must in the end, and a discard never archives. */
  ghost predicate Planned(job: Job) {
    job.Delete? && job.body.Some? ==>
      var b := job.body.value;
      && (b.Purging? ==> Covers(b.todo + b.done, job.sid, job.key))
      && ((b.Removing? || b.Removed? || b.Finished?) && b.purge.Purged? ==> Covers(b.purge.stems, job.sid, job.key))
      && (job.discard ==> !b.Packing? && !b.Packed?)
      && (job.discard && (b.Removing? || b.Removed? || b.Finished?) && b.purge.NoPurge? ==> job.bucket.None?)
  }

  /** Every archive lies under its session's id or the key the session was made with. */
  ghost predicate ArchivesKeyed(objects: map<(Bucket, Stem), Sid>, madeKey: map<Sid, Stem>, known: set<Sid>) {
    forall at <- objects ::
      objects[at] in known && (at.1 == objects[at] || (objects[at] in madeKey && madeKey[objects[at]] == at.1))
  }

  ghost predicate KeysMatch(keys: map<Sid, Stem>, madeKey: map<Sid, Stem>) {
    forall sid <- keys :: sid in madeKey && madeKey[sid] == keys[sid]
  }

  /** What an ok discard has left: no container, and vacated addresses. */
  ghost predicate ClearHolds(c: Cleared, containers: set<Sid>, objects: map<(Bucket, Stem), Sid>, madeKey: map<Sid, Stem>) {
    && c.sid !in containers
    && (c.bucket.Some? ==>
          Covers(c.stems, c.sid, c.key) && forall stem <- c.stems :: Vacated(objects, madeKey, c.bucket.value, stem, c.sid))
  }

  ghost predicate ClearsHold(cleared: set<Cleared>, containers: set<Sid>, objects: map<(Bucket, Stem), Sid>, madeKey: map<Sid, Stem>) {
    forall c <- cleared :: ClearHolds(c, containers, objects, madeKey)
  }

  /** The count was below the cap when its lock was taken, and only its holder adds to it. */
  ghost predicate WithinCap(cap: int, counting: Option<Tid>, containers: set<Sid>) {
    cap > 0 ==> |containers| <= cap && (counting.Some? ==> |containers| < cap)
  }

  ghost predicate Known(w: World) {
    && w.containers <= w.known && w.locks.lastUsed.Keys <= w.known && w.stale <= w.known && w.madeKey.Keys <= w.known
    && (forall tid <- w.jobs :: w.jobs[tid].sid in w.known)
    && (forall c <- w.cleared :: c.sid in w.known)
  }

  ghost predicate StaleTracked(stale: set<Sid>, lastUsed: map<Sid, int>, containers: set<Sid>) {
    forall sid <- stale :: sid in lastUsed || sid !in containers
  }

  ghost predicate AllSeated(jobs: map<Tid, Job>, locks: Table) {
    SeatsServed(locks, jobs) && forall tid <- jobs :: Seated(tid, jobs[tid], locks)
  }

  ghost predicate AllAlone(jobs: map<Tid, Job>, lastUsed: map<Sid, int>, stale: set<Sid>, madeKey: map<Sid, Stem>) {
    forall tid <- jobs :: Alone(tid, jobs[tid], jobs, lastUsed, stale, madeKey)
  }

  ghost predicate AllFit(jobs: map<Tid, Job>, containers: set<Sid>) {
    forall tid <- jobs :: Fits(jobs[tid], containers)
  }

  ghost predicate AllDoomed(jobs: map<Tid, Job>, lastUsed: map<Sid, int>, ttl: Ttls, now: int, containers: set<Sid>, stale: set<Sid>) {
    forall tid <- jobs :: Doomed(tid, jobs[tid], lastUsed, ttl, now, containers, stale)
  }

  ghost predicate AllPurgesHold(jobs: map<Tid, Job>, objects: map<(Bucket, Stem), Sid>, madeKey: map<Sid, Stem>) {
    forall tid <- jobs :: PurgeHolds(jobs[tid], objects, madeKey)
  }

  ghost predicate AllPlanned(jobs: map<Tid, Job>) {
    forall tid <- jobs :: Planned(jobs[tid])
  }

  ghost predicate AllUncleared(jobs: map<Tid, Job>, cleared: set<Cleared>) {
    forall tid <- jobs :: Uncleared(jobs[tid], cleared)
  }

  ghost predicate Inv(w: World) {
    && LockInv(w.locks)
    && AllSeated(w.jobs, w.locks)
    && AllAlone(w.jobs, w.locks.lastUsed, w.stale, w.madeKey)
    && AllFit(w.jobs, w.containers)
    && AllDoomed(w.jobs, w.locks.lastUsed, w.ttl, w.now, w.containers, w.stale)
    && AllPurgesHold(w.jobs, w.objects, w.madeKey)
    && AllPlanned(w.jobs)
    && AllUncleared(w.jobs, w.cleared)
    && Known(w)
    && KeysMatch(w.keys, w.madeKey)
    && StaleTracked(w.stale, w.locks.lastUsed, w.containers)
    && ArchivesKeyed(w.objects, w.madeKey, w.known)
    && ClearsHold(w.cleared, w.containers, w.objects, w.madeKey)
    && WithinCap(w.cap, w.counting, w.containers)
  }

  // ------------------------------------------------- single changes keep the invariant

  /** Two threads with a body for the same session are one thread. */
  lemma OneBody(w: World, a: Tid, b: Tid)
    requires Inv(w) && a in w.jobs && b in w.jobs && !w.jobs[a].Create? && !w.jobs[b].Create?
    requires w.jobs[a].body.Some? && w.jobs[b].body.Some? && w.jobs[a].sid == w.jobs[b].sid
    ensures a == b
  {
    MutualExclusion(w.locks, a, b, w.jobs[a].sid);
  }

  /** One thread goes on inside its critical section; the others see nothing of it. */
  lemma GoSeated(jobs: map<Tid, Job>, locks: Table, tid: Tid, b: Body)
    requires AllSeated(jobs, locks) && tid in jobs && !jobs[tid].Create? && jobs[tid].body.Some?
    ensures AllSeated(jobs[tid := jobs[tid].(body := Some(b))], locks)
  {}

  lemma GoAlone(jobs: map<Tid, Job>, lastUsed: map<Sid, int>, stale: set<Sid>, madeKey: map<Sid, Stem>, tid: Tid, b: Body)
    requires AllAlone(jobs, lastUsed, stale, madeKey) && tid in jobs && !jobs[tid].Create?
    ensures AllAlone(jobs[tid := jobs[tid].(body := Some(b))], lastUsed, stale, madeKey)
  {
    var jobs' := jobs[tid := jobs[tid].(body := Some(b))];
    forall t <- jobs' ensures Alone(t, jobs'[t], jobs', lastUsed, stale, madeKey) {
      assert Alone(t, jobs[t], jobs, lastUsed, stale, madeKey);
    }
  }

  lemma GoKnown(w: World, tid: Tid, b: Body)
    requires Known(w) && tid in w.jobs && !w.jobs[tid].Create?
    ensures Known(Go(w, tid, b))
  {}

  /** The promises that are about one job at a time. */
  ghost predicate OwnPromises(w: World, tid: Tid, job: Job) {
    && Fits(job, w.containers)
    && Doomed(tid, job, w.locks.lastUsed, w.ttl, w.now, w.containers, w.stale)
    && PurgeHolds(job, w.objects, w.madeKey)
    && Planned(job)
    && Uncleared(job, w.cleared)
  }

  lemma PutJob(w: World, tid: Tid, job: Job)
    requires AllFit(w.jobs, w.containers)
    requires AllDoomed(w.jobs, w.locks.lastUsed, w.ttl, w.now, w.containers, w.stale)
    requires AllPurgesHold(w.jobs, w.objects, w.madeKey) && AllPlanned(w.jobs) && AllUncleared(w.jobs, w.cleared)
    requires OwnPromises(w, tid, job)
    ensures AllFit(w.jobs[tid := job], w.containers)
    ensures AllDoomed(w.jobs[tid := job], w.locks.lastUsed, w.ttl, w.now, w.containers, w.stale)
    ensures AllPurgesHold(w.jobs[tid := job], w.objects, w.madeKey) && AllPlanned(w.jobs[tid := job])
    ensures AllUncleared(w.jobs[tid := job], w.cleared)
  {}

  lemma GoKeeps(w: World, tid: Tid, b: Body)
    requires Inv(w) && tid in w.jobs && !w.jobs[tid].Create? && w.jobs[tid].body.Some?
    requires Fits(w.jobs[tid].(body := Some(b)), w.containers)
    requires Doomed(tid, w.jobs[tid].(body := Some(b)), w.locks.lastUsed, w.ttl, w.now, w.containers, w.stale)
    requires PurgeHolds(w.jobs[tid].(body := Some(b)), w.objects, w.madeKey)
    requires Planned(w.jobs[tid].(body := Some(b))) && Uncleared(w.jobs[tid].(body := Some(b)), w.cleared)
    ensures Inv(Go(w, tid, b))
  {
    hide LockInv, AllSeated, AllAlone, AllFit, AllDoomed, AllPurgesHold, AllPlanned, AllUncleared, Known, KeysMatch, StaleTracked, ArchivesKeyed, ClearsHold, WithinCap, Fits, Doomed, PurgeHolds, Planned, Uncleared;
    GoSeated(w.jobs, w.locks, tid, b);
    GoAlone(w.jobs, w.locks.lastUsed, w.stale, w.madeKey, tid, b);
    GoKnown(w, tid, b);
    PutJob(w, tid, w.jobs[tid].(body := Some(b)));
  }

  lemma FewerObjects(w: World, at: (Bucket, Stem))
    requires Inv(w)
    ensures Inv(w.(objects := w.objects - {at}))
  {}

  lemma NewObjectPurges(w: World, tid: Tid, at: (Bucket, Stem))
    requires Inv(w) && tid in w.jobs && !w.jobs[tid].Create? && w.jobs[tid].body.Some? && w.jobs[tid].body.value.Packed?
    requires at.1 == StemOf(w, w.jobs[tid].sid)
    ensures AllPurgesHold(w.jobs, w.objects[at := w.jobs[tid].sid], w.madeKey)
  {
    var sid := w.jobs[tid].sid;
    forall t <- w.jobs ensures PurgeHolds(w.jobs[t], w.objects[at := sid], w.madeKey) {
      assert PurgeHolds(w.jobs[t], w.objects, w.madeKey);
      if w.jobs[t].Delete? && w.jobs[t].body.Some? && w.jobs[t].sid == sid {
        OneBody(w, t, tid);
      }
    }
  }

  /** Writing an archive disturbs nobody's purge: the writer is inside its session, which no
      discard has cleared. */
  lemma NewObject(w: World, tid: Tid, at: (Bucket, Stem))
    requires Inv(w) && tid in w.jobs && !w.jobs[tid].Create? && w.jobs[tid].body.Some? && w.jobs[tid].body.value.Packed?
    requires at.1 == StemOf(w, w.jobs[tid].sid)
    ensures Inv(w.(objects := w.objects[at := w.jobs[tid].sid]))
  {
    NewObjectPurges(w, tid, at);
    var sid := w.jobs[tid].sid;
    assert Uncleared(w.jobs[tid], w.cleared);
    forall c <- w.cleared
      ensures ClearHolds(c, w.containers, w.objects[at := sid], w.madeKey)
    {
      assert ClearHolds(c, w.containers, w.objects, w.madeKey);
    }
  }

  /** Nobody relies on a container that is there. */
  lemma FewerContainers(w: World, sid: Sid)
    requires Inv(w)
    ensures Inv(w.(containers := w.containers - {sid}))
  {
    hide LockInv, AllSeated, AllAlone, AllPurgesHold, AllPlanned, AllUncleared, KeysMatch, ArchivesKeyed;
    forall t <- w.jobs ensures Fits(w.jobs[t], w.containers - {sid}) {
      assert Fits(w.jobs[t], w.containers);
    }
    assert w.containers == (w.containers - {sid}) + (if sid in w.containers then {sid} else {});
  }

  lemma SameSeats(jobs: map<Tid, Job>, locks: Table, locks': Table)
    requires AllSeated(jobs, locks)
    requires locks'.seats == locks.seats && locks'.holder == locks.holder && locks'.queued == locks.queued
    ensures AllSeated(jobs, locks')
  {
    assert forall t, s :: InsideOf(locks', t, s) <==> InsideOf(locks, t, s);
    assert forall t :: Inside(locks', t) <==> Inside(locks, t);
  }

  /** All that matters of entering to the jobs: one more seat, and it is queued. */
  lemma JoinSeated(jobs: map<Tid, Job>, locks: Table, locks': Table, tid: Tid)
    requires AllSeated(jobs, locks) && HoldersSeated(locks.holder, locks.seats, locks.queued)
    requires tid in jobs && !jobs[tid].Create? && jobs[tid].body.None? && tid !in locks.seats
    requires locks'.holder == locks.holder && locks'.queued == locks.queued + {tid}
    requires tid in locks'.seats && locks'.seats == locks.seats[tid := locks'.seats[tid]] && locks'.seats[tid].sid == jobs[tid].sid
    ensures AllSeated(jobs, locks')
  {
    assert !Inside(locks', tid);
    assert forall t :: t != tid ==> (Inside(locks', t) <==> Inside(locks, t));
    forall t <- jobs ensures Seated(t, jobs[t], locks') {
      assert Seated(t, jobs[t], locks);
    }
  }

  lemma LeftSeated(jobs: map<Tid, Job>, locks: Table, locks': Table, tid: Tid)
    requires AllSeated(jobs, locks) && tid in locks.seats && !Inside(locks, tid)
    requires locks'.holder == locks.holder && locks'.queued == locks.queued - {tid} && locks'.seats == locks.seats - {tid}
    ensures AllSeated(jobs - {tid}, locks')
  {
    assert forall t :: Inside(locks', t) <==> Inside(locks, t);
    forall t <- jobs | t != tid ensures Seated(t, jobs[t], locks') {
      assert Seated(t, jobs[t], locks);
    }
  }

  lemma EnterSeated(jobs: map<Tid, Job>, locks: Table, tid: Tid)
    requires LockInv(locks) && Formed(locks) && AllSeated(jobs, locks)
    requires tid in jobs && !jobs[tid].Create? && jobs[tid].body.None? && tid !in locks.seats
    ensures AllSeated(jobs, Enter(locks, tid, jobs[tid].sid))
  {
    assert HoldersSeated(locks.holder, locks.seats, locks.queued);
    hide LockInv, AllSeated, HoldersSeated;
    JoinSeated(jobs, locks, Enter(locks, tid, jobs[tid].sid), tid);
  }

  lemma AcquireSeated(jobs: map<Tid, Job>, locks: Table, tid: Tid)
    requires AllSeated(jobs, locks) && CanAcquire(locks, tid) && tid in jobs && !jobs[tid].Create?
    ensures AllSeated(jobs[tid := jobs[tid].(body := Some(Fresh))], Acquire(locks, tid))
  {
    var locks' := Acquire(locks, tid);
    assert forall t :: t != tid ==> (Inside(locks', t) <==> Inside(locks, t));
    assert Seated(tid, jobs[tid], locks);
    forall t <- jobs | t != tid ensures Seated(t, jobs[t], locks') {
      assert Seated(t, jobs[t], locks);
    }
  }

  lemma ReleaseSeated(jobs: map<Tid, Job>, locks: Table, tid: Tid)
    requires AllSeated(jobs, locks) && Inside(locks, tid)
    ensures AllSeated(jobs - {tid}, Release(locks, tid))
  {
    var locks' := Release(locks, tid);
    assert forall t :: t != tid ==> (Inside(locks', t) <==> Inside(locks, t));
    forall t <- jobs | t != tid ensures Seated(t, jobs[t], locks') {
      assert Seated(t, jobs[t], locks);
    }
  }

  /** A step of the lock table that leaves `lastUsed` alone. */
  lemma LocksMove(w: World, locks: Table)
    requires Inv(w) && LockInv(locks) && locks.lastUsed == w.locks.lastUsed && AllSeated(w.jobs, locks)
    ensures Inv(w.(locks := locks))
  {}

  lemma JobGone(w: World, tid: Tid, locks: Table)
    requires Inv(w) && tid in w.jobs && LockInv(locks) && locks.lastUsed == w.locks.lastUsed
    requires AllSeated(w.jobs - {tid}, locks)
    ensures Inv(w.(locks := locks, jobs := w.jobs - {tid}))
  {
    FewerJobs(w, w.jobs - {tid});
    hide LockInv, AllSeated, AllAlone, AllFit, AllDoomed, AllPurgesHold, AllPlanned, AllUncleared, Known, KeysMatch, StaleTracked, ArchivesKeyed, ClearsHold, WithinCap;
  }

  lemma FewerJobs(w: World, jobs: map<Tid, Job>)
    requires AllAlone(w.jobs, w.locks.lastUsed, w.stale, w.madeKey) && AllFit(w.jobs, w.containers) && Known(w)
    requires AllDoomed(w.jobs, w.locks.lastUsed, w.ttl, w.now, w.containers, w.stale)
    requires AllPurgesHold(w.jobs, w.objects, w.madeKey) && AllPlanned(w.jobs) && AllUncleared(w.jobs, w.cleared)
    requires forall t <- jobs :: t in w.jobs && jobs[t] == w.jobs[t]
    ensures AllAlone(jobs, w.locks.lastUsed, w.stale, w.madeKey) && AllFit(jobs, w.containers)
    ensures forall locks: Table :: locks.lastUsed == w.locks.lastUsed ==> Known(w.(locks := locks, jobs := jobs))
    ensures AllDoomed(jobs, w.locks.lastUsed, w.ttl, w.now, w.containers, w.stale)
    ensures AllPurgesHold(jobs, w.objects, w.madeKey) && AllPlanned(jobs) && AllUncleared(jobs, w.cleared)
  {
    hide Fits, Doomed, PurgeHolds, Planned, Uncleared;
    forall t <- jobs ensures Alone(t, jobs[t], jobs, w.locks.lastUsed, w.stale, w.madeKey) {
      assert Alone(t, w.jobs[t], w.jobs, w.locks.lastUsed, w.stale, w.madeKey);
    }
  }

  /** A touch by a handler inside its session: the reaper is not past its check. */
  lemma TouchFine(w: World, tid: Tid)
    requires Inv(w) && tid in w.jobs && w.jobs[tid].Use? && w.jobs[tid].body.Some?
    ensures Inv(w.(locks := Touch(w.locks, w.jobs[tid].sid, w.now)))
  {
    var sid := w.jobs[tid].sid;
    TouchKeeps(w.locks, sid, w.now);
    var locks := Touch(w.locks, sid, w.now);
    SameSeats(w.jobs, w.locks, locks);
    forall t <- w.jobs ensures Alone(t, w.jobs[t], w.jobs, locks.lastUsed, w.stale, w.madeKey) {
      assert Alone(t, w.jobs[t], w.jobs, w.locks.lastUsed, w.stale, w.madeKey);
    }
    forall t <- w.jobs ensures Doomed(t, w.jobs[t], locks.lastUsed, w.ttl, w.now, w.containers, w.stale) {
      assert Doomed(t, w.jobs[t], w.locks.lastUsed, w.ttl, w.now, w.containers, w.stale);
      if w.jobs[t].Reap? && w.jobs[t].body.Some? && w.jobs[t].sid == sid {
        OneBody(w, t, tid);
      }
    }
  }

  /** The touch that makes a new session live, when nobody knows it yet. */
  lemma TouchNew(w: World, sid: Sid)
    requires Inv(w) && sid in w.known && sid !in w.stale && forall t <- w.jobs :: w.jobs[t].sid != sid
    ensures Inv(w.(locks := Touch(w.locks, sid, w.now)))
  {
    TouchKeeps(w.locks, sid, w.now);
    var locks := Touch(w.locks, sid, w.now);
    SameSeats(w.jobs, w.locks, locks);
    forall t <- w.jobs ensures Doomed(t, w.jobs[t], locks.lastUsed, w.ttl, w.now, w.containers, w.stale) {
      assert Doomed(t, w.jobs[t], w.locks.lastUsed, w.ttl, w.now, w.containers, w.stale);
    }
  }

  lemma ForgetSeats(w: World, sid: Sid)
    requires Inv(w)
    ensures Formed(w.locks) && LockInv(Forget(w.locks, sid)) && AllSeated(w.jobs, Forget(w.locks, sid))
  {
    ForgetKeeps(w.locks, sid);
  }

  /** Forgetting a session: by its owner at the end of a teardown, or by a creation
      that failed before the session became live. */
  lemma ForgetFine(w: World, sid: Sid)
    requires Inv(w)
    requires sid !in w.containers || sid !in w.stale
    requires forall t <- w.jobs :: w.jobs[t].Reap? && w.jobs[t].sid == sid ==>
               (w.jobs[t].body.Some? && w.jobs[t].body.value.Finished?) || (w.jobs[t].body.None? && sid !in w.containers)
    ensures Formed(w.locks) && Inv(Forgotten(w, sid))
  {
    ForgetSeats(w, sid);
    var lastUsed := w.locks.lastUsed - {sid};
    forall t <- w.jobs ensures Doomed(t, w.jobs[t], lastUsed, w.ttl.(own := w.ttl.own - {sid}), w.now, w.containers, w.stale) {
      assert Doomed(t, w.jobs[t], w.locks.lastUsed, w.ttl, w.now, w.containers, w.stale);
    }
    assert StaleTracked(w.stale, lastUsed, w.containers);
  }

  // ---------------------------------------------------------- steps keep the invariant

  lemma EnterLockKeeps(w: World, tid: Tid, w': World)
    requires Inv(w) && EnterLock(w, tid, w')
    ensures Inv(w')
  {
    EnterKeeps(w.locks, tid, w.jobs[tid].sid);
    EnterSeated(w.jobs, w.locks, tid);
    LocksMove(w, w'.locks);
  }

  lemma GetLockKeeps(w: World, tid: Tid, w': World)
    requires Inv(w) && GetLock(w, tid, w')
    ensures Inv(w')
  {
    AcquireKeeps(w.locks, tid);
    AcquireSeated(w.jobs, w.locks, tid);
    GoAlone(w.jobs, w.locks.lastUsed, w.stale, w.madeKey, tid, Fresh);
    GoKnown(w, tid, Fresh);
    assert OwnPromises(w, tid, w.jobs[tid].(body := Some(Fresh))) by {
      assert Doomed(tid, w.jobs[tid], w.locks.lastUsed, w.ttl, w.now, w.containers, w.stale);
      assert Seated(tid, w.jobs[tid], w.locks);
    }
    PutJob(w, tid, w.jobs[tid].(body := Some(Fresh)));
  }

  lemma GiveUpKeeps(w: World, tid: Tid, w': World)
    requires Inv(w) && GiveUp(w, tid, w')
    ensures Inv(w')
  {
    DepartKeeps(w.locks, tid);
    assert tid in w.jobs && !Inside(w.locks, tid);
    LeftSeated(w.jobs, w.locks, w'.locks, tid);
    hide Inv, LockInv, AllSeated;
    JobGone(w, tid, w'.locks);
  }

  lemma LeaveLockKeeps(w: World, tid: Tid, w': World)
    requires Inv(w) && LeaveLock(w, tid, w')
    ensures Inv(w')
  {
    DepartKeeps(w.locks, tid);
    LocksMove(w, w'.locks);
  }

  lemma ClearKeeps(w: World, tid: Tid)
    requires Inv(w) && tid in w.jobs
    ensures Inv(w.(cleared := w.cleared + ClearedBy(w.jobs[tid])))
  {
    assert Fits(w.jobs[tid], w.containers) && PurgeHolds(w.jobs[tid], w.objects, w.madeKey) && Planned(w.jobs[tid]);
    forall t <- w.jobs ensures Uncleared(w.jobs[t], w.cleared + ClearedBy(w.jobs[tid])) {
      assert Uncleared(w.jobs[t], w.cleared);
      if ClearedBy(w.jobs[tid]) != {} && !w.jobs[t].Create? && w.jobs[t].body.Some? && w.jobs[t].sid == w.jobs[tid].sid {
        OneBody(w, t, tid);
      }
    }
  }

  lemma UnlockKeeps(w: World, tid: Tid, w': World)
    requires Inv(w) && Unlock(w, tid, w')
    ensures Inv(w')
  {
    ClearKeeps(w, tid);
    ReleaseKeeps(w.locks, tid);
    ReleaseSeated(w.jobs, w.locks, tid);
    JobGone(w.(cleared := w.cleared + ClearedBy(w.jobs[tid])), tid, w'.locks);
  }

  lemma FinishKeeps(w: World, tid: Tid)
    requires Inv(w) && tid in w.jobs && !w.jobs[tid].Create? && w.jobs[tid].body.Some? && w.jobs[tid].body.value.Removed?
    ensures Inv(Go(w, tid, Finished(w.jobs[tid].body.value.purge)))
    ensures w.jobs[tid].Delete? ==> w.jobs[tid].sid !in w.containers
    ensures w.jobs[tid].Reap? ==> w.jobs[tid].sid !in w.stale
  {
    assert Fits(w.jobs[tid], w.containers);
    assert Doomed(tid, w.jobs[tid], w.locks.lastUsed, w.ttl, w.now, w.containers, w.stale);
    GoOn(w, tid, Finished(w.jobs[tid].body.value.purge));
  }

  lemma DropKeeps(w: World, tid: Tid, w': World)
    requires Inv(w) && Drop(w, tid, w')
    ensures Inv(w')
  {
    NoUseRemoves(w, tid);
    FinishKeeps(w, tid);
    hide Inv, Formed, Forgotten;
    var u := Go(w, tid, Finished(w.jobs[tid].body.value.purge));
    OnlyReaper(u, tid);
    ForgetFine(u, w.jobs[tid].sid);
  }

  lemma NoUseRemoves(w: World, tid: Tid)
    requires Inv(w) && tid in w.jobs && !w.jobs[tid].Create? && w.jobs[tid].body.Some? && w.jobs[tid].body.value.Removed?
    ensures !w.jobs[tid].Use?
  {
    assert Fits(w.jobs[tid], w.containers);
  }

  /** A reaper that has yet to lock this session will find no container. */
  lemma OnlyReaper(u: World, tid: Tid)
    requires Inv(u) && tid in u.jobs && !u.jobs[tid].Create? && u.jobs[tid].body.Some? && u.jobs[tid].body.value.Finished?
    ensures forall t <- u.jobs :: t != tid && u.jobs[t].Reap? && u.jobs[t].sid == u.jobs[tid].sid ==>
              u.jobs[t].body.None? && (u.jobs[tid].Delete? ==> u.jobs[tid].sid !in u.containers)
    ensures u.jobs[tid].Reap? ==> forall t <- u.jobs :: u.jobs[t].Reap? ==> t == tid
  {
    assert Fits(u.jobs[tid], u.containers);
    forall t <- u.jobs | t != tid && u.jobs[t].Reap? && u.jobs[t].sid == u.jobs[tid].sid
      ensures u.jobs[t].body.None?
    {
      if u.jobs[t].body.Some? {
        OneBody(u, t, tid);
      }
    }
    forall t <- u.jobs | u.jobs[t].Reap? ensures t == REAPER {
      assert Doomed(t, u.jobs[t], u.locks.lastUsed, u.ttl, u.now, u.containers, u.stale);
    }
  }

  /** `GoKeeps` with the thread's own promises at hand. */
  lemma GoOn(w: World, tid: Tid, b: Body)
    requires Inv(w) && tid in w.jobs && !w.jobs[tid].Create? && w.jobs[tid].body.Some?
    requires Fits(w.jobs[tid], w.containers) ==> Fits(w.jobs[tid].(body := Some(b)), w.containers)
    requires Doomed(tid, w.jobs[tid], w.locks.lastUsed, w.ttl, w.now, w.containers, w.stale)
             ==> Doomed(tid, w.jobs[tid].(body := Some(b)), w.locks.lastUsed, w.ttl, w.now, w.containers, w.stale)
    requires DoneStems(w.jobs[tid].(body := Some(b))) <= DoneStems(w.jobs[tid])
    requires Planned(w.jobs[tid]) ==> Planned(w.jobs[tid].(body := Some(b)))
    requires Uncleared(w.jobs[tid].(body := Some(b)), w.cleared)
    ensures Inv(Go(w, tid, b))
  {
    assert PurgeHolds(w.jobs[tid], w.objects, w.madeKey);
    GoKeeps(w, tid, b);
  }

  lemma PackKeeps(w: World, tid: Tid, w': World)
    requires Inv(w) && Pack(w, tid, w')
    ensures Inv(w')
  {
    forall c <- w.cleared ensures c.sid != w.jobs[tid].sid {
      ClearedIsGone(w, c);
    }
    GoOn(w, tid, Packed(ArchiveBucket(w, tid).value));
  }

  lemma SkipPackKeeps(w: World, tid: Tid, w': World)
    requires Inv(w) && SkipPack(w, tid, w')
    ensures Inv(w')
  {
    GoOn(w, tid, Removing(NoPurge));
  }

  lemma PurgeEndKeeps(w: World, tid: Tid, w': World)
    requires Inv(w) && PurgeEnd(w, tid, w')
    ensures Inv(w')
  {
    GoOn(w, tid, Removing(Purged(w.jobs[tid].body.value.done)));
  }

  lemma StoredThenGoesOn(w: World, tid: Tid, at: (Bucket, Stem))
    requires Inv(w) && tid in w.jobs && !w.jobs[tid].Create? && w.jobs[tid].body.Some? && w.jobs[tid].body.value.Packed?
    requires at.1 == StemOf(w, w.jobs[tid].sid)
    ensures Inv(Go(w.(objects := w.objects[at := w.jobs[tid].sid]), tid, Removing(NoPurge)))
  {
    NewObject(w, tid, at);
    GoOn(w.(objects := w.objects[at := w.jobs[tid].sid]), tid, Removing(NoPurge));
  }

  /** Archives are only written for sessions that no discard has cleared. */
  ghost predicate NoNewArchive(w: World, w': World) {
    forall at <- w'.objects ::
      (at in w.objects && w.objects[at] == w'.objects[at]) || forall c <- w.cleared :: c.sid != w'.objects[at]
  }

  /** No completed purge and no configuration is taken back. */
  ghost predicate NothingTakenBack(w: World, w': World) {
    w.cleared <= w'.cleared && w.cap == w'.cap && NoNewArchive(w, w')
  }

  /** A step that has nothing to do with the store, the purges or the configuration. */
  ghost predicate Elsewhere(w: World, w': World) {
    w'.objects == w.objects && w'.cleared == w.cleared && w'.cap == w.cap
  }

  lemma SameArchives(w: World, w': World)
    requires w'.objects.Keys <= w.objects.Keys && forall at <- w'.objects :: w'.objects[at] == w.objects[at]
    ensures NoNewArchive(w, w')
  {}

  lemma PutKeeps(w: World, tid: Tid, ok: bool, w': World)
    requires Inv(w) && Put(w, tid, ok, w')
    ensures Inv(w')
  {
    hide LockInv, AllSeated, AllAlone, AllFit, AllDoomed, AllPurgesHold, AllPlanned, AllUncleared, Known, KeysMatch, StaleTracked, ArchivesKeyed, ClearsHold, WithinCap;
    if ok {
      StoredThenGoesOn(w, tid, (w.jobs[tid].body.value.bucket, StemOf(w, w.jobs[tid].sid)));
    } else {
      GoOn(w, tid, Removing(NoPurge));
    }
  }

  lemma PutOnlyUncleared(w: World, tid: Tid, ok: bool, w': World)
    requires AllUncleared(w.jobs, w.cleared) && Put(w, tid, ok, w')
    ensures NoNewArchive(w, w')
  {
    assert Uncleared(w.jobs[tid], w.cleared);
  }

  lemma PurgeOneKeeps(w: World, tid: Tid, stem: Stem, ok: bool, w': World)
    requires Inv(w) && PurgeOne(w, tid, stem, ok, w')
    ensures Inv(w')
  {
    hide LockInv, Known, KeysMatch, StaleTracked, ArchivesKeyed, ClearsHold, AllSeated, AllAlone, AllDoomed;
    var b, bucket := w.jobs[tid].body.value, w.jobs[tid].bucket.value;
    if ok {
      FewerObjects(w, (bucket, stem));
      var u := w.(objects := w.objects - {(bucket, stem)});
      assert Fits(u.jobs[tid], u.containers) && PurgeHolds(u.jobs[tid], u.objects, u.madeKey) && Planned(u.jobs[tid]);
      assert (b.todo - {stem}) + (b.done + {stem}) == b.todo + b.done;
      GoKeeps(u, tid, Purging(b.todo - {stem}, b.done + {stem}));
    } else {
      GoOn(w, tid, Removing(PurgeFailed));
    }
  }

  lemma ContainerGoes(w: World, tid: Tid, gone: bool) returns (u: World)
    requires Inv(w) && AtRemoving(w, tid)
    ensures u == w.(containers := if gone then w.containers - {w.jobs[tid].sid} else w.containers) && Inv(u)
  {
    u := w.(containers := if gone then w.containers - {w.jobs[tid].sid} else w.containers);
    if gone {
      FewerContainers(w, w.jobs[tid].sid);
    }
  }

  lemma RemoveKeeps(w: World, tid: Tid, gone: bool, w': World)
    requires Inv(w) && Remove(w, tid, gone, w')
    ensures Inv(w')
  {
    var u := ContainerGoes(w, tid, gone);
    GoOn(u, tid, Removed(w.jobs[tid].body.value.purge));
  }

  lemma RemoveRaisesKeeps(w: World, tid: Tid, gone: bool, w': World)
    requires Inv(w) && RemoveRaises(w, tid, gone, w')
    ensures Inv(w')
  {
    var u := ContainerGoes(w, tid, gone);
    GoOn(u, tid, Raised);
  }

  lemma UseFindsKeeps(w: World, tid: Tid, w': World)
    requires Inv(w) && UseFinds(w, tid, w')
    ensures Inv(w')
  {
    GoOn(w, tid, Running);
  }

  lemma UseTouchKeeps(w: World, tid: Tid, w': World)
    requires Inv(w) && UseTouch(w, tid, w')
    ensures Inv(w')
  {
    TouchFine(w, tid);
    hide Inv, LockInv;
    ServedFine(w.(locks := w'.locks), tid);
  }

  lemma ServedFine(w: World, tid: Tid)
    requires Inv(w) && At(w, tid, Running) && w.jobs[tid].Use?
    ensures Inv(Go(w, tid, Served))
  {
    GoOn(w, tid, Served);
  }

  lemma ReapCheckKeeps(w: World, tid: Tid, w': World)
    requires Inv(w) && ReapCheck(w, tid, w')
    ensures Inv(w')
  {
    GoOn(w, tid, Packing);
  }

  lemma DeleteKeepKeeps(w: World, tid: Tid, w': World)
    requires Inv(w) && DeleteKeep(w, tid, w')
    ensures Inv(w')
  {
    GoOn(w, tid, Packing);
  }

  lemma DeleteDiscardKeeps(w: World, tid: Tid, w': World)
    requires Inv(w) && DeleteDiscard(w, tid, w')
    ensures Inv(w')
  {
    hide LockInv, AllSeated, AllAlone, AllDoomed, KeysMatch, StaleTracked, ArchivesKeyed, ClearsHold;
    var job := w.jobs[tid];
    if job.bucket.None? {
      GoOn(w, tid, Removing(NoPurge));
    } else {
      GoOn(w, tid, Purging({if job.key.Some? then job.key.value else StemOf(w, job.sid), job.sid}, {}));
    }
  }

  lemma StageKeeps(w: World, tid: Tid, stage: CreateStage)
    requires Inv(w) && tid in w.jobs && w.jobs[tid].Create?
    ensures Inv(w.(jobs := w.jobs[tid := w.jobs[tid].(stage := stage)]))
  {
    hide LockInv, KeysMatch, StaleTracked, ArchivesKeyed, ClearsHold;
    var jobs := w.jobs[tid := w.jobs[tid].(stage := stage)];
    forall t <- jobs ensures Alone(t, jobs[t], jobs, w.locks.lastUsed, w.stale, w.madeKey) {
      assert Alone(t, w.jobs[t], w.jobs, w.locks.lastUsed, w.stale, w.madeKey);
    }
  }

  lemma CreateTouchKeeps(w: World, tid: Tid, w': World)
    requires Inv(w) && CreateTouch(w, tid, w')
    ensures Inv(w')
  {
    assert Alone(tid, w.jobs[tid], w.jobs, w.locks.lastUsed, w.stale, w.madeKey);
    assert w.jobs[tid].sid in w.known;
    CreatorGone(w, tid);
    hide Inv, LockInv;
    TouchNew(w.(jobs := w.jobs - {tid}), w.jobs[tid].sid);
  }

  lemma CreateKeyKeeps(w: World, tid: Tid, w': World)
    requires Inv(w) && CreateKey(w, tid, w')
    ensures Inv(w')
  {
    assert Alone(tid, w.jobs[tid], w.jobs, w.locks.lastUsed, w.stale, w.madeKey);
    StageKeeps(w, tid, Keyed);
  }

  lemma CreateStoreKeeps(w: World, tid: Tid, w': World)
    requires Inv(w) && CreateStore(w, tid, w')
    ensures Inv(w')
  {
    StageKeeps(w, tid, Stored);
  }

  lemma CreateTtlKeeps(w: World, tid: Tid, w': World)
    requires Inv(w) && CreateTtl(w, tid, w')
    ensures Inv(w')
  {
    assert Alone(tid, w.jobs[tid], w.jobs, w.locks.lastUsed, w.stale, w.madeKey);
    StageKeeps(w, tid, Timed);
    forall t <- w'.jobs ensures Doomed(t, w'.jobs[t], w.locks.lastUsed, w'.ttl, w.now, w.containers, w.stale) {
      assert Doomed(t, w.jobs[t], w.locks.lastUsed, w.ttl, w.now, w.containers, w.stale);
    }
  }

  lemma ContainerMayGo(w: World, tid: Tid, removed: bool) returns (u: World)
    requires Inv(w) && tid in w.jobs && w.jobs[tid].Create?
    ensures u == w.(containers := if removed then w.containers - {w.jobs[tid].sid} else w.containers, jobs := w.jobs - {tid})
    ensures Inv(u)
  {
    u := w.(containers := if removed then w.containers - {w.jobs[tid].sid} else w.containers);
    if removed {
      FewerContainers(w, w.jobs[tid].sid);
    }
    CreatorGone(u, tid);
    hide Inv;
    u := u.(jobs := u.jobs - {tid});
  }

  lemma CreatorGone(w: World, tid: Tid)
    requires Inv(w) && tid in w.jobs && w.jobs[tid].Create?
    ensures Inv(w.(jobs := w.jobs - {tid}))
  {
    assert AllSeated(w.jobs - {tid}, w.locks);
    JobGone(w, tid, w.locks);
    hide Inv;
    assert w.(locks := w.locks, jobs := w.jobs - {tid}) == w.(jobs := w.jobs - {tid});
  }

  lemma CreateFailsEarlyKeeps(w: World, tid: Tid, removed: bool, w': World)
    requires Inv(w) && CreateFailsEarly(w, tid, removed, w')
    ensures Inv(w')
  {
    var u := ContainerMayGo(w, tid, removed);
  }

  lemma CreateFailsLateKeeps(w: World, tid: Tid, removed: bool, w': World)
    requires Inv(w) && CreateFailsLate(w, tid, removed, w')
    ensures Inv(w')
  {
    assert Alone(tid, w.jobs[tid], w.jobs, w.locks.lastUsed, w.stale, w.madeKey);
    var u := ContainerMayGo(w, tid, removed);
    ForgetFine(u, w.jobs[tid].sid);
  }

  lemma NewSeated(jobs: map<Tid, Job>, locks: Table, tid: Tid, job: Job)
    requires AllSeated(jobs, locks) && tid !in jobs && tid !in locks.seats && (job.Create? || job.body.None?)
    requires HoldersSeated(locks.holder, locks.seats, locks.queued)
    ensures AllSeated(jobs[tid := job], locks)
  {}

  lemma NewAlone(jobs: map<Tid, Job>, lastUsed: map<Sid, int>, stale: set<Sid>, madeKey: map<Sid, Stem>, madeKey': map<Sid, Stem>, tid: Tid, job: Job)
    requires AllAlone(jobs, lastUsed, stale, madeKey) && tid !in jobs
    requires forall t <- jobs :: jobs[t].Create? || job.Create? ==> jobs[t].sid != job.sid
    requires Alone(tid, job, map[], lastUsed, stale, madeKey')
    requires forall sid <- madeKey :: sid in madeKey' && (sid != job.sid ==> madeKey'[sid] == madeKey[sid])
    ensures AllAlone(jobs[tid := job], lastUsed, stale, madeKey')
  {
    var jobs' := jobs[tid := job];
    forall t <- jobs' ensures Alone(t, jobs'[t], jobs', lastUsed, stale, madeKey') {
      if t != tid {
        assert Alone(t, jobs[t], jobs, lastUsed, stale, madeKey);
      }
    }
  }

  lemma StartKeeps(w: World, tid: Tid, job: Job, w': World)
    requires Inv(w) && tid !in w.jobs && tid !in w.locks.seats && !job.Create? && job.body.None? && !BeingMade(w, job.sid)
    requires job.Reap? ==> tid == REAPER && job.sid !in w.stale && (job.sid in w.locks.lastUsed || job.sid !in w.containers)
    requires w' == w.(known := w.known + {job.sid}, jobs := w.jobs[tid := job])
    ensures Inv(w')
  {
    NewSeated(w.jobs, w.locks, tid, job);
    NewAlone(w.jobs, w.locks.lastUsed, w.stale, w.madeKey, w.madeKey, tid, job);
    PutJob(w, tid, job);
    assert Known(w');
    assert ArchivesKeyed(w'.objects, w'.madeKey, w'.known);
  }

  lemma StartUseKeeps(w: World, tid: Tid, sid: Sid, w': World)
    requires Inv(w) && StartUse(w, tid, sid, w')
    ensures Inv(w')
  {
    StartKeeps(w, tid, Use(sid, None), w');
  }

  lemma StartDeleteKeeps(w: World, tid: Tid, sid: Sid, bucket: Option<Bucket>, discard: bool, key: Option<Stem>, w': World)
    requires Inv(w) && StartDelete(w, tid, sid, bucket, discard, key, w')
    ensures Inv(w')
  {
    StartKeeps(w, tid, w'.jobs[tid], w');
  }

  /** A fresh id has no container, no archive, no purge and no reaper to meet. */
  lemma FreshContainer(w: World, sid: Sid, madeKey: map<Sid, Stem>)
    requires Inv(w) && sid !in w.known
    requires forall s <- w.madeKey :: s in madeKey && madeKey[s] == w.madeKey[s]
    requires madeKey.Keys <= w.known + {sid}
    requires w.counting.Some?
    ensures var w' := w.(counting := None, containers := w.containers + {sid}, known := w.known + {sid}, madeKey := madeKey); Inv(w')
  {
    forall t <- w.jobs ensures Fits(w.jobs[t], w.containers + {sid}) {
      assert Fits(w.jobs[t], w.containers);
    }
    forall t <- w.jobs ensures Doomed(t, w.jobs[t], w.locks.lastUsed, w.ttl, w.now, w.containers + {sid}, w.stale) {
      assert Doomed(t, w.jobs[t], w.locks.lastUsed, w.ttl, w.now, w.containers, w.stale);
    }
    forall t <- w.jobs ensures Alone(t, w.jobs[t], w.jobs, w.locks.lastUsed, w.stale, madeKey) {
      assert Alone(t, w.jobs[t], w.jobs, w.locks.lastUsed, w.stale, w.madeKey);
    }
  }

  lemma CreateJoins(u: World, tid: Tid, job: Job)
    requires Inv(u) && tid !in u.jobs && tid !in u.locks.seats && job.Create? && job.sid in u.known
    requires job.sid !in u.locks.lastUsed && job.sid !in u.stale && forall t <- u.jobs :: u.jobs[t].sid != job.sid
    requires job.key.Some? ==> job.sid in u.madeKey && u.madeKey[job.sid] == job.key.value
    ensures Inv(u.(jobs := u.jobs[tid := job]))
  {
    NewSeated(u.jobs, u.locks, tid, job);
    NewAlone(u.jobs, u.locks.lastUsed, u.stale, u.madeKey, u.madeKey, tid, job);
    PutJob(u, tid, job);
  }

  lemma CreateRunKeeps(w: World, tid: Tid, job: Job, w': World)
    requires Inv(w) && CreateRun(w, tid, job, w')
    ensures Inv(w')
  {
    FreshContainer(w, job.sid, w'.madeKey);
    CreateJoins(w.(counting := None, containers := w.containers + {job.sid}, known := w.known + {job.sid}, madeKey := w'.madeKey), tid, job);
  }

  lemma StaleKeeps(w: World, stale: set<Sid>)
    requires Inv(w) && StaleTracked(stale, w.locks.lastUsed, w.containers) && stale <= w.known
    requires stale <= w.stale || (REAPER !in w.jobs && stale <= w.locks.lastUsed.Keys)
    ensures Inv(w.(stale := stale))
  {
    forall t <- w.jobs ensures Alone(t, w.jobs[t], w.jobs, w.locks.lastUsed, stale, w.madeKey) {
      assert Alone(t, w.jobs[t], w.jobs, w.locks.lastUsed, w.stale, w.madeKey);
    }
    forall t <- w.jobs ensures Doomed(t, w.jobs[t], w.locks.lastUsed, w.ttl, w.now, w.containers, stale) {
      assert Doomed(t, w.jobs[t], w.locks.lastUsed, w.ttl, w.now, w.containers, w.stale);
    }
  }

  lemma SnapshotKeeps(w: World, w': World)
    requires Inv(w) && Snapshot(w, w')
    ensures Inv(w')
  {
    StaleKeeps(w, w'.stale);
  }

  lemma StartReapKeeps(w: World, sid: Sid, w': World)
    requires Inv(w) && StartReap(w, sid, w')
    ensures Inv(w')
  {
    forall t <- w.jobs | w.jobs[t].Create? ensures w.jobs[t].sid != sid {
      assert Alone(t, w.jobs[t], w.jobs, w.locks.lastUsed, w.stale, w.madeKey);
    }
    StaleKeeps(w, w.stale - {sid});
    assert w.known + {sid} == w.known;
    StartKeeps(w.(stale := w.stale - {sid}), REAPER, Reap(sid, None), w');
  }

  lemma TickKeeps(w: World, secs: nat, w': World)
    requires Inv(w) && Tick(w, secs, w')
    ensures Inv(w')
  {}

  lemma {:induction false} DiscoveredKeeps(found: seq<Sid>, now: int)
    ensures var t := Discovered(found, now);
            && LockInv(t) && t.seats == map[] && t.queued == {} && t.holder == map[]
            && forall sid <- t.lastUsed :: sid in found
  {
    if found != [] {
      DiscoveredKeeps(found[..|found| - 1], now);
      TouchKeeps(Discovered(found[..|found| - 1], now), found[|found| - 1], now);
    }
  }

  lemma RestartKeeps(w: World, found: seq<Sid>, gone: set<Sid>, w': World)
    requires Inv(w) && Restart(w, found, gone, w')
    ensures Inv(w')
  {
    DiscoveredKeeps(found, w.now);
    hide LockInv;
    assert w.containers == w'.containers + (w.containers * gone);
  }

  lemma CountKeeps(w: World, tid: Tid, w': World)
    requires Inv(w) && (CreateCount(w, tid, w') || CreateNothing(w, tid, w'))
    ensures Inv(w')
  {}

  lemma SurroundingsKeeps(w: World, w': World)
    requires Inv(w) && Surroundings(w, w')
    ensures Inv(w')
  {
    hide Inv, Tick, Restart;
    if secs: nat :| Tick(w, secs, w') { TickKeeps(w, secs, w'); }
    else if sid :| Stop(w, sid, w') { FewerContainers(w, sid); }
    else if found, gone :| Restart(w, found, gone, w') { RestartKeeps(w, found, gone, w'); }
    else if bucket, stem :| DropObject(w, bucket, stem, w') { FewerObjects(w, (bucket, stem)); }
  }

  lemma SurroundingsTakesNothingBack(w: World, w': World)
    requires Surroundings(w, w')
    ensures NothingTakenBack(w, w')
  {
    hide NoNewArchive;
    if secs: nat :| Tick(w, secs, w') { SameArchives(w, w'); }
    else if sid :| Stop(w, sid, w') { SameArchives(w, w'); }
    else if found, gone :| Restart(w, found, gone, w') { SameArchives(w, w'); }
    else if bucket, stem :| DropObject(w, bucket, stem, w') { SameArchives(w, w'); }
  }

  lemma CreationKeeps(w: World, w': World)
    requires Inv(w) && Creation(w, w')
    ensures Inv(w')
  {
    hide Inv, CreateCount, CreateRun, CreateNothing, CreateKey, CreateStore, CreateTtl, CreateTouch, CreateFailsEarly, CreateFailsLate;
    if tid, job :| CreateRun(w, tid, job, w') { CreateRunKeeps(w, tid, job, w'); }
    else if tid, removed :| CreateFailsEarly(w, tid, removed, w') { CreateFailsEarlyKeeps(w, tid, removed, w'); }
    else if tid, removed :| CreateFailsLate(w, tid, removed, w') { CreateFailsLateKeeps(w, tid, removed, w'); }
    else if tid :| CreateCount(w, tid, w') || CreateNothing(w, tid, w') { CountKeeps(w, tid, w'); }
    else if tid :| CreateKey(w, tid, w') { CreateKeyKeeps(w, tid, w'); }
    else if tid :| CreateStore(w, tid, w') { CreateStoreKeeps(w, tid, w'); }
    else if tid :| CreateTtl(w, tid, w') { CreateTtlKeeps(w, tid, w'); }
    else if tid :| CreateTouch(w, tid, w') { CreateTouchKeeps(w, tid, w'); }
  }

  lemma CreationElsewhere(w: World, w': World)
    requires Creation(w, w')
    ensures Elsewhere(w, w')
  {
    if tid, job :| CreateRun(w, tid, job, w') {}
    else if tid :| CreateCount(w, tid, w') || CreateNothing(w, tid, w') {}
    else if tid, removed :| CreateFailsEarly(w, tid, removed, w') {}
    else if tid, removed :| CreateFailsLate(w, tid, removed, w') {}
    else if tid :| CreateKey(w, tid, w') {}
    else if tid :| CreateStore(w, tid, w') {}
    else if tid :| CreateTtl(w, tid, w') {}
    else if tid :| CreateTouch(w, tid, w') {}
  }

  lemma CreationTakesNothingBack(w: World, w': World)
    requires Creation(w, w')
    ensures NothingTakenBack(w, w')
  {
    CreationElsewhere(w, w');
    hide Creation;
    SameArchives(w, w');
  }

  lemma ArrivalKeeps(w: World, w': World)
    requires Inv(w) && Arrival(w, w')
    ensures Inv(w')
  {
    hide Inv, StartUse, StartDelete, Snapshot, StartReap;
    if tid, sid :| StartUse(w, tid, sid, w') { StartUseKeeps(w, tid, sid, w'); }
    else if tid, sid, bucket, discard, key :| StartDelete(w, tid, sid, bucket, discard, key, w') { StartDeleteKeeps(w, tid, sid, bucket, discard, key, w'); }
    else if sid :| StartReap(w, sid, w') { StartReapKeeps(w, sid, w'); }
    else { SnapshotKeeps(w, w'); }
  }

  lemma ArrivalTakesNothingBack(w: World, w': World)
    requires Arrival(w, w')
    ensures NothingTakenBack(w, w')
  {
    hide NoNewArchive;
    assert w'.objects == w.objects;
    SameArchives(w, w');
  }

  lemma LockingKeeps(w: World, w': World)
    requires Inv(w) && Locking(w, w')
    ensures Inv(w')
  {
    hide Inv, EnterLock, GetLock, GiveUp, Unlock, LeaveLock;
    if tid :| EnterLock(w, tid, w') { EnterLockKeeps(w, tid, w'); }
    else if tid :| GetLock(w, tid, w') { GetLockKeeps(w, tid, w'); }
    else if tid :| GiveUp(w, tid, w') { GiveUpKeeps(w, tid, w'); }
    else if tid :| Unlock(w, tid, w') { UnlockKeeps(w, tid, w'); }
    else if tid :| LeaveLock(w, tid, w') { LeaveLockKeeps(w, tid, w'); }
  }

  lemma LockingTakesNothingBack(w: World, w': World)
    requires Locking(w, w')
    ensures NothingTakenBack(w, w')
  {
    hide NoNewArchive;
    if tid :| Unlock(w, tid, w') { SameArchives(w, w'); }
    else if tid :| GetLock(w, tid, w') { SameArchives(w, w'); }
    else if tid :| EnterLock(w, tid, w') || GiveUp(w, tid, w') || LeaveLock(w, tid, w') { SameArchives(w, w'); }
  }

  lemma WorkingKeeps(w: World, w': World)
    requires Inv(w) && Working(w, w')
    ensures Inv(w')
  {
    hide Inv, UseFinds, UseTouch, ReapCheck, DeleteKeep, DeleteDiscard;
    if tid :| UseFinds(w, tid, w') { UseFindsKeeps(w, tid, w'); }
    else if tid :| UseTouch(w, tid, w') { UseTouchKeeps(w, tid, w'); }
    else if tid :| ReapCheck(w, tid, w') { ReapCheckKeeps(w, tid, w'); }
    else if tid :| DeleteKeep(w, tid, w') { DeleteKeepKeeps(w, tid, w'); }
    else if tid :| DeleteDiscard(w, tid, w') { DeleteDiscardKeeps(w, tid, w'); }
  }

  lemma WorkingTakesNothingBack(w: World, w': World)
    requires Working(w, w')
    ensures NothingTakenBack(w, w')
  {
    hide NoNewArchive;
    if tid :| UseFinds(w, tid, w') { assert Elsewhere(w, w'); }
    else if tid :| UseTouch(w, tid, w') { assert Elsewhere(w, w'); }
    else if tid :| ReapCheck(w, tid, w') { assert Elsewhere(w, w'); }
    else if tid :| DeleteKeep(w, tid, w') { assert Elsewhere(w, w'); }
    else if tid :| DeleteDiscard(w, tid, w') { assert Elsewhere(w, w'); }
    SameArchives(w, w');
  }

  lemma ArchivingKeeps(w: World, w': World)
    requires Inv(w) && Archiving(w, w')
    ensures Inv(w')
  {
    hide Inv, Pack, SkipPack, PurgeEnd, Put, PurgeOne;
    if tid :| Pack(w, tid, w') { PackKeeps(w, tid, w'); }
    else if tid :| SkipPack(w, tid, w') { SkipPackKeeps(w, tid, w'); }
    else if tid :| PurgeEnd(w, tid, w') { PurgeEndKeeps(w, tid, w'); }
    else if tid, ok :| Put(w, tid, ok, w') { PutKeeps(w, tid, ok, w'); }
    else if tid, stem, ok :| PurgeOne(w, tid, stem, ok, w') { PurgeOneKeeps(w, tid, stem, ok, w'); }
  }

  lemma PutLeaves(w: World, tid: Tid, ok: bool, w': World)
    requires Put(w, tid, ok, w')
    ensures w'.cleared == w.cleared && w'.cap == w.cap
  {}

  lemma PurgeOneLeaves(w: World, tid: Tid, stem: Stem, ok: bool, w': World)
    requires PurgeOne(w, tid, stem, ok, w')
    ensures NothingTakenBack(w, w')
  {
    hide NoNewArchive;
    SameArchives(w, w');
  }

  lemma ArchivingTakesNothingBack(w: World, w': World)
    requires Inv(w) && Archiving(w, w')
    ensures NothingTakenBack(w, w')
  {
    assert AllUncleared(w.jobs, w.cleared);
    hide Inv, AllUncleared, Put, PurgeOne, Pack, SkipPack, PurgeEnd, NoNewArchive;
    if tid, ok :| Put(w, tid, ok, w') {
      PutOnlyUncleared(w, tid, ok, w');
      PutLeaves(w, tid, ok, w');
    }
    else if tid, stem, ok :| PurgeOne(w, tid, stem, ok, w') { PurgeOneLeaves(w, tid, stem, ok, w'); }
    else { GoesOn(w, w'); }
  }

  lemma GoesOn(w: World, w': World)
    requires exists tid :: Pack(w, tid, w') || SkipPack(w, tid, w') || PurgeEnd(w, tid, w')
    ensures NothingTakenBack(w, w')
  {
    hide NoNewArchive, ArchiveBucket;
    if tid :| Pack(w, tid, w') { SameArchives(w, w'); }
    else if tid :| SkipPack(w, tid, w') { SameArchives(w, w'); }
    else if tid :| PurgeEnd(w, tid, w') { SameArchives(w, w'); }
  }

  lemma TearingDownKeeps(w: World, w': World)
    requires Inv(w) && TearingDown(w, w')
    ensures Inv(w')
  {
    hide Inv, Drop, Remove, RemoveRaises;
    if tid :| Drop(w, tid, w') { DropKeeps(w, tid, w'); }
    else if tid, gone :| Remove(w, tid, gone, w') { RemoveKeeps(w, tid, gone, w'); }
    else if tid, gone :| RemoveRaises(w, tid, gone, w') { RemoveRaisesKeeps(w, tid, gone, w'); }
  }

  lemma TearingDownTakesNothingBack(w: World, w': World)
    requires TearingDown(w, w')
    ensures NothingTakenBack(w, w')
  {
    hide NoNewArchive;
    assert w'.objects == w.objects;
    SameArchives(w, w');
  }

  lemma StepKeepsInv(w: World, w': World)
    requires Inv(w) && Step(w, w')
    ensures Inv(w') && NothingTakenBack(w, w')
  {
    hide Inv, NothingTakenBack, Surroundings, Creation, Arrival, Locking, Working, Archiving, TearingDown;
    if Surroundings(w, w') { SurroundingsKeeps(w, w'); SurroundingsTakesNothingBack(w, w'); }
    else if Creation(w, w') { CreationKeeps(w, w'); CreationTakesNothingBack(w, w'); }
    else if Arrival(w, w') { ArrivalKeeps(w, w'); ArrivalTakesNothingBack(w, w'); }
    else if Locking(w, w') { LockingKeeps(w, w'); LockingTakesNothingBack(w, w'); }
    else if Working(w, w') { WorkingKeeps(w, w'); WorkingTakesNothingBack(w, w'); }
    else if Archiving(w, w') { ArchivingKeeps(w, w'); ArchivingTakesNothingBack(w, w'); }
    else if TearingDown(w, w') { TearingDownKeeps(w, w'); TearingDownTakesNothingBack(w, w'); }
  }

  // ------------------------------------------------------------------- whole runs

  /** The first startup: nothing is remembered; there may be containers and archives. */
  ghost predicate Init(w: World) {
    && LockInv(w.locks) && w.locks.seats == map[] && w.locks.queued == {} && w.locks.holder == map[]
    && w.jobs == map[] && w.stale == {} && w.cleared == {} && w.counting.None?
    && w.ttl.own == map[] && w.storage == map[] && w.keys == map[]
    && w.containers <= w.known && w.locks.lastUsed.Keys <= w.known && w.madeKey.Keys <= w.known
    && ArchivesKeyed(w.objects, w.madeKey, w.known)
    && (w.cap > 0 ==> |w.containers| <= w.cap)
  }

  ghost predicate StepAt(ws: seq<World>, i: nat)
    requires i + 1 < |ws|
  {
    Step(ws[i], ws[i + 1])
  }

  ghost predicate IsRun(ws: seq<World>) {
    |ws| > 0 && Init(ws[0]) && forall i: nat :: i < |ws| - 1 ==> StepAt(ws, i)
  }

  lemma {:induction false} RunKeepsInv(ws: seq<World>, n: nat)
    requires IsRun(ws) && n < |ws|
    ensures Inv(ws[n]) && ws[n].cap == ws[0].cap && forall m :: 0 <= m <= n ==> ws[m].cleared <= ws[n].cleared
  {
    hide Step;
    if n > 0 {
      RunKeepsInv(ws, n - 1);
      assert StepAt(ws, n - 1);
      StepKeepsInv(ws[n - 1], ws[n]);
      hide Inv, NoNewArchive;
    }
  }

  /** Whenever the reaper removes a container that is there, it does so under that
      session's lock, with nobody else in any critical section of the session, and the
      session's last use is, at this very moment, older than its time to live. A touch
      after the stale snapshot therefore saves the session. */
  lemma ReaperOnlyRemovesIdle(ws: seq<World>, n: nat, tid: Tid, gone: bool)
    requires IsRun(ws) && n + 1 < |ws|
    requires Remove(ws[n], tid, gone, ws[n + 1]) || RemoveRaises(ws[n], tid, gone, ws[n + 1])
    requires ws[n].jobs[tid].Reap? && ws[n].jobs[tid].sid in ws[n].containers
    ensures var w, sid := ws[n], ws[n].jobs[tid].sid;
            && tid == REAPER && InsideOf(w.locks, tid, sid)
            && (forall t :: InsideOf(w.locks, t, sid) ==> t == tid)
            && sid in w.locks.lastUsed && w.now - w.locks.lastUsed[sid] > TtlOf(w.ttl, sid)
  {
    RunKeepsInv(ws, n);
    var w, sid := ws[n], ws[n].jobs[tid].sid;
    assert Doomed(tid, w.jobs[tid], w.locks.lastUsed, w.ttl, w.now, w.containers, w.stale);
    assert Seated(tid, w.jobs[tid], w.locks);
    forall t | InsideOf(w.locks, t, sid) ensures t == tid {
      MutualExclusion(w.locks, t, tid, sid);
    }
  }

  /** The lock table's promises in the presence of everything else the sidecar does. */
  lemma HandlersExclusive(ws: seq<World>, n: nat, a: Tid, b: Tid)
    requires IsRun(ws) && n < |ws| && a in ws[n].jobs && b in ws[n].jobs
    requires !ws[n].jobs[a].Create? && !ws[n].jobs[b].Create? && ws[n].jobs[a].sid == ws[n].jobs[b].sid
    requires ws[n].jobs[a].body.Some? && ws[n].jobs[b].body.Some?
    ensures a == b
  {
    RunKeepsInv(ws, n);
    OneBody(ws[n], a, b);
  }

  /** Never more containers than the configured maximum, whatever number of creations count
      and run their containers at the same time. */
  lemma CapHolds(ws: seq<World>, n: nat)
    requires IsRun(ws) && n < |ws| && ws[0].cap > 0
    ensures |ws[n].containers| <= ws[0].cap
  {
    RunKeepsInv(ws, n);
  }

  // ------------------------------------------------------- what a discard leaves behind

  lemma ClearedIsGone(w: World, c: Cleared)
    requires Inv(w)
    ensures c in w.cleared ==> c.sid !in w.containers
  {
    assert ClearsHold(w.cleared, w.containers, w.objects, w.madeKey);
  }

  /** Once a discard DELETE has returned ok, whatever the reaper, other DELETEs and handlers
      were doing and through any restart: the container is gone for good, and no archive of
      the session is ever written again, at any address of any bucket. */
  lemma {:induction false} NothingWrittenAgain(ws: seq<World>, i: nat, j: nat, c: Cleared)
    requires IsRun(ws) && i <= j < |ws| && c in ws[i].cleared
    ensures c in ws[j].cleared && c.sid !in ws[j].containers
    ensures forall at <- ws[j].objects :: ws[j].objects[at] == c.sid ==> at in ws[i].objects && ws[i].objects[at] == c.sid
  {
    hide Step, Inv;
    RunKeepsInv(ws, j);
    ClearedIsGone(ws[j], c);
    if i < j {
      NothingWrittenAgain(ws, i, j - 1, c);
      RunKeepsInv(ws, j - 1);
      assert StepAt(ws, j - 1);
      StepKeepsInv(ws[j - 1], ws[j]);
    }
  }

  /** And at the addresses it purged there is none: none of the session's archives is there in
      any later state. If the key it was given, or the one remembered then, is the one the
      session was made with, the bucket holds nothing of the session's under any key; if
      moreover no other session has one of these stems, the purged addresses stay empty. */
  lemma PurgedStaysPurged(ws: seq<World>, i: nat, j: nat, c: Cleared)
    requires IsRun(ws) && i <= j < |ws| && c in ws[i].cleared && c.bucket.Some?
    ensures var w, bucket := ws[j], c.bucket.value;
            && c.sid !in w.containers && Covers(c.stems, c.sid, c.key)
            && (forall stem <- c.stems :: (bucket, stem) in w.objects ==> w.objects[(bucket, stem)] != c.sid)
            && ((c.sid in w.madeKey ==> w.madeKey[c.sid] in c.stems) ==> NothingLeft(w, bucket, c.sid))
            && ((forall o <- w.known :: o != c.sid ==> o !in c.stems && (o in w.madeKey ==> w.madeKey[o] !in c.stems)) ==>
                  forall stem <- c.stems :: (bucket, stem) !in w.objects)
  {
    RunKeepsInv(ws, j);
    var w, bucket := ws[j], c.bucket.value;
    assert ClearHolds(c, w.containers, w.objects, w.madeKey);
    forall stem <- c.stems ensures Vacated(w.objects, w.madeKey, bucket, stem, c.sid) {}
    forall stem | (c.sid in w.madeKey ==> w.madeKey[c.sid] in c.stems) && (bucket, stem) in w.objects
      ensures w.objects[(bucket, stem)] != c.sid
    {
      assert Vacated(w.objects, w.madeKey, bucket, c.sid, c.sid);
    }
  }

  ghost predicate NothingLeft(w: World, bucket: Bucket, sid: Sid) {
    forall stem :: (bucket, stem) in w.objects ==> w.objects[(bucket, stem)] != sid
  }

  /** The addresses a discard decides to purge include the one its session's archives are at
      exactly if that is its own id, or the key forwarded, or, with no key forwarded, if the
      sidecar still remembers one. It has forgotten it after every restart, and after the
      reaper or another DELETE has removed the session. */
  lemma PurgeReachesExactly(ws: seq<World>, n: nat, tid: Tid)
    requires IsRun(ws) && n + 1 < |ws| && DeleteDiscard(ws[n], tid, ws[n + 1]) && ws[n].jobs[tid].bucket.Some?
    requires ws[n].jobs[tid].sid in ws[n].madeKey
    ensures ws[n + 1].jobs[tid].body.Some? && ws[n + 1].jobs[tid].body.value.Purging?
    ensures var w, job := ws[n], ws[n].jobs[tid];
            var k := w.madeKey[job.sid];
            k in ws[n + 1].jobs[tid].body.value.todo <==>
            k == job.sid || job.key == Some(k) || (job.key.None? && job.sid in w.keys)
  {
    RunKeepsInv(ws, n);
  }

  ghost predicate Reachable(w: World) {
    exists ws :: IsRun(ws) && ws[|ws| - 1] == w
  }

  /** In every run, a discard of `sid` in `bucket` that returns ok with this key forwarded
      leaves nothing of the session there, if it was made with the archive key `made`. */
  ghost predicate AlwaysClears(sid: Sid, bucket: Bucket, made: Option<Stem>, forwarded: Option<Stem>) {
    forall w, c | Reachable(w) && c in w.cleared && c.sid == sid && c.bucket == Some(bucket) && c.key == forwarded ::
      Look(w.madeKey, sid) == made ==> NothingLeft(w, bucket, sid)
  }

  /** So a caller is safe exactly if it forwards the key the session was made with, or the
      session was made without one of its own. */
  lemma DiscardClearsExactly(sid: Sid, bucket: Bucket, made: Option<Stem>, forwarded: Option<Stem>)
    ensures AlwaysClears(sid, bucket, made, forwarded) <==> made.None? || made == Some(sid) || forwarded == made
  {
    if made.None? || made == Some(sid) || forwarded == made {
      forall w, c | Reachable(w) && c in w.cleared && c.sid == sid && c.bucket == Some(bucket) && c.key == forwarded
                    && Look(w.madeKey, sid) == made
        ensures NothingLeft(w, bucket, sid)
      {
        var ws :| IsRun(ws) && ws[|ws| - 1] == w;
        PurgedStaysPurged(ws, |ws| - 1, |ws| - 1, c);
      }
    } else {
      LostKeyLeavesArchive(sid, bucket, made.value, forwarded);
    }
  }

  // A session is made with key `k`, archived and removed by the reaper, and then discarded
  // with another key or none.

  function Scene(sid: Sid, k: Stem, b: Bucket, locks: Table, now: int, alive: bool, kept: bool, archived: bool, stale: set<Sid>,
                 jobs: map<Tid, Job>, cleared: set<Cleared>): World {
    World(locks, Ttls(map[], 0), if kept then map[sid := b] else map[], if kept then map[sid := k] else map[], now, 0, None,
          if alive then {sid} else {}, if archived then map[(b, k) := sid] else map[], jobs, stale, {sid}, map[sid := k], cleared)
  }

  function Tracked(sid: Sid): Table {
    Table(map[sid := 0], map[sid := 0], [0], map[], {}, map[])
  }

  function Waiting(sid: Sid, used: map<Sid, int>, refs: seq<nat>, l: LockId, tid: Tid): Table {
    Table(used, map[sid := l], refs, map[], {tid}, map[tid := Seat(sid, l)])
  }

  function Owning(sid: Sid, used: map<Sid, int>, refs: seq<nat>, l: LockId, tid: Tid): Table {
    Table(used, map[sid := l], refs, map[l := tid], {}, map[tid := Seat(sid, l)])
  }

  function Leaving(sid: Sid, refs: seq<nat>, l: LockId, tid: Tid): Table {
    Table(map[], map[sid := l], refs, map[], {}, map[tid := Seat(sid, l)])
  }

  const FORGOTTEN := Table(map[], map[], [0], map[], {}, map[])

  lemma Onward(w: World, w': World)
    requires Reachable(w) && Step(w, w')
    ensures Reachable(w')
  {
    hide Step;
    var ws :| IsRun(ws) && ws[|ws| - 1] == w;
    var ws' := ws + [w'];
    forall i: nat | i < |ws'| - 1 ensures StepAt(ws', i) {
      if i < |ws| - 1 {
        assert StepAt(ws, i);
      }
    }
    assert IsRun(ws') && ws'[|ws'| - 1] == w';
  }

  lemma BySurroundings(w: World, w': World)
    requires Reachable(w) && Surroundings(w, w')
    ensures Reachable(w')
  {
    assert Step(w, w') by { hide Surroundings; }
    Onward(w, w');
  }

  lemma ByCreation(w: World, w': World)
    requires Reachable(w) && Creation(w, w')
    ensures Reachable(w')
  {
    assert Step(w, w') by { hide Creation; }
    Onward(w, w');
  }

  lemma ByArrival(w: World, w': World)
    requires Reachable(w) && Arrival(w, w')
    ensures Reachable(w')
  {
    assert Step(w, w') by { hide Arrival; }
    Onward(w, w');
  }

  lemma ByLocking(w: World, w': World)
    requires Reachable(w) && Locking(w, w')
    ensures Reachable(w')
  {
    assert Step(w, w') by { hide Locking; }
    Onward(w, w');
  }

  lemma ByWorking(w: World, w': World)
    requires Reachable(w) && Working(w, w')
    ensures Reachable(w')
  {
    assert Step(w, w') by { hide Working; }
    Onward(w, w');
  }

  lemma ByArchiving(w: World, w': World)
    requires Reachable(w) && Archiving(w, w')
    ensures Reachable(w')
  {
    assert Step(w, w') by { hide Archiving; }
    Onward(w, w');
  }

  lemma ByTearingDown(w: World, w': World)
    requires Reachable(w) && TearingDown(w, w')
    ensures Reachable(w')
  {
    assert Step(w, w') by { hide TearingDown; }
    Onward(w, w');
  }

  function Nothing(): World {
    World(EMPTY, Ttls(map[], 0), map[], map[], 0, 0, None, {}, map[], map[], {}, {}, map[], {})
  }

  function Making(sid: Sid, k: Stem, b: Bucket, stage: CreateStage): map<Tid, Job> {
    map[1 := Create(sid, Some(k), Some(b), 0, stage)]
  }

  lemma FirstStart() returns (w: World)
    ensures Reachable(w) && w == Nothing()
  {
    w := Nothing();
    assert IsRun([w]) && [w][|[w]| - 1] == w;
  }

  lemma MadeBegins(sid: Sid, k: Stem, b: Bucket) returns (w: World)
    ensures Reachable(w)
    ensures w == Scene(sid, k, b, EMPTY, 0, true, false, false, {}, Making(sid, k, b, Made), {})
  {
    hide Step, Reachable;
    var w0 := FirstStart();
    var w1 := w0.(counting := Some(1));
    assert CreateCount(w0, 1, w1);
    ByCreation(w0, w1);
    w := Scene(sid, k, b, EMPTY, 0, true, false, false, {}, Making(sid, k, b, Made), {});
    assert CreateRun(w1, 1, Create(sid, Some(k), Some(b), 0, Made), w);
    ByCreation(w1, w);
  }

  lemma MadeEnds(sid: Sid, k: Stem, b: Bucket) returns (w: World)
    ensures Reachable(w) && w == Scene(sid, k, b, Tracked(sid), 0, true, true, false, {}, map[], {})
  {
    hide Step, Reachable;
    var w2 := MadeBegins(sid, k, b);
    var w3 := w2.(keys := map[sid := k], jobs := Making(sid, k, b, Keyed));
    assert CreateKey(w2, 1, w3);
    ByCreation(w2, w3);
    var w4 := w3.(storage := map[sid := b], jobs := Making(sid, k, b, Stored));
    assert CreateStore(w3, 1, w4);
    ByCreation(w3, w4);
    var w5 := w4.(jobs := Making(sid, k, b, Timed));
    assert CreateTtl(w4, 1, w5);
    ByCreation(w4, w5);
    w := Scene(sid, k, b, Tracked(sid), 0, true, true, false, {}, map[], {});
    assert CreateTouch(w5, 1, w);
    ByCreation(w5, w);
  }

  lemma ReapBegins(sid: Sid, k: Stem, b: Bucket) returns (w: World)
    ensures Reachable(w)
    ensures w == Scene(sid, k, b, Tracked(sid), 1, true, true, false, {}, map[REAPER := Reap(sid, None)], {})
  {
    hide Step, Reachable;
    var w0 := MadeEnds(sid, k, b);
    var w1 := w0.(now := 1);
    assert Tick(w0, 1, w1);
    BySurroundings(w0, w1);
    var w2 := w1.(stale := {sid});
    assert Snapshot(w1, w2);
    ByArrival(w1, w2);
    w := Scene(sid, k, b, Tracked(sid), 1, true, true, false, {}, map[REAPER := Reap(sid, None)], {});
    assert {sid} - {sid} == {};
    assert StartReap(w2, sid, w);
    ByArrival(w2, w);
  }

  function Reaping(sid: Sid, k: Stem, b: Bucket, archived: bool, body: Body): World {
    Scene(sid, k, b, Owning(sid, map[sid := 0], [1], 0, REAPER), 1, true, true, archived, {}, map[REAPER := Reap(sid, Some(body))], {})
  }

  lemma ReapOwns(sid: Sid, k: Stem, b: Bucket) returns (w: World)
    ensures Reachable(w) && w == Reaping(sid, k, b, false, Packing)
  {
    hide Step, Reachable;
    var w0 := ReapBegins(sid, k, b);
    var w1 := w0.(locks := Waiting(sid, map[sid := 0], [1], 0, REAPER));
    assert EnterLock(w0, REAPER, w1);
    ByLocking(w0, w1);
    var w2 := Reaping(sid, k, b, false, Fresh);
    assert GetLock(w1, REAPER, w2);
    ByLocking(w1, w2);
    w := Reaping(sid, k, b, false, Packing);
    assert ReapCheck(w2, REAPER, w);
    ByWorking(w2, w);
  }

  lemma ReapArchives(sid: Sid, k: Stem, b: Bucket) returns (w: World)
    ensures Reachable(w) && w == Reaping(sid, k, b, true, Removing(NoPurge))
  {
    hide Step, Reachable;
    var w0 := ReapOwns(sid, k, b);
    var w1 := Reaping(sid, k, b, false, Packed(b));
    assert Pack(w0, REAPER, w1);
    ByArchiving(w0, w1);
    w := Reaping(sid, k, b, true, Removing(NoPurge));
    assert Put(w1, REAPER, true, w);
    ByArchiving(w1, w);
  }

  lemma ReapRemoves(sid: Sid, k: Stem, b: Bucket) returns (w: World)
    ensures Reachable(w) && w == Reaping(sid, k, b, true, Removed(NoPurge)).(containers := {})
  {
    hide Step, Reachable;
    var w0 := ReapArchives(sid, k, b);
    w := Reaping(sid, k, b, true, Removed(NoPurge)).(containers := {});
    assert {sid} - {sid} == {};
    assert Remove(w0, REAPER, true, w);
    ByTearingDown(w0, w);
  }

  lemma ReapEnds(sid: Sid, k: Stem, b: Bucket) returns (w: World)
    ensures Reachable(w) && w == Scene(sid, k, b, FORGOTTEN, 1, false, false, true, {}, map[], {})
  {
    hide Step, Reachable;
    var w1 := ReapRemoves(sid, k, b);
    var w2 := Scene(sid, k, b, Owning(sid, map[], [1], 0, REAPER), 1, false, false, true, {}, map[REAPER := Reap(sid, Some(Finished(NoPurge)))], {});
    assert Drop(w1, REAPER, w2);
    ByTearingDown(w1, w2);
    w := ReapLeaves(sid, k, b, w2);
  }

  lemma ReapLeaves(sid: Sid, k: Stem, b: Bucket, w2: World) returns (w: World)
    requires Reachable(w2)
    requires w2 == Scene(sid, k, b, Owning(sid, map[], [1], 0, REAPER), 1, false, false, true, {}, map[REAPER := Reap(sid, Some(Finished(NoPurge)))], {})
    ensures Reachable(w) && w == Scene(sid, k, b, FORGOTTEN, 1, false, false, true, {}, map[], {})
  {
    hide Step, Reachable;
    var w3 := Scene(sid, k, b, Leaving(sid, [1], 0, REAPER), 1, false, false, true, {}, map[], {});
    assert Unlock(w2, REAPER, w3);
    ByLocking(w2, w3);
    w := Scene(sid, k, b, FORGOTTEN, 1, false, false, true, {}, map[], {});
    assert LeaveLock(w3, REAPER, w);
    ByLocking(w3, w);
  }

  function Discarding(sid: Sid, k: Stem, b: Bucket, forwarded: Option<Stem>, body: Body): World {
    Scene(sid, k, b, Owning(sid, map[], [0, 1], 1, 1), 1, false, false, true, {}, map[1 := Delete(sid, Some(b), true, forwarded, Some(body))], {})
  }

  lemma DiscardOwns(sid: Sid, k: Stem, b: Bucket, forwarded: Option<Stem>) returns (w: World)
    ensures Reachable(w) && w == Discarding(sid, k, b, forwarded, Fresh)
  {
    hide Step, Reachable;
    var w0 := ReapEnds(sid, k, b);
    var w1 := w0.(jobs := map[1 := Delete(sid, Some(b), true, forwarded, None)]);
    assert w0.known + {sid} == w0.known;
    assert StartDelete(w0, 1, sid, Some(b), true, forwarded, w1);
    ByArrival(w0, w1);
    var w2 := w1.(locks := Waiting(sid, map[], [0, 1], 1, 1));
    assert EnterLock(w1, 1, w2);
    ByLocking(w1, w2);
    w := Discarding(sid, k, b, forwarded, Fresh);
    assert GetLock(w2, 1, w);
    ByLocking(w2, w);
  }

  lemma {:induction false} DiscardPurges(sid: Sid, k: Stem, b: Bucket, forwarded: Option<Stem>, todo: set<Stem>, done: set<Stem>)
    requires Reachable(Discarding(sid, k, b, forwarded, Purging(todo, done))) && k !in todo
    ensures Reachable(Discarding(sid, k, b, forwarded, Removing(Purged(todo + done))))
    decreases |todo|
  {
    hide Step, Reachable;
    var w := Discarding(sid, k, b, forwarded, Purging(todo, done));
    if todo == {} {
      assert todo + done == done;
      var w' := Discarding(sid, k, b, forwarded, Removing(Purged(done)));
      assert PurgeEnd(w, 1, w');
      ByArchiving(w, w');
    } else {
      var stem :| stem in todo;
      var w' := Discarding(sid, k, b, forwarded, Purging(todo - {stem}, done + {stem}));
      assert w.objects - {(b, stem)} == w.objects;
      assert PurgeOne(w, 1, stem, true, w');
      ByArchiving(w, w');
      DiscardPurges(sid, k, b, forwarded, todo - {stem}, done + {stem});
      assert (todo - {stem}) + (done + {stem}) == todo + done;
    }
  }

  lemma DiscardRemoves(sid: Sid, k: Stem, b: Bucket, forwarded: Option<Stem>, stems: set<Stem>)
    requires Reachable(Discarding(sid, k, b, forwarded, Removing(Purged(stems))))
    ensures Reachable(Discarding(sid, k, b, forwarded, Finished(Purged(stems))))
  {
    hide Step, Reachable;
    var w0 := Discarding(sid, k, b, forwarded, Removing(Purged(stems)));
    var w1 := Discarding(sid, k, b, forwarded, Removed(Purged(stems)));
    assert Remove(w0, 1, true, w1);
    ByTearingDown(w0, w1);
    var w2 := Discarding(sid, k, b, forwarded, Finished(Purged(stems)));
    assert Drop(w1, 1, w2);
    ByTearingDown(w1, w2);
  }

  lemma DiscardEnds(sid: Sid, k: Stem, b: Bucket, forwarded: Option<Stem>, stems: set<Stem>) returns (w: World)
    requires Reachable(Discarding(sid, k, b, forwarded, Finished(Purged(stems))))
    ensures Reachable(w)
    ensures w == Scene(sid, k, b, Leaving(sid, [0, 1], 1, 1), 1, false, false, true, {}, map[], {Cleared(sid, Some(b), forwarded, stems)})
  {
    hide Step, Reachable;
    var w2 := Discarding(sid, k, b, forwarded, Finished(Purged(stems)));
    w := Scene(sid, k, b, Leaving(sid, [0, 1], 1, 1), 1, false, false, true, {}, map[], {Cleared(sid, Some(b), forwarded, stems)});
    assert Unlock(w2, 1, w);
    ByLocking(w2, w);
  }

  /** For every session made with a key of its own and every other key, or none, forwarded:
      there is a run, without any restart, in which the discard returns ok and the archive is
      still there, because the reaper has removed the session and with it forgotten its key. */
  lemma LostKeyLeavesArchive(sid: Sid, bucket: Bucket, k: Stem, forwarded: Option<Stem>)
    requires k != sid && forwarded != Some(k)
    ensures exists w, c :: Reachable(w) && c in w.cleared && c.sid == sid && c.bucket == Some(bucket) && c.key == forwarded
                           && Look(w.madeKey, sid) == Some(k) && !NothingLeft(w, bucket, sid)
  {
    hide Step, Reachable;
    var w0 := DiscardOwns(sid, k, bucket, forwarded);
    var stems := {if forwarded.Some? then forwarded.value else sid, sid};
    var w1 := Discarding(sid, k, bucket, forwarded, Purging(stems, {}));
    assert DeleteDiscard(w0, 1, w1);
    ByWorking(w0, w1);
    DiscardPurges(sid, k, bucket, forwarded, stems, {});
    DiscardRemoves(sid, k, bucket, forwarded, stems + {});
    var w := DiscardEnds(sid, k, bucket, forwarded, stems + {});
    var c := Cleared(sid, Some(bucket), forwarded, stems + {});
    assert c in w.cleared && (bucket, k) in w.objects && w.objects[(bucket, k)] == sid;
  }

  /** Such a run for one session, conversation and bucket, with no key forwarded. */
  lemma LostKeyExample()
    ensures !AlwaysClears("s", "b", Some("conv"), None)
  {
    assert "s" != "conv" by {
      assert |"s"| != |"conv"|;
    }
    DiscardClearsExactly("s", "b", Some("conv"), None);
  }
}
