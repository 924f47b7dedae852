/** The server's side of the chunked backup import, as the deployment guide promises it. */
module BackupServer {
  import opened Prelude

  type Bytes = seq<bv8>

  const CHUNK_BYTES: nat := 4 * 1024 * 1024

  datatype Phase = Uploading | Restoring | Completed | Failed

  /** `archive` names a server-side archive, whose bytes are pinned at creation. `bytes` is the
      content of the job's file while it has one, `uploaded` the count that the job reports, and
      `restored` what a completed restore has restored. A chunk's digest stands for its bytes. */
  datatype Job = Job(phase: Phase, total: nat, archive: Option<string>, uploaded: nat, bytes: Bytes,
                     lastOffset: int, lastChunk: Bytes, restored: Option<Bytes>)

  type Jobs = map<nat, Job>

  datatype Request =
    | Create(id: nat, size: nat, name: Option<string>)
    | Chunk(id: nat, offset: nat, data: Bytes)
    | Start(id: nat)
    | Delete(id: nat)
    | Status(id: nat)

  datatype View = View(phase: Phase, total: nat, uploaded: nat, chunkBytes: nat)

  /** An HTTP answer, or none at all. */
  datatype Reply = Answer(view: View) | Refused(status: nat) | Lost

  function ViewOf(j: Job): View {
    View(j.phase, j.total, j.uploaded, CHUNK_BYTES)
  }

  predicate Busy(j: Job) {
    j.phase.Uploading? || j.phase.Restoring?
  }

  datatype Handled = Handled(jobs: Jobs, reply: Reply)

  /** One request, served under the job table's locks. */
  function Handle(archives: map<string, Bytes>, jobs: Jobs, r: Request): Handled {
    match r
    case Create(id, size, name) => HandleCreate(archives, jobs, id, size, name)
    case Status(id) => if id in jobs then Handled(jobs, Answer(ViewOf(jobs[id]))) else Handled(jobs, Refused(404))
    case _ =>
      if r.id !in jobs then Handled(jobs, Refused(404))
      else
        var (j, reply) := Serve(jobs[r.id], r);
        Handled(jobs[r.id := j], reply)
  }

  /** A request about a job that exists. */
  function Serve(j: Job, r: Request): (Job, Reply)
    requires !r.Create? && !r.Status?
  {
    match r
    case Chunk(_, offset, data) => HandleChunk(j, offset, data)
    case Start(_) => HandleStart(j)
    case Delete(_) => HandleDelete(j)
  }

  function HandleCreate(archives: map<string, Bytes>, jobs: Jobs, id: nat, size: nat, name: Option<string>): Handled {
    if size == 0 then Handled(jobs, Refused(400))
    else if id in jobs then
      if jobs[id].total != size || jobs[id].archive != name then Handled(jobs, Refused(409)) else Handled(jobs, Answer(ViewOf(jobs[id])))
    else if exists other :: other in jobs && Busy(jobs[other]) then Handled(jobs, Refused(409))
    else if name.Some? && name.value !in archives then Handled(jobs, Refused(404))
    else if name.Some? && |archives[name.value]| != size then Handled(jobs, Refused(409))
    else
      var bytes := if name.Some? then archives[name.value] else [];
      var j := Job(Uploading, size, name, if name.Some? then size else 0, bytes, -1, [], None);
      Handled(jobs[id := j], Answer(ViewOf(j)))
  }

  /** A repetition of the last chunk is acknowledged and not appended; anything else must
      fit exactly behind the bytes received. */
  function HandleChunk(j: Job, offset: nat, data: Bytes): (Job, Reply) {
    if !j.phase.Uploading? || j.archive.Some? then (j, Refused(409))
    else if offset == j.lastOffset && data == j.lastChunk then (j, Answer(ViewOf(j)))
    else if offset != j.uploaded || data == [] || |data| > j.total - j.uploaded then (j, Refused(409))
    else
      var k := j.(uploaded := j.uploaded + |data|, bytes := j.bytes + data, lastOffset := offset, lastChunk := data);
      (k, Answer(ViewOf(k)))
  }

  /** Starting a started job again changes nothing. */
  function HandleStart(j: Job): (Job, Reply) {
    if !j.phase.Uploading? then (j, Answer(ViewOf(j)))
    else if !Whole(j) then (j, Refused(409))
    else (j.(phase := Restoring), Answer(ViewOf(j.(phase := Restoring))))
  }

  /** Cancels an upload and removes its file; the count stays as it was. */
  function HandleDelete(j: Job): (Job, Reply) {
    if !j.phase.Uploading? then (j, Refused(409))
    else
      var k := j.(phase := Failed, bytes := []);
      (k, Answer(ViewOf(k)))
  }

  /** A restore ends, well or not, and its file is removed. */
  function EndRestore(j: Job, good: bool): Job {
    j.(phase := if good then Completed else Failed, restored := if good then Some(j.bytes) else None, bytes := [])
  }

  // ---------------------------------------------------------------------------------------
  // What a client imports, and what the server may hold of it

  /** A file chosen in the browser, or an archive in the server's directory. */
  datatype Source =
    | FromFile(handle: nat, content: Bytes)
    | FromArchive(name: string, bytes: nat, created: nat)

  function Size(s: Source): nat {
    if s.FromFile? then |s.content| else s.bytes
  }

  function NameOf(s: Source): Option<string> {
    if s.FromFile? then None else Some(s.name)
  }

  /** The job holds a prefix of the file, all of it once the restore has begun, and nothing
      after its end; a completed restore has restored the whole. */
  predicate Holds(j: Job, s: Source) {
    && j.total == Size(s) && j.archive == NameOf(s) && j.lastOffset < j.uploaded <= j.total
    && (if Busy(j) then |j.bytes| == j.uploaded && (if s.FromFile? then j.bytes <= s.content else Whole(j)) else j.bytes == [])
    && (j.phase.Restoring? || j.phase.Completed? ==> Whole(j))
    && (if j.phase.Completed? then j.restored.Some? && IsWhole(j.restored.value, s) else j.restored.None?)
  }

  predicate Whole(j: Job) {
    j.uploaded == j.total
  }

  /** All of the file, or of an archive as much as it had when it was chosen. */
  predicate IsWhole(bytes: Bytes, s: Source) {
    if s.FromFile? then bytes == s.content else |bytes| == s.bytes
  }

  type Sources = map<nat, Source>

  /** The request is about the source its id was made for. */
  predicate About(r: Request, sources: Sources) {
    && r.id in sources
    && var s := sources[r.id];
    match r
    case Create(_, size, name) => size == Size(s) && name == NameOf(s)
    case Chunk(_, offset, data) => s.FromFile? && offset + |data| <= |s.content| && data == s.content[offset..offset + |data|]
    case _ => true
  }

  ghost predicate JobsHold(jobs: Jobs, sources: Sources) {
    forall id :: id in jobs ==> id in sources && Holds(jobs[id], sources[id])
  }

  /** Serving a request keeps a job's bytes a prefix of the source, and takes none away unless
      it cancels the upload. */
  lemma ServeKeeps(j: Job, s: Source, r: Request, sources: Sources)
    requires Holds(j, s) && About(r, sources) && sources[r.id] == s && !r.Create? && !r.Status?
    ensures var (k, reply) := Serve(j, r);
            && Holds(k, s) && j.total == k.total && j.uploaded <= k.uploaded
            && (j.bytes <= k.bytes || (r.Delete? && j.phase.Uploading? && k.phase.Failed? && k.bytes == []))
            && (reply.Answer? ==> reply.view == ViewOf(k))
  {
    if r.Chunk? && r.offset == |j.bytes| {
      assert j.bytes + r.data == s.content[..r.offset + |r.data|];
    }
  }

  /** Whatever request reaches the server, whenever and however often, its bytes stay a
      prefix of the file, and nothing but a cancellation takes any away. */
  lemma HandleKeeps(archives: map<string, Bytes>, jobs: Jobs, sources: Sources, r: Request)
    requires JobsHold(jobs, sources) && About(r, sources)
    ensures var after := Handle(archives, jobs, r).jobs;
            && JobsHold(after, sources)
            && (forall id :: id in jobs ==>
                  && id in after && jobs[id].total == after[id].total && jobs[id].uploaded <= after[id].uploaded
                  && (jobs[id].bytes <= after[id].bytes || r == Delete(id)))
    ensures var h := Handle(archives, jobs, r);
            h.reply.Answer? ==> r.id in h.jobs && h.reply.view == ViewOf(h.jobs[r.id])
  {
    hide Serve;
    if r.id in jobs && !r.Create? && !r.Status? {
      ServeKeeps(jobs[r.id], sources[r.id], r, sources);
    }
  }

  /** The end of a restore: what has been restored is the whole source. */
  lemma EndKeeps(j: Job, s: Source, good: bool)
    requires Holds(j, s) && j.phase.Restoring?
    ensures Holds(EndRestore(j, good), s) && EndRestore(j, good).uploaded == j.uploaded
    ensures good ==> EndRestore(j, good).restored.Some? && IsWhole(EndRestore(j, good).restored.value, s)
  {
    if s.FromFile? {
      assert s.content[..|j.bytes|] == s.content;
    }
  }

  /** A restore begins only with a start request and the whole source, and a job that has
      left the uploading phase never returns to it: no job is restored twice. */
  lemma RestoreBeginsOnce(archives: map<string, Bytes>, jobs: Jobs, r: Request, id: nat)
    requires id in jobs
    ensures var after := Handle(archives, jobs, r).jobs;
            && id in after
            && (after[id].phase != jobs[id].phase ==>
                jobs[id].phase.Uploading? && r.id == id &&
                ((after[id].phase.Restoring? && r.Start? && Whole(jobs[id])) || (after[id].phase.Failed? && r.Delete?)))
            && (!jobs[id].phase.Uploading? ==> after[id] == jobs[id])
  {}
}
