/** The page's side of the chunked backup import, over a network that loses requests and
    replies, delivers old requests again at any later time, and lets proxies refuse. */
module BackupUpload {
  import opened Prelude
  import opened BackupServer

  const MAX_CHUNK: nat := 4 * 1024 * 1024
  const MIN_CHUNK: nat := 256 * 1024

  predicate Transient(r: Reply) {
    r.Lost? || (r.Refused? && r.status in [0, 408, 429, 500, 502, 503, 504, 520, 522, 524])
  }

  /** What may happen on its own: an old request arrives again, a restore ends, the server
      forgets a job that is not being restored. */
  datatype Happening = Late(index: nat) | Ended(job: nat, good: bool) | Forgotten(job: nat)

  /** What the network does with one request: what happens before it, whether it reaches the
      server, and what the page sees in place of the server's answer, if anything. */
  datatype Fate = Fate(before: seq<Happening>, reaches: bool, instead: Option<Reply>)

  datatype Pending = Pending(source: Source, id: nat)

  datatype Outcome = Restored | Threw(started: bool, known: bool)

  // ---------------------------------------------------------------------------------------
  // The world: the server's jobs, everything ever sent, and what the ids stand for

  /** Once a start has been sent for an id, only further starts and status queries are. */
  ghost predicate StartsAreLast(wire: seq<Request>) {
    forall i, j :: 0 <= i < j < |wire| && wire[i].Start? && wire[j].id == wire[i].id ==> wire[j].Start? || wire[j].Status?
  }

  ghost predicate Started(wire: seq<Request>, id: nat) {
    exists i :: 0 <= i < |wire| && wire[i] == Start(id)
  }

  ghost predicate AllAbout(wire: seq<Request>, sources: Sources) {
    forall i :: 0 <= i < |wire| ==> About(wire[i], sources)
  }

  /** From the moment the server has held the whole source, it holds it until it forgets the job. */
  ghost predicate WholeStays(jobs: Jobs, whole: set<nat>, forgotten: set<nat>) {
    forall id :: id in whole && id !in forgotten ==> id in jobs && Whole(jobs[id])
  }

  ghost predicate StartsAreWhole(wire: seq<Request>, whole: set<nat>) {
    forall i :: 0 <= i < |wire| && wire[i].Start? ==> wire[i].id in whole
  }

  /** One happening, as the server sees it. */
  function Happen(archives: map<string, Bytes>, jobs: Jobs, wire: seq<Request>, h: Happening): Jobs {
    match h
    case Late(index) => if index < |wire| then Handle(archives, jobs, wire[index]).jobs else jobs
    case Ended(job, good) =>
      if job in jobs && jobs[job].phase.Restoring? then
        jobs[job := EndRestore(jobs[job], good)]
      else jobs
    case Forgotten(job) => if job in jobs && !jobs[job].phase.Restoring? then jobs - {job} else jobs
  }

  function HappenAll(archives: map<string, Bytes>, jobs: Jobs, wire: seq<Request>, hs: seq<Happening>): Jobs {
    if hs == [] then jobs
    else Happen(archives, HappenAll(archives, jobs, wire, hs[..|hs| - 1]), wire, hs[|hs| - 1])
  }

  lemma HappenKeeps(archives: map<string, Bytes>, jobs: Jobs, wire: seq<Request>, sources: Sources, h: Happening, whole: set<nat>, forgotten: set<nat>)
    requires JobsHold(jobs, sources) && AllAbout(wire, sources) && WholeStays(jobs, whole, forgotten)
    ensures var after := Happen(archives, jobs, wire, h);
            JobsHold(after, sources) && WholeStays(after, whole, if h.Forgotten? then forgotten + {h.job} else forgotten)
  {
    if h.Late? && h.index < |wire| {
      HandleKeeps(archives, jobs, sources, wire[h.index]);
      StaysWhole(jobs, Handle(archives, jobs, wire[h.index]).jobs, sources, whole, forgotten);
    }
    if h.Ended? && h.job in jobs && jobs[h.job].phase.Restoring? {
      EndKeeps(jobs[h.job], sources[h.job], h.good);
    }
  }

  lemma StaysWhole(jobs: Jobs, after: Jobs, sources: Sources, whole: set<nat>, forgotten: set<nat>)
    requires JobsHold(jobs, sources) && JobsHold(after, sources) && WholeStays(jobs, whole, forgotten)
    requires forall id :: id in jobs ==> id in after && jobs[id].total == after[id].total && jobs[id].uploaded <= after[id].uploaded
    ensures WholeStays(after, whole, forgotten)
  {
    forall id | id in whole && id !in forgotten
      ensures id in after && Whole(after[id])
    {
      assert Holds(after[id], sources[id]);
    }
  }

  // ---------------------------------------------------------------------------------------
  // The server while nothing goes wrong

  /** The job takes its source in and has come so far; no other job is under way. */
  ghost predicate Receives(jobs: Jobs, id: nat, total: nat, uploaded: nat) {
    && id in jobs && jobs[id].phase.Uploading? && jobs[id].total == total && jobs[id].uploaded == uploaded
    && forall other :: other in jobs && other != id ==> !Busy(jobs[other])
  }

  /** The job is being restored, or has been, and no other is under way. */
  ghost predicate Restores(jobs: Jobs, id: nat, completed: bool) {
    && id in jobs && (if completed then jobs[id].phase.Completed? else jobs[id].phase.Restoring?)
    && forall other :: other in jobs && other != id ==> !Busy(jobs[other])
  }

  /** Nothing happens on its own but that restores end well. */
  ghost predicate OnlyGoodEnds(hs: seq<Happening>) {
    forall k :: 0 <= k < |hs| ==> hs[k].Ended? && hs[k].good
  }

  lemma {:induction false} NothingHappens(archives: map<string, Bytes>, jobs: Jobs, wire: seq<Request>, hs: seq<Happening>)
    requires OnlyGoodEnds(hs) && forall id :: id in jobs ==> !jobs[id].phase.Restoring?
    ensures HappenAll(archives, jobs, wire, hs) == jobs
  {
    if hs != [] {
      NothingHappens(archives, jobs, wire, hs[..|hs| - 1]);
    }
  }

  lemma {:induction false} RestoreMayEnd(archives: map<string, Bytes>, jobs: Jobs, wire: seq<Request>, hs: seq<Happening>, id: nat)
    requires OnlyGoodEnds(hs) && Restores(jobs, id, false)
    ensures Restores(HappenAll(archives, jobs, wire, hs), id, Ended(id, true) in hs)
  {
    if hs != [] {
      var front, last := hs[..|hs| - 1], hs[|hs| - 1];
      assert hs == front + [last];
      RestoreMayEnd(archives, jobs, wire, front, id);
    }
  }

  lemma AnswerIsWhole(jobs: Jobs, sources: Sources, id: nat, view: View)
    requires JobsHold(jobs, sources) && id in jobs && view == ViewOf(jobs[id])
    ensures id in sources && (view.uploaded == Size(sources[id]) ==> Whole(jobs[id]))
  {}

  /** A page: its module state, and the world it talks to. */
  class Page {
    const net: nat -> Fate
    const archives: map<string, Bytes>
    var pendingImport: Option<Pending>
    var nextId: nat
    var jobs: Jobs
    var wire: seq<Request>
    ghost var sources: Sources
    ghost var whole: set<nat>
    ghost var forgotten: set<nat>

    /** What has become of the server's jobs when the n-th request comes to it. */
    ghost function Before(js: Jobs, requests: seq<Request>, n: nat): Jobs {
      HappenAll(archives, js, requests, net(n).before)
    }

    /** What the n-th request, if it is r, does to the server's jobs, and what the page sees. */
    ghost function Exchanged(js: Jobs, requests: seq<Request>, n: nat, r: Request): Handled {
      var fate, before := net(n), Before(js, requests, n);
      var h := if fate.reaches then Handle(archives, before, r) else Handled(before, Lost);
      Handled(h.jobs, if fate.instead.Some? && !fate.instead.value.Answer? then fate.instead.value else h.reply)
    }

    /** The n-th request reaches the server and its answer the page, and meanwhile nothing else
        happens but that restores end well. */
    ghost predicate Calm(n: nat) {
      net(n).reaches && net(n).instead.None? && OnlyGoodEnds(net(n).before)
    }

    ghost predicate AllCalm() {
      forall n: nat :: Calm(n)
    }

    ghost predicate EndsAt(m: nat, id: nat) {
      Ended(id, true) in net(m).before
    }

    ghost predicate EndsSoon(n: nat, patience: nat, id: nat) {
      exists m: nat :: n <= m < n + patience && EndsAt(m, id)
    }

    /** Nothing goes wrong, and whenever it begins, the restore of the job ends within so many
        requests. */
    ghost predicate Smooth(id: nat, patience: nat) {
      AllCalm() && forall n: nat :: EndsSoon(n, patience, id)
    }

    lemma SoonWithout(id: nat, patience: nat)
      requires patience > 0 && forall n: nat :: Calm(n) && EndsAt(n, id)
      ensures Smooth(id, patience)
    {
      forall n: nat ensures EndsSoon(n, patience, id) {
        assert EndsAt(n, id);
      }
    }

    lemma CalmBefore(js: Jobs, requests: seq<Request>, n: nat)
      requires Calm(n) && forall id :: id in js ==> !js[id].phase.Restoring?
      ensures Before(js, requests, n) == js
    {
      NothingHappens(archives, js, requests, net(n).before);
    }

    lemma ChunkGoesWell(js: Jobs, requests: seq<Request>, n: nat, id: nat, total: nat, offset: nat, data: Bytes)
      requires Calm(n) && Receives(js, id, total, offset) && js[id].archive.None? && js[id].lastOffset < offset
      requires data != [] && offset + |data| <= total
      ensures var h := Exchanged(js, requests, n, Chunk(id, offset, data));
              h.reply.Answer? && h.reply.view.uploaded == offset + |data| && Receives(h.jobs, id, total, offset + |data|)
    {
      CalmBefore(js, requests, n);
    }

    lemma CancelGoesWell(js: Jobs, requests: seq<Request>, n: nat, id: nat)
      requires Calm(n) && forall other :: other in js && Busy(js[other]) ==> other == id && js[other].phase.Uploading?
      requires id in js ==> js[id].phase.Uploading?
      ensures var h := Exchanged(js, requests, n, Delete(id));
              && (h.reply.Answer? || h.reply == Refused(404)) && h.jobs.Keys == js.Keys
              && forall other :: other in h.jobs ==> !Busy(h.jobs[other])
    {
      CalmBefore(js, requests, n);
    }

    /** The server would take a job for this source. */
    ghost predicate Acceptable(source: Source) {
      && Size(source) > 0
      && (source.FromArchive? ==> source.name in archives && |archives[source.name]| == source.bytes)
    }

    lemma CreateGoesWell(js: Jobs, requests: seq<Request>, n: nat, id: nat, source: Source)
      requires Calm(n) && Acceptable(source)
      requires if id in js then Receives(js, id, Size(source), js[id].uploaded) && js[id].archive == NameOf(source)
               else forall other :: other in js ==> !Busy(js[other])
      ensures var h := Exchanged(js, requests, n, Create(id, Size(source), NameOf(source)));
              && h.reply.Answer? && h.reply.view.chunkBytes == CHUNK_BYTES && h.reply.view.phase.Uploading?
              && Receives(h.jobs, id, Size(source), h.reply.view.uploaded)
              && h.reply.view.uploaded == (if id in js then js[id].uploaded else if source.FromArchive? then Size(source) else 0)
    {
      CalmBefore(js, requests, n);
    }

    lemma StartGoesWell(js: Jobs, requests: seq<Request>, n: nat, id: nat, total: nat)
      requires Calm(n) && Receives(js, id, total, total)
      ensures var h := Exchanged(js, requests, n, Start(id));
              h.reply.Answer? && h.reply.view.phase.Restoring? && Restores(h.jobs, id, false)
    {
      CalmBefore(js, requests, n);
    }

    lemma StatusGoesWell(js: Jobs, requests: seq<Request>, n: nat, id: nat)
      requires Calm(n) && Restores(js, id, false)
      ensures var h := Exchanged(js, requests, n, Status(id));
              && h.reply.Answer? && Restores(h.jobs, id, EndsAt(n, id))
              && (h.reply.view.phase.Completed? <==> EndsAt(n, id)) && (h.reply.view.phase.Restoring? <==> !EndsAt(n, id))
    {
      RestoreMayEnd(archives, js, requests, net(n).before, id);
    }

    ghost predicate Valid()
      reads this
    {
      && JobsHold(jobs, sources)
      && AllAbout(wire, sources)
      && WholeStays(jobs, whole, forgotten)
      && StartsAreWhole(wire, whole)
      && StartsAreLast(wire)
      && (forall id :: id in sources ==> id < nextId)
      && (pendingImport.Some? ==> Reusable(pendingImport.value))
    }

    /** The id belongs to the source and was never started. */
    ghost predicate Reusable(p: Pending)
      reads this
    {
      p.id in sources && sources[p.id] == p.source && !Started(wire, p.id)
    }

    /** What a user may rely on: the server never holds anything but a prefix of the chosen
        source, and restores nothing but the whole of it; an id whose start was attempted
        is neither reused nor discarded, and its start was sent with the whole source there,
        where it still is unless the server forgot the job. */
    ghost predicate Safe()
      reads this
    {
      && (forall id :: id in jobs ==>
            && id in sources
            && (sources[id].FromFile? ==> jobs[id].bytes <= sources[id].content)
            && (jobs[id].phase.Restoring? ==> IsWhole(jobs[id].bytes, sources[id]))
            && (jobs[id].phase.Completed? ==> jobs[id].restored.Some? && IsWhole(jobs[id].restored.value, sources[id])))
      && (forall i, j :: 0 <= i < j < |wire| && wire[i].Start? && wire[j].id == wire[i].id ==> wire[j].Start? || wire[j].Status?)
      && (pendingImport.Some? ==> forall i :: 0 <= i < |wire| && wire[i].Start? ==> wire[i].id != pendingImport.value.id)
      && (forall i :: 0 <= i < |wire| && wire[i].Start? && wire[i].id !in forgotten ==>
            wire[i].id in jobs && jobs[wire[i].id].uploaded == Size(sources[wire[i].id]))
    }

    lemma ValidIsSafe()
      requires Valid()
      ensures Safe()
    {
      forall id | id in jobs && jobs[id].phase.Restoring? && sources[id].FromFile?
        ensures jobs[id].bytes == sources[id].content
      {
        assert Holds(jobs[id], sources[id]);
        assert sources[id].content[..|jobs[id].bytes|] == sources[id].content;
      }
      forall i | 0 <= i < |wire| && wire[i].Start? && pendingImport.Some?
        ensures wire[i].id != pendingImport.value.id
      {
        assert wire[i] == Start(wire[i].id);
      }
    }

    constructor (net: nat -> Fate, archives: map<string, Bytes>)
      ensures Valid() && wire == [] && pendingImport == None && nextId == 0 && jobs == map[] && this.net == net && this.archives == archives
    {
      this.net, this.archives := net, archives;
      pendingImport, nextId, jobs, wire := None, 0, map[], [];
      sources, whole, forgotten := map[], {}, {};
    }

    /** The server has completed the restore, of the whole source. */
    ghost predicate HasRestored(id: nat)
      reads this
    {
      && id in sources && id in jobs && jobs[id].phase.Completed?
      && jobs[id].restored.Some? && IsWhole(jobs[id].restored.value, sources[id])
    }

    /** The server serves a request. */
    method Reach(r: Request) returns (reply: Reply)
      requires JobsHold(jobs, sources) && WholeStays(jobs, whole, forgotten) && About(r, sources)
      modifies this`jobs, this`whole, this`forgotten
      ensures JobsHold(jobs, sources) && WholeStays(jobs, whole, forgotten) && whole >= old(whole)
      ensures jobs == Handle(archives, old(jobs), r).jobs && reply == Handle(archives, old(jobs), r).reply
      ensures reply.Answer? ==> r.id in jobs && reply.view == ViewOf(jobs[r.id])
      ensures reply.Answer? && reply.view.uploaded == Size(sources[r.id]) ==> r.id in whole
    {
      HandleKeeps(archives, jobs, sources, r);
      var handled := Handle(archives, jobs, r);
      StaysWhole(jobs, handled.jobs, sources, whole, forgotten);
      hide Handle, JobsHold, About;
      jobs, reply := handled.jobs, handled.reply;
      if reply.Answer? && reply.view.uploaded == Size(sources[r.id]) {
        AnswerIsWhole(jobs, sources, r.id, reply.view);
        whole, forgotten := whole + {r.id}, forgotten - {r.id};
      }
    }

    /** One request. Its server-side effect, if any, and its answer are the network's choice. */
    method Send(r: Request) returns (reply: Reply)
      requires Valid() && About(r, sources)
      requires r.Start? ==> r.id in whole
      requires r.Start? || r.Status? || !Started(wire, r.id)
      requires r.Start? ==> pendingImport.None? || pendingImport.value.id != r.id
      modifies this`jobs, this`wire, this`whole, this`forgotten
      ensures Valid() && wire == old(wire) + [r] && whole >= old(whole)
      ensures Handled(jobs, reply) == Exchanged(old(jobs), wire, |old(wire)|, r)
      ensures reply.Answer? ==> r.id in jobs && reply.view == ViewOf(jobs[r.id])
      ensures reply.Answer? && reply.view.uploaded == Size(sources[r.id]) ==> r.id in whole
      ensures forall id :: Started(wire, id) <==> old(Started(wire, id)) || r == Start(id)
    {
      var fate := net(|wire|);
      ghost var before := wire;
      wire := wire + [r];
      for k := 0 to |fate.before|
        modifies this`jobs, this`forgotten
        invariant JobsHold(jobs, sources) && WholeStays(jobs, whole, forgotten)
        invariant jobs == HappenAll(archives, old(jobs), wire, fate.before[..k])
      {
        assert fate.before[..k + 1][..k] == fate.before[..k];
        HappenKeeps(archives, jobs, wire, sources, fate.before[k], whole, forgotten);
        jobs := Happen(archives, jobs, wire, fate.before[k]);
        forgotten := if fate.before[k].Forgotten? then forgotten + {fate.before[k].job} else forgotten;
      }
      assert fate.before[..|fate.before|] == fate.before;
      reply := Lost;
      if fate.reaches {
        reply := Reach(r);
      }
      if fate.instead.Some? && !fate.instead.value.Answer? {
        reply := fate.instead.value;
      }
      OneMoreSent(before, r);
    }

    /** Up to three attempts; only transient failures are tried again. */
    method Retry(r: Request) returns (reply: Reply, ghost tries: nat)
      requires Valid() && About(r, sources)
      requires r.Start? ==> r.id in whole
      requires r.Start? || r.Status? || !Started(wire, r.id)
      requires r.Start? ==> pendingImport.None? || pendingImport.value.id != r.id
      modifies this`jobs, this`wire, this`whole, this`forgotten
      ensures Valid() && whole >= old(whole)
      ensures reply.Answer? ==> r.id in jobs && reply.view == ViewOf(jobs[r.id])
      ensures 1 <= tries <= 3 && wire == old(wire) + Copies(r, tries)
      ensures tries == 1 ==> Handled(jobs, reply) == Exchanged(old(jobs), old(wire) + [r], |old(wire)|, r)
      ensures !Transient(Exchanged(old(jobs), old(wire) + [r], |old(wire)|, r).reply) ==> tries == 1
      ensures reply.Answer? || tries == 3 || !Transient(reply)
      ensures reply.Answer? && reply.view.uploaded == Size(sources[r.id]) ==> r.id in whole
      ensures forall id :: Started(wire, id) <==> old(Started(wire, id)) || r == Start(id)
    {
      var attempt := 0;
      tries := 0;
      while true
        invariant Valid() && whole >= old(whole)
        invariant attempt == tries <= 2 && wire == old(wire) + Copies(r, tries)
        invariant forall id :: Started(wire, id) <==> old(Started(wire, id)) || (tries > 0 && r == Start(id))
        invariant if tries == 0 then jobs == old(jobs) else Transient(Exchanged(old(jobs), old(wire) + [r], |old(wire)|, r).reply)
        decreases 3 - attempt
      {
        assert tries == 0 ==> old(wire) + Copies(r, 0) == old(wire);
        OneMoreCopy(old(wire), r, tries);
        reply := Send(r);
        tries := tries + 1;
        if reply.Answer? || attempt >= 2 || !Transient(reply) {
          return;
        }
        attempt := attempt + 1;
      }
    }

    /** At most this job is under way, and still uploading. */
    ghost predicate Cancellable(id: nat)
      reads this
    {
      && (forall other :: other in jobs && Busy(jobs[other]) ==> other == id)
      && (id in jobs ==> jobs[id].phase.Uploading?)
    }

    /** Gives an upload up; a job that is not there counts as given up. */
    method Discard(id: nat) returns (done: bool)
      requires Valid() && id in sources && !Started(wire, id)
      modifies this`jobs, this`wire, this`whole, this`forgotten
      ensures Valid() && wire == old(wire) + [Delete(id)] && whole >= old(whole)
      ensures forall other :: Started(wire, other) <==> old(Started(wire, other))
      ensures Calm(|old(wire)|) && old(Cancellable(id)) ==> done && jobs.Keys == old(jobs).Keys && forall other :: other in jobs ==> !Busy(jobs[other])
    {
      if Calm(|wire|) && Cancellable(id) {
        CancelGoesWell(jobs, wire + [Delete(id)], |wire|, id);
      }
      hide Exchanged, Calm, Valid;
      var reply := Send(Delete(id));
      return reply.Answer? || reply == Refused(404);
    }

    method SendChunk(id: nat, content: Bytes, offset: nat, end: nat) returns (reply: Reply)
      requires Valid() && id in sources && sources[id].FromFile? && sources[id].content == content
      requires !Started(wire, id) && offset < end <= |content|
      modifies this`jobs, this`wire, this`whole, this`forgotten
      ensures Valid() && whole >= old(whole)
      ensures forall other :: Started(wire, other) <==> old(Started(wire, other))
      ensures |wire| > |old(wire)| && old(wire) <= wire
      ensures forall i :: |old(wire)| <= i < |wire| ==> wire[i] == Chunk(id, offset, content[offset..end])
      ensures reply.Answer? && reply.view.uploaded == |content| ==> id in whole
      ensures AllCalm() && old(Receives(jobs, id, |content|, offset)) ==>
                reply.Answer? && reply.view.uploaded == end && Receives(jobs, id, |content|, end)
    {
      if AllCalm() && Receives(jobs, id, |content|, offset) {
        assert Holds(jobs[id], sources[id]) && Calm(|wire|);
        ChunkGoesWell(jobs, wire + [Chunk(id, offset, content[offset..end])], |wire|, id, |content|, offset, content[offset..end]);
      }
      assert About(Chunk(id, offset, content[offset..end]), sources);
      hide Exchanged, Calm, OnlyGoodEnds, Valid, Receives, About;
      ghost var tries;
      reply, tries := Retry(Chunk(id, offset, content[offset..end]));
    }

    /** Sends the rest of a file, a chunk at a time from the acknowledged offset. If it fails,
        `last` is the reply it failed on, and `size` the chunk's size. */
    method Upload(id: nat, content: Bytes, first: View) returns (job: View, good: bool, ghost last: Reply, ghost size: nat)
      requires Valid() && id in sources && sources[id].FromFile? && sources[id].content == content
      requires !Started(wire, id) && first.chunkBytes > 0
      requires first.uploaded == |content| ==> id in whole
      modifies this`jobs, this`wire, this`whole, this`forgotten
      ensures Valid() && whole >= old(whole)
      ensures forall other :: Started(wire, other) <==> old(Started(wire, other))
      ensures good ==> job.uploaded >= |content| && (job.uploaded == |content| ==> id in whole)
      ensures old(wire) <= wire && forall i :: |old(wire)| <= i < |wire| ==>
                wire[i].Chunk? && wire[i].id == id && 0 < |wire[i].data| <= MAX_CHUNK
      ensures !good ==> |wire| > |old(wire)| && size == |wire[|wire| - 1].data|
      ensures !good && last == Refused(413) ==> size <= MIN_CHUNK
      ensures !good && last.Answer? ==> last.view.uploaded != wire[|wire| - 1].offset + size
      ensures AllCalm() && old(Receives(jobs, id, |content|, first.uploaded)) ==>
                good && job.uploaded == |content| && Receives(jobs, id, |content|, |content|)
    {
      assert Receives(jobs, id, |content|, first.uploaded) ==> Holds(jobs[id], sources[id]) && first.uploaded <= |content|;
      hide Receives, Valid;
      job := first;
      last, size := Lost, 0;
      var chunkBytes := Min(job.chunkBytes, MAX_CHUNK);
      while job.uploaded < |content|
        invariant Valid() && whole >= old(whole) && 0 < chunkBytes <= MAX_CHUNK
        invariant forall other :: Started(wire, other) <==> old(Started(wire, other))
        invariant job.uploaded == |content| ==> id in whole
        invariant AllCalm() && old(Receives(jobs, id, |content|, first.uploaded)) ==> Receives(jobs, id, |content|, job.uploaded)
        invariant job == first || job.uploaded <= |content|
        invariant old(wire) <= wire && forall i :: |old(wire)| <= i < |wire| ==>
                    wire[i].Chunk? && wire[i].id == id && 0 < |wire[i].data| <= MAX_CHUNK
        decreases |content| - job.uploaded, chunkBytes
      {
        var offset := job.uploaded;
        var end := Min(|content|, offset + chunkBytes);
        var reply := SendChunk(id, content, offset, end);
        last, size := reply, end - offset;
        if reply == Refused(413) && chunkBytes > MIN_CHUNK {
          chunkBytes := Max(MIN_CHUNK, chunkBytes / 2);
          continue;
        }
        if !reply.Answer? || reply.view.uploaded != end {
          return job, false, last, size;
        }
        job := reply.view;
      }
      return job, true, last, size;
    }

    /** Gives up another upload that is pending, and creates the job or finds it. */
    method Open(source: Source, id: nat) returns (done: bool, reply: Reply)
      requires Valid() && id in sources && sources[id] == source && !Started(wire, id)
      modifies this`pendingImport, this`jobs, this`wire, this`whole, this`forgotten
      ensures Valid() && whole >= old(whole)
      ensures done ==> pendingImport == Some(Pending(source, id))
      ensures pendingImport == old(pendingImport) || pendingImport == Some(Pending(source, id))
      ensures forall other :: Started(wire, other) <==> old(Started(wire, other))
      ensures reply.Answer? && reply.view.uploaded == Size(source) ==> id in whole
      ensures AllCalm() && old(Ready(source, id)) ==>
                && done && reply.Answer? && reply.view.chunkBytes > 0 && reply.view.phase.Uploading?
                && Receives(jobs, id, Size(source), reply.view.uploaded)
                && (source.FromArchive? ==> reply.view.uploaded == Size(source))
    {
      ghost var smooth := AllCalm() && Ready(source, id);
      assert smooth ==> Calm(|wire|);
      done, reply := true, Lost;
      var previous := pendingImport;
      if previous.Some? && previous.value.id != id {
        done := Discard(previous.value.id);
        if !done {
          return;
        }
      }
      pendingImport := Some(Pending(source, id));
      if smooth {
        assert Calm(|wire|) && (id in jobs ==> Holds(jobs[id], source));
        CreateGoesWell(jobs, wire + [Create(id, Size(source), NameOf(source))], |wire|, id, source);
      }
      hide Exchanged, Calm, OnlyGoodEnds, Ready, Acceptable;
      ghost var tries;
      reply, tries := Retry(Create(id, Size(source), NameOf(source)));
    }

    /** The part of an import inside its `try`. `patience` is how often the page polls before
        it is closed. */
    method TryImport(source: Source, id: nat, patience: nat) returns (r: Outcome, ghost shown: Option<View>)
      requires Valid() && id in sources && sources[id] == source && !Started(wire, id)
      modifies this`pendingImport, this`jobs, this`wire, this`whole, this`forgotten
      ensures Valid()
      ensures Started(wire, id) <==> r.Restored? || r.started
      ensures Tells(r, shown)
      ensures r.Restored? ==> HasRestored(id)
      ensures Smooth(id, patience) && old(Ready(source, id)) ==> r.Restored?
      ensures Started(wire, id) ==> pendingImport.None?
      ensures pendingImport.None? || pendingImport == old(pendingImport) || pendingImport == Some(Pending(source, id))
    {
      shown := None;
      hide Exchanged, Calm, OnlyGoodEnds, Ready, Acceptable;
      var done, reply := Open(source, id);
      if !done {
        return Threw(false, false), shown;
      }
      if !reply.Answer? || reply.view.chunkBytes == 0 {
        return Threw(false, false), shown;
      }
      var job := reply.view;
      if !job.phase.Uploading? {
        pendingImport := None;
        return Threw(false, false), shown;
      }
      if source.FromFile? {
        var good;
        ghost var last, size;
        job, good, last, size := Upload(id, source.content, job);
        if !good {
          return Threw(false, false), shown;
        }
      }
      if job.uploaded != Size(source) {
        return Threw(false, false), shown;
      }
      r, shown := StartAndWatch(id, patience);
    }

    /** The outcome tells what the last answer after the start showed, if there was one: a result
        exactly if it showed a completed restore, a known failure exactly if it showed a failed one. */
    ghost predicate Tells(r: Outcome, shown: Option<View>) {
      && (r.Restored? <==> shown.Some? && shown.value.phase.Completed?)
      && (r == Threw(true, true) <==> shown.Some? && shown.value.phase.Failed?)
    }

    /** The server would take the source, and has no job under way but an upload that this import
        goes on with or gives up. */
    ghost predicate Ready(source: Source, id: nat)
      reads this
    {
      && Acceptable(source)
      && (forall other :: other in jobs && Busy(jobs[other]) ==> pendingImport.Some? && other == pendingImport.value.id)
      && (pendingImport.Some? && pendingImport.value.id in jobs ==> jobs[pendingImport.value.id].phase.Uploading?)
      && (id in jobs ==> pendingImport.Some? && pendingImport.value.id == id)
    }

    /** Past the point of no return: the id is given up before the start is sent. */
    method StartAndWatch(id: nat, patience: nat) returns (r: Outcome, ghost shown: Option<View>)
      requires Valid() && id in sources && id in whole
      modifies this`pendingImport, this`jobs, this`wire, this`whole, this`forgotten
      ensures Valid() && pendingImport.None? && Started(wire, id)
      ensures r.Threw? ==> r.started
      ensures Tells(r, shown)
      ensures r.Restored? ==> HasRestored(id)
      ensures Smooth(id, patience) && old(exists total :: Receives(jobs, id, total, total)) ==> r.Restored?
    {
      pendingImport, shown := None, None;
      ghost var smooth := Smooth(id, patience) && exists total :: Receives(jobs, id, total, total);
      if smooth {
        var total :| Receives(jobs, id, total, total);
        assert Calm(|wire|);
        StartGoesWell(jobs, wire + [Start(id)], |wire|, id, total);
      }
      hide Exchanged, Calm, OnlyGoodEnds;
      var reply := Send(Start(id));
      if !reply.Answer? {
        if !Transient(reply) {
          return Threw(true, false), shown;
        }
        ghost var tries;
        reply, tries := Retry(Status(id));
        if reply.Answer? && reply.view.phase.Uploading? {
          reply, tries := Retry(Start(id));
        }
        if !reply.Answer? {
          return Threw(true, false), shown;
        }
      }
      shown := Some(reply.view);
      r, shown := Watch(id, patience, reply.view, smooth);
    }

    /** Polls until the restore has ended, or the patience has. */
    method Watch(id: nat, patience: nat, first: View, ghost smooth: bool) returns (r: Outcome, ghost shown: Option<View>)
      requires Valid() && pendingImport.None? && id in sources && id in whole && Started(wire, id)
      requires id in jobs && first == ViewOf(jobs[id])
      requires smooth ==> Smooth(id, patience) && first.phase.Restoring? && Restores(jobs, id, false)
      modifies this`jobs, this`wire, this`whole, this`forgotten
      ensures Valid() && pendingImport.None? && Started(wire, id)
      ensures r.Threw? ==> r.started
      ensures Tells(r, shown)
      ensures r.Restored? ==> HasRestored(id)
      ensures smooth ==> r.Restored?
    {
      hide Exchanged, Calm, OnlyGoodEnds;
      var job, polls := first, 0;
      shown := Some(job);
      ghost var begin := |wire|;
      while job.phase.Restoring? && polls < patience
        invariant Valid() && pendingImport.None? && id in sources && id in whole && Started(wire, id)
        invariant job.phase.Completed? ==> HasRestored(id)
        invariant shown == Some(job) && |wire| == begin + polls && polls <= patience
        invariant smooth ==> StillRestoring(id, job.phase, begin)
        decreases patience - polls
      {
        var reply := Poll(id, smooth, job.phase, begin);
        polls := polls + 1;
        if reply.Answer? {
          job := reply.view;
          shown := Some(job);
        } else if !Transient(reply) {
          return Threw(true, false), shown;
        }
      }
      assert smooth ==> EndsSoon(begin, patience, id);
      r := if job.phase.Completed? then Restored else Threw(true, job.phase.Failed?);
    }

    /** What polling has shown while nothing goes wrong: the restore has been completed, or has not
        ended since it began. */
    ghost predicate StillRestoring(id: nat, phase: Phase, begin: nat)
      reads this
    {
      phase.Completed? || (phase.Restoring? && Restores(jobs, id, false) && forall m: nat :: begin <= m < |wire| ==> !EndsAt(m, id))
    }

    method Poll(id: nat, ghost smooth: bool, ghost phase: Phase, ghost begin: nat) returns (reply: Reply)
      requires Valid() && id in sources && id in whole && phase.Restoring?
      requires smooth ==> AllCalm() && StillRestoring(id, phase, begin)
      modifies this`jobs, this`wire, this`whole, this`forgotten
      ensures Valid() && wire == old(wire) + [Status(id)] && whole >= old(whole)
      ensures reply.Answer? ==> id in jobs && reply.view == ViewOf(jobs[id])
      ensures smooth ==> reply.Answer? && StillRestoring(id, reply.view.phase, begin)
      ensures forall other :: Started(wire, other) <==> old(Started(wire, other))
    {
      if smooth {
        assert Calm(|wire|);
        StatusGoesWell(jobs, wire + [Status(id)], |wire|, id);
      }
      hide Exchanged, Calm, OnlyGoodEnds, Valid;
      reply := Send(Status(id));
    }

    /** The id of an import: the one of an unfinished upload of the same source, or a fresh one. */
    function Own(source: Source): nat
      reads this
    {
      if pendingImport.Some? && pendingImport.value.source == source then pendingImport.value.id else nextId
    }

    /** A whole import. */
    method Import(source: Source, patience: nat) returns (r: Outcome, ghost id: nat, ghost shown: Option<View>)
      requires Valid()
      modifies this`pendingImport, this`nextId, this`sources, this`jobs, this`wire, this`whole, this`forgotten
      ensures Valid() && id in sources && sources[id] == source
      ensures id == old(Own(source))
      ensures Started(wire, id) <==> r.Restored? || r.started
      ensures Tells(r, shown)
      ensures r.Restored? ==> HasRestored(id)
      ensures Smooth(id, patience) && old(Ready(source, Own(source))) ==> r.Restored?
      ensures Started(wire, id) ==> pendingImport.None?
      ensures forall other :: other in old(sources) ==> other in sources && sources[other] == old(sources)[other]
    {
      var own;
      if pendingImport.Some? && pendingImport.value.source == source {
        own := pendingImport.value.id;
      } else {
        own := nextId;
        NeverStarted(wire, sources, own);
        sources := sources[own := source];
        nextId := nextId + 1;
      }
      id := own;
      r, shown := TryImport(source, own, patience);
      if r.Threw? && !r.started {
        var done := Discard(own);
        if done && pendingImport.Some? && pendingImport.value.id == own {
          pendingImport := None;
        }
      }
    }
  }

  /** Any number of imports, one after the other, against any network. */
  method Session(net: nat -> Fate, archives: map<string, Bytes>, imports: seq<(Source, nat)>) returns (page: Page, outcomes: seq<Outcome>)
    ensures fresh(page) && page.Safe() && |outcomes| == |imports|
  {
    page := new Page(net, archives);
    outcomes := [];
    for k := 0 to |imports|
      invariant fresh(page) && page.Valid() && |outcomes| == k
    {
      var outcome, _, _ := page.Import(imports[k].0, imports[k].1);
      outcomes := outcomes + [outcome];
    }
    page.ValidIsSafe();
  }

  /** An import on a fresh page while nothing goes wrong, with a restore that ends at the next poll. */
  method UndisturbedImport(archives: map<string, Bytes>, source: Source, patience: nat) returns (r: Outcome)
    requires patience > 0 && Size(source) > 0
    requires source.FromArchive? ==> source.name in archives && |archives[source.name]| == source.bytes
    ensures r.Restored?
  {
    var page := new Page(_ => Fate([Ended(0, true)], true, None), archives);
    page.SoonWithout(0, patience);
    ghost var id, shown;
    r, id, shown := page.Import(source, patience);
  }

  function Copies(r: Request, n: nat): seq<Request> {
    seq(n, _ => r)
  }

  lemma OneMoreCopy(wire: seq<Request>, r: Request, n: nat)
    ensures wire + Copies(r, n) + [r] == wire + Copies(r, n + 1)
  {}

  function Min(a: nat, b: nat): nat {
    if a < b then a else b
  }

  function Max(a: nat, b: nat): nat {
    if a < b then b else a
  }

  lemma NeverStarted(wire: seq<Request>, sources: Sources, id: nat)
    requires AllAbout(wire, sources) && id !in sources
    ensures !Started(wire, id)
  {}

  lemma OneMoreSent(wire: seq<Request>, r: Request)
    requires StartsAreLast(wire) && (r.Start? || r.Status? || !Started(wire, r.id))
    ensures StartsAreLast(wire + [r])
    ensures forall id :: Started(wire + [r], id) <==> Started(wire, id) || r == Start(id)
  {
    var after := wire + [r];
    assert after[|wire|] == r;
    forall id
      ensures Started(after, id) <==> Started(wire, id) || r == Start(id)
    {
      if Started(wire, id) {
        var i :| 0 <= i < |wire| && wire[i] == Start(id);
        assert after[i] == Start(id);
      }
    }
  }
}
