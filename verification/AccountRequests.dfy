/** Account isolation in the API client: an epoch that identity changes bump, requests
    that check it after every await, and one shared token refresh at a time. A step is
    what runs between two awaits of one request; any interleaving of requests, replies,
    refreshes and identity changes is a run. */
module AccountRequests {
  import opened Prelude

  type CallId = nat
  type PromiseId = nat

  /** `api`, `apiUpload`, `streamSSE`, `streamSSEGet`. */
  datatype Kind = Api | Upload | PostStream | GetStream

  datatype Phase =
    | AwaitHeaders
    | AwaitReply
    | AwaitRefresh(promise: PromiseId)
    | AwaitBody(ok: bool)
    | Reading
    | Yielding(left: nat, last: bool)
    | Backoff
    | Over

  /** `epoch` is what the running activation captured, `began` what the caller's first
      activation did; `bound` is false for anonymous and /auth/ requests. */
  datatype Call = Call(kind: Kind, bound: bool, began: nat, epoch: nat, retried: bool, sent: nat, phase: Phase)

  datatype Delivery = Delivery(call: CallId, began: nat, at: nat, bound: bool)

  /** `running` are refresh handlers that have been called and have not settled;
      `results` the settled ones. */
  datatype World = World(
    epoch: nat,
    refreshInFlight: Option<PromiseId>,
    suppressed: bool,
    promises: nat,
    running: set<PromiseId>,
    results: map<PromiseId, bool>,
    calls: map<CallId, Call>,
    delivered: seq<Delivery>)

  const START := World(0, None, false, 0, {}, map[], map[], [])

  /** `assertAccountRequestCurrent` lets the activation go on. */
  predicate Current(w: World, c: Call) {
    c.bound ==> c.epoch == w.epoch
  }

  function Put(w: World, id: CallId, c: Call): World {
    w.(calls := w.calls[id := c])
  }

  function Deliver(w: World, id: CallId, c: Call): World {
    w.(delivered := w.delivered + [Delivery(id, c.began, w.epoch, c.bound)])
  }

  /** After a check that fails the request throws AbortError. */
  function Checked(w: World, id: CallId, c: Call, next: World): World {
    if Current(w, c) then next else Put(w, id, c.(phase := Over))
  }

  // ------------------------------------------------------------------- the steps

  /** `invalidateAccountRequests`. */
  predicate Invalidate(w: World, w': World) {
    w' == w.(epoch := w.epoch + 1)
  }

  predicate AuthLost(w: World, on: bool, w': World) {
    w' == w.(suppressed := on)
  }

  /** Streams are always account bound; `bound` tells the other two apart. */
  predicate Begin(w: World, id: CallId, kind: Kind, bound: bool, w': World) {
    && id !in w.calls && (kind.PostStream? || kind.GetStream? || kind.Upload? ==> bound)
    && w' == Put(w, id, Call(kind, bound, w.epoch, w.epoch, false, 0, AwaitHeaders))
  }

  predicate HeadersReady(w: World, id: CallId, w': World) {
    && id in w.calls && w.calls[id].phase.AwaitHeaders?
    && var c := w.calls[id];
       w' == Checked(w, id, c, Put(w, id, c.(phase := AwaitReply, sent := c.sent + 1)))
  }

  /** `tryRefresh`: share the refresh in flight, or start one; a suppressed one is a
      promise already resolved to false. `authPath` requests never get here. */
  function TryRefresh(w: World): (World, PromiseId) {
    if w.suppressed then (w.(promises := w.promises + 1, results := w.results[w.promises := false]), w.promises)
    else if w.refreshInFlight.Some? then (w, w.refreshInFlight.value)
    else (w.(promises := w.promises + 1, running := w.running + {w.promises}, refreshInFlight := Some(w.promises)), w.promises)
  }

  /** The reply's status is in. A 401 of a first attempt asks for a refresh; what else
      happens depends on the kind of request. */
  predicate ReplyArrives(w: World, id: CallId, unauthorized: bool, ok: bool, w': World) {
    && id in w.calls && w.calls[id].phase.AwaitReply? && (unauthorized ==> !ok)
    && var c := w.calls[id];
       w' == Checked(w, id, c,
         if unauthorized && !c.retried && c.bound then
           var (v, p) := TryRefresh(w); Put(v, id, c.(phase := AwaitRefresh(p)))
         else if c.kind.Upload? then
           (if ok then Put(Deliver(w, id, c), id, c.(phase := Over)) else Put(w, id, c.(phase := Over)))
         else if (c.kind.PostStream? || c.kind.GetStream?) && ok then Put(w, id, c.(phase := Reading))
         else Put(w, id, c.(phase := AwaitBody(ok))))
  }

  /** The refresh handler settles, and its `finally` clears the slot. */
  predicate RefreshSettles(w: World, p: PromiseId, ok: bool, w': World) {
    && p in w.running
    && w' == w.(running := w.running - {p}, results := w.results[p := ok],
                refreshInFlight := if w.refreshInFlight == Some(p) then None else w.refreshInFlight)
  }

  /** A waiter resumes. `apiRequest` and `apiUploadRequest` call themselves, capturing
      the epoch anew; the streams open again under the one they have. */
  predicate RefreshAwaited(w: World, id: CallId, w': World) {
    && id in w.calls && w.calls[id].phase.AwaitRefresh? && w.calls[id].phase.promise in w.results
    && var c := w.calls[id];
       w' == Checked(w, id, c,
         if w.results[c.phase.promise] then
           Put(w, id, c.(retried := true, phase := AwaitHeaders, epoch := if c.kind.Api? || c.kind.Upload? then w.epoch else c.epoch))
         else if c.kind.Upload? then Put(w, id, c.(phase := Over))
         else Put(w, id, c.(phase := AwaitBody(false))))
  }

  predicate BodyArrives(w: World, id: CallId, w': World) {
    && id in w.calls && w.calls[id].phase.AwaitBody?
    && var c := w.calls[id];
       w' == Checked(w, id, c,
         if c.phase.ok then Put(Deliver(w, id, c), id, c.(phase := Over)) else Put(w, id, c.(phase := Over)))
  }

  /** A chunk arrives and completes `n` frames, or the body ends. */
  predicate ChunkArrives(w: World, id: CallId, n: nat, last: bool, w': World) {
    && id in w.calls && w.calls[id].phase.Reading?
    && var c := w.calls[id];
       w' == Checked(w, id, c, Put(w, id, c.(phase := Yielding(n, last))))
  }

  /** The consumer asks for more; every frame is checked right before it is yielded. */
  predicate YieldNext(w: World, id: CallId, w': World) {
    && id in w.calls && w.calls[id].phase.Yielding?
    && var c := w.calls[id];
       if c.phase.left == 0 then w' == Put(w, id, c.(phase := if c.phase.last then Over else Reading))
       else w' == Checked(w, id, c, Put(Deliver(w, id, c), id, c.(phase := Yielding(c.phase.left - 1, c.phase.last))))
  }

  /** A read fails: a GET stream checks, backs off and opens again, a POST stream throws. What has
      been read is yielded before the next read. */
  predicate Drops(w: World, id: CallId, w': World) {
    && id in w.calls && w.calls[id].phase.Reading?
    && var c := w.calls[id];
       w' == Checked(w, id, c, Put(w, id, c.(phase := if c.kind.GetStream? then Backoff else Over)))
  }

  predicate Reconnects(w: World, id: CallId, w': World) {
    && id in w.calls && w.calls[id].phase.Backoff?
    && var c := w.calls[id];
       w' == Checked(w, id, c, Put(w, id, c.(retried := false, phase := AwaitHeaders)))
  }

  ghost predicate RequestStep(w: World, id: CallId, w': World) {
    || (exists kind, bound :: Begin(w, id, kind, bound, w'))
    || HeadersReady(w, id, w')
    || (exists unauthorized, ok :: ReplyArrives(w, id, unauthorized, ok, w'))
    || RefreshAwaited(w, id, w') || BodyArrives(w, id, w')
    || (exists n, last :: ChunkArrives(w, id, n, last, w'))
    || YieldNext(w, id, w') || Drops(w, id, w') || Reconnects(w, id, w')
  }

  ghost predicate Step(w: World, w': World) {
    || Invalidate(w, w')
    || (exists on :: AuthLost(w, on, w'))
    || (exists p, ok :: RefreshSettles(w, p, ok, w'))
    || (exists id :: RequestStep(w, id, w'))
  }

  ghost predicate StepAt(ws: seq<World>, i: nat)
    requires i + 1 < |ws|
  {
    Step(ws[i], ws[i + 1])
  }

  ghost predicate Run(ws: seq<World>) {
    |ws| > 0 && ws[0] == START && forall i: nat :: i < |ws| - 1 ==> StepAt(ws, i)
  }

  // ------------------------------------------------------------------- invariant

  /** Recapturing the epoch never moves a request to another account, and at most one
      retry is sent. */
  predicate CallFine(w: World, c: Call) {
    && c.epoch == c.began <= w.epoch
    && (c.kind.GetStream? || c.sent == (if c.retried then 1 else 0) + (if c.phase.AwaitHeaders? then 0 else 1) || (c.phase.Over? && c.sent <= if c.retried then 2 else 1))
    && (c.phase.Backoff? ==> c.kind.GetStream?) && (c.retried ==> c.bound)
    && (c.phase.AwaitRefresh? ==> !c.retried && c.bound && (c.phase.promise in w.results || w.refreshInFlight == Some(c.phase.promise)))
  }

  /** One refresh at most; every promise handed out is settled or in flight. */
  predicate RefreshFine(w: World) {
    && w.running == (if w.refreshInFlight.Some? then {w.refreshInFlight.value} else {})
    && (forall p <- w.running :: p < w.promises && p !in w.results)
    && (forall p <- w.results :: p < w.promises)
  }

  predicate DeliveryFine(d: Delivery) {
    d.bound ==> d.at == d.began
  }

  predicate Inv(w: World) {
    && RefreshFine(w)
    && (forall id <- w.calls :: CallFine(w, w.calls[id]))
    && (forall d <- w.delivered :: DeliveryFine(d))
  }

  lemma PutKeeps(w: World, id: CallId, c: Call)
    requires Inv(w) && CallFine(w, c)
    ensures Inv(Put(w, id, c))
  {}

  lemma DeliverKeeps(w: World, id: CallId, c: Call)
    requires Inv(w) && CallFine(w, c) && Current(w, c)
    ensures Inv(Deliver(w, id, c))
  {}

  lemma TryRefreshKeeps(w: World)
    requires Inv(w)
    ensures var (v, p) := TryRefresh(w);
            Inv(v) && v.epoch == w.epoch && (p in v.results || v.refreshInFlight == Some(p))
  {}

  lemma ReplyKeeps(w: World, id: CallId, unauthorized: bool, ok: bool, w': World)
    requires Inv(w) && ReplyArrives(w, id, unauthorized, ok, w')
    ensures Inv(w')
  {
    var c := w.calls[id];
    TryRefreshKeeps(w);
    var (v, p) := TryRefresh(w);
    if Current(w, c) {
      if unauthorized && !c.retried && c.bound {
        PutKeeps(v, id, c.(phase := AwaitRefresh(p)));
      } else if c.kind.Upload? && ok {
        DeliverKeeps(w, id, c);
        PutKeeps(Deliver(w, id, c), id, c.(phase := Over));
      } else {
        PutKeeps(w, id, w'.calls[id]);
      }
    } else {
      PutKeeps(w, id, c.(phase := Over));
    }
  }

  lemma SettleKeeps(w: World, p: PromiseId, ok: bool, w': World)
    requires Inv(w) && RefreshSettles(w, p, ok, w')
    ensures Inv(w')
  {}

  lemma DeliveringKeeps(w: World, id: CallId, w': World)
    requires Inv(w) && (BodyArrives(w, id, w') || YieldNext(w, id, w'))
    ensures Inv(w')
  {
    var c := w.calls[id];
    assert CallFine(w, c) && CallFine(w, w'.calls[id]);
    hide Inv, CallFine;
    if w'.delivered != w.delivered {
      DeliverKeeps(w, id, c);
      PutKeeps(Deliver(w, id, c), id, w'.calls[id]);
    } else {
      PutKeeps(w, id, w'.calls[id]);
    }
  }

  lemma QuietKeeps(w: World, id: CallId, w': World)
    requires Inv(w)
    requires HeadersReady(w, id, w') || RefreshAwaited(w, id, w') || Drops(w, id, w') || Reconnects(w, id, w')
    ensures Inv(w')
  {
    PutKeeps(w, id, w'.calls[id]);
  }

  /** What one step does to the records: the epoch only grows, a request keeps its
      beginning, and what is newly delivered belongs to the request that moved. */
  ghost predicate Orderly(w: World, w': World) {
    && w.epoch <= w'.epoch
    && (forall id <- w.calls :: id in w'.calls && w'.calls[id].began == w.calls[id].began && w'.calls[id].bound == w.calls[id].bound)
    && w.delivered <= w'.delivered
    && (forall k :: |w.delivered| <= k < |w'.delivered| ==>
          var d := w'.delivered[k];
          d.call in w.calls && d == Delivery(d.call, w.calls[d.call].began, w.epoch, w.calls[d.call].bound))
  }

  lemma RequestStepKeeps(w: World, id: CallId, w': World)
    requires Inv(w) && RequestStep(w, id, w')
    ensures Inv(w')
  {
    if unauthorized, ok :| ReplyArrives(w, id, unauthorized, ok, w') { ReplyKeeps(w, id, unauthorized, ok, w'); }
    else if BodyArrives(w, id, w') || YieldNext(w, id, w') { DeliveringKeeps(w, id, w'); }
    else if HeadersReady(w, id, w') || RefreshAwaited(w, id, w') || Drops(w, id, w') || Reconnects(w, id, w') { QuietKeeps(w, id, w'); }
    else if n, last :| ChunkArrives(w, id, n, last, w') { PutKeeps(w, id, w'.calls[id]); }
    else if kind, bound :| Begin(w, id, kind, bound, w') { PutKeeps(w, id, w'.calls[id]); }
  }

  lemma PutOrderly(w: World, v: World, id: CallId, c: Call)
    requires v.calls == w.calls && v.epoch == w.epoch
    requires id in w.calls ==> c.began == w.calls[id].began && c.bound == w.calls[id].bound
    requires v.delivered == w.delivered || (id in w.calls && v.delivered == Deliver(w, id, w.calls[id]).delivered)
    ensures Orderly(w, Put(v, id, c))
  {}

  lemma QuietOrderly(w: World, id: CallId, w': World)
    requires HeadersReady(w, id, w') || RefreshAwaited(w, id, w') || Drops(w, id, w') || Reconnects(w, id, w')
    ensures Orderly(w, w')
  {
    PutOrderly(w, w, id, w'.calls[id]);
  }

  lemma DeliveringOrderly(w: World, id: CallId, w': World)
    requires BodyArrives(w, id, w') || YieldNext(w, id, w')
    ensures Orderly(w, w')
  {
    PutOrderly(w, w'.(calls := w.calls), id, w'.calls[id]);
  }

  lemma ReplyOrderly(w: World, id: CallId, unauthorized: bool, ok: bool, w': World)
    requires ReplyArrives(w, id, unauthorized, ok, w')
    ensures Orderly(w, w')
  {
    PutOrderly(w, w'.(calls := w.calls), id, w'.calls[id]);
  }

  lemma RequestStepOrderly(w: World, id: CallId, w': World)
    requires RequestStep(w, id, w')
    ensures Orderly(w, w')
  {
    if unauthorized, ok :| ReplyArrives(w, id, unauthorized, ok, w') { ReplyOrderly(w, id, unauthorized, ok, w'); }
    else if BodyArrives(w, id, w') || YieldNext(w, id, w') { DeliveringOrderly(w, id, w'); }
    else if HeadersReady(w, id, w') || RefreshAwaited(w, id, w') || Drops(w, id, w') || Reconnects(w, id, w') { QuietOrderly(w, id, w'); }
    else { PutOrderly(w, w, id, w'.calls[id]); }
  }

  lemma StepKeeps(w: World, w': World)
    requires Inv(w) && Step(w, w')
    ensures Inv(w') && Orderly(w, w')
  {
    if p, ok :| RefreshSettles(w, p, ok, w') { SettleKeeps(w, p, ok, w'); }
    else if id :| RequestStep(w, id, w') { RequestStepKeeps(w, id, w'); RequestStepOrderly(w, id, w'); }
  }

  lemma {:induction false} RunKeeps(ws: seq<World>, n: nat)
    requires Run(ws) && n < |ws|
    ensures Inv(ws[n])
  {
    if n > 0 {
      RunKeeps(ws, n - 1);
      assert StepAt(ws, n - 1);
      StepKeeps(ws[n - 1], ws[n]);
    }
  }

  lemma RunStep(ws: seq<World>, n: nat)
    requires Run(ws) && n + 1 < |ws|
    ensures Inv(ws[n]) && Inv(ws[n + 1]) && Orderly(ws[n], ws[n + 1])
  {
    RunKeeps(ws, n);
    assert StepAt(ws, n);
    StepKeeps(ws[n], ws[n + 1]);
  }

  ghost predicate SameBeginning(w: World, w': World, id: CallId) {
    && w.epoch <= w'.epoch && id in w.calls && id in w'.calls
    && w'.calls[id].began == w.calls[id].began && w'.calls[id].bound == w.calls[id].bound
  }

  lemma {:induction false} BeginningKept(ws: seq<World>, m: nat, n: nat, id: CallId)
    requires Run(ws) && m <= n < |ws| && id in ws[m].calls
    ensures SameBeginning(ws[m], ws[n], id)
  {
    if m < n {
      BeginningKept(ws, m, n - 1, id);
      RunStep(ws, n - 1);
    }
  }

  // -------------------------------------------------------------------- the promises

  /** Between these two states the request handed something to its caller. */
  ghost predicate DeliversTo(w: World, w': World, id: CallId) {
    exists i :: |w.delivered| <= i < |w'.delivered| && w'.delivered[i].call == id
  }

  lemma StaleDeliversNothing(w: World, w': World, id: CallId)
    requires Inv(w') && Orderly(w, w') && id in w.calls && w.calls[id].bound && w.calls[id].began < w.epoch
    ensures !DeliversTo(w, w', id)
  {
    forall i | |w.delivered| <= i < |w'.delivered| ensures w'.delivered[i].call != id {
      assert DeliveryFine(w'.delivered[i]);
    }
  }

  /** An account-bound request that was under way when the identity changed never again
      hands a value or a frame to its caller. */
  lemma NothingAfterIdentityChange(ws: seq<World>, m: nat, k: nat, n: nat, id: CallId)
    requires Run(ws) && m <= k < n && n + 1 < |ws|
    requires id in ws[m].calls && ws[m].calls[id].bound && Invalidate(ws[k], ws[k + 1])
    ensures !DeliversTo(ws[n], ws[n + 1], id)
  {
    BeginningKept(ws, m, k, id);
    BeginningKept(ws, k + 1, n, id);
    RunStep(ws, n);
    assert ws[m].calls[id].began <= ws[m].epoch by {
      RunKeeps(ws, m);
      assert CallFine(ws[m], ws[m].calls[id]);
    }
    StaleDeliversNothing(ws[n], ws[n + 1], id);
  }

  /** A request goes out at most twice, except for the resuming GET stream; one that is not bound
      to the account only once. */
  lemma SentAtMostTwice(ws: seq<World>, n: nat, id: CallId)
    requires Run(ws) && n < |ws| && id in ws[n].calls && !ws[n].calls[id].kind.GetStream?
    ensures ws[n].calls[id].sent <= if ws[n].calls[id].bound then 2 else 1
  {
    RunKeeps(ws, n);
    assert CallFine(ws[n], ws[n].calls[id]);
  }

  /** However many requests fail at once, one refresh handler runs at a time, and nobody
      waits for a promise that will not settle. */
  lemma SingleFlight(ws: seq<World>, n: nat)
    requires Run(ws) && n < |ws|
    ensures |ws[n].running| <= 1
    ensures forall id <- ws[n].calls :: ws[n].calls[id].phase.AwaitRefresh? ==>
              ws[n].calls[id].phase.promise in ws[n].results || ws[n].calls[id].phase.promise in ws[n].running
  {
    RunKeeps(ws, n);
    forall id <- ws[n].calls | ws[n].calls[id].phase.AwaitRefresh?
      ensures ws[n].calls[id].phase.promise in ws[n].results || ws[n].calls[id].phase.promise in ws[n].running
    {
      assert CallFine(ws[n], ws[n].calls[id]);
    }
  }
}
