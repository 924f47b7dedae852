/** What a request comes to: when it is sent again, and what its caller gets in the end. */
module AccountRetry {
  import opened Prelude
  import opened AccountRequests

  /** Nobody has sent this request before, or, for a resuming stream, not since it reconnected. */
  predicate FirstAttempt(c: Call) {
    if c.kind.GetStream? then !c.retried else c.sent == 1
  }

  /** The promise a request that now asks for a refresh gets: the one in flight, or a new one. */
  function Asked(w: World): PromiseId {
    if !w.suppressed && w.refreshInFlight.Some? then w.refreshInFlight.value else w.promises
  }

  /** In state w the refresh has settled, and well. */
  predicate Refreshed(w: World, p: PromiseId) {
    p in w.results && w.results[p]
  }

  predicate StillCurrent(w: World, id: CallId) {
    id in w.calls && (w.calls[id].bound ==> w.calls[id].began == w.epoch)
  }

  // ---------------------------------------------------------------------------------------
  // A first attempt that got a 401

  /** Where a request that waited for promise `p`, having been sent `s` times, can be now. */
  ghost predicate Waited(w: World, id: CallId, p: PromiseId, s: nat) {
    && id in w.calls
    && var c := w.calls[id];
       || (c.phase == AwaitRefresh(p) && c.sent == s)
       || (p in w.results && !w.results[p] && c.sent == s && (c.phase == AwaitBody(false) || c.phase.Over?))
       || (Refreshed(w, p) && c.sent == s && c.phase.AwaitHeaders?)
       || (Refreshed(w, p) && c.sent > s)
  }

  /** The call has not moved, and what its refresh came to stays. */
  lemma ElsewhereWaited(w: World, w': World, id: CallId, p: PromiseId, s: nat)
    requires Waited(w, id, p, s) && id in w'.calls && w'.calls[id] == w.calls[id]
    requires p in w.results ==> p in w'.results && w'.results[p] == w.results[p]
    ensures Waited(w', id, p, s)
  {}

  /** What a step of request `id` leaves alone: the other requests, the results there are, and
      the request itself once it is over; and nothing is unsent. */
  ghost predicate Moved(w: World, id: CallId, w': World) {
    && w.promises <= w'.promises && id in w'.calls && w'.calls.Keys == w.calls.Keys + {id}
    && (forall p <- w.results :: p < w.promises ==> p in w'.results && w'.results[p] == w.results[p])
    && (forall other <- w.calls :: other != id ==> other in w'.calls && w'.calls[other] == w.calls[other])
    && (id in w.calls ==> !w.calls[id].phase.Over? && w'.calls[id].sent >= w.calls[id].sent && w'.calls[id].kind == w.calls[id].kind)
    && (w'.delivered == w.delivered || (id in w.calls && w'.delivered == Deliver(w, id, w.calls[id]).delivered))
  }

  lemma ReplyMoved(w: World, id: CallId, unauthorized: bool, ok: bool, w': World)
    requires ReplyArrives(w, id, unauthorized, ok, w')
    ensures Moved(w, id, w')
  {}

  lemma DeliveringMoved(w: World, id: CallId, w': World)
    requires BodyArrives(w, id, w') || YieldNext(w, id, w')
    ensures Moved(w, id, w')
  {}

  lemma QuietMoved(w: World, id: CallId, w': World)
    requires HeadersReady(w, id, w') || RefreshAwaited(w, id, w') || Drops(w, id, w') || Reconnects(w, id, w')
    ensures Moved(w, id, w')
  {}

  lemma RequestMoved(w: World, id: CallId, w': World)
    requires RequestStep(w, id, w')
    ensures Moved(w, id, w')
  {
    hide Moved, ReplyArrives, BodyArrives, YieldNext, HeadersReady, RefreshAwaited, Drops, Reconnects, ChunkArrives, Begin;
    if unauthorized, ok :| ReplyArrives(w, id, unauthorized, ok, w') { ReplyMoved(w, id, unauthorized, ok, w'); }
    else if BodyArrives(w, id, w') || YieldNext(w, id, w') { DeliveringMoved(w, id, w'); }
    else if HeadersReady(w, id, w') || RefreshAwaited(w, id, w') || Drops(w, id, w') || Reconnects(w, id, w') { QuietMoved(w, id, w'); }
    else if n, last :| ChunkArrives(w, id, n, last, w') { ChunkMoved(w, id, n, last, w'); }
    else if kind, bound :| Begin(w, id, kind, bound, w') { BeginMoved(w, id, kind, bound, w'); }
  }

  lemma ChunkMoved(w: World, id: CallId, n: nat, last: bool, w': World)
    requires ChunkArrives(w, id, n, last, w')
    ensures Moved(w, id, w')
  {}

  lemma BeginMoved(w: World, id: CallId, kind: Kind, bound: bool, w': World)
    requires Begin(w, id, kind, bound, w')
    ensures Moved(w, id, w')
  {}

  /** Which step a request in these phases takes. */
  lemma OnlyStep(w: World, id: CallId, w': World)
    requires id in w.calls && RequestStep(w, id, w')
    ensures w.calls[id].phase.AwaitRefresh? ==> RefreshAwaited(w, id, w')
    ensures w.calls[id].phase.AwaitHeaders? ==> HeadersReady(w, id, w')
    ensures w.calls[id].phase.AwaitBody? ==> BodyArrives(w, id, w')
  {}

  /** The call moves: only a good refresh gets it sent again. */
  lemma OwnStepWaited(w: World, id: CallId, w': World, p: PromiseId, s: nat)
    requires Waited(w, id, p, s) && RequestStep(w, id, w') && StillCurrent(w, id) && CallFine(w, w.calls[id]) && p < w.promises
    ensures Waited(w', id, p, s)
  {
    RequestMoved(w, id, w');
    OnlyStep(w, id, w');
    hide RequestStep;
    assert Current(w, w.calls[id]);
  }

  lemma StepWaited(w: World, w': World, id: CallId, p: PromiseId, s: nat)
    requires Inv(w) && Waited(w, id, p, s) && Step(w, w') && StillCurrent(w, id) && p < w.promises
    ensures Waited(w', id, p, s) && p < w'.promises
  {
    assert CallFine(w, w.calls[id]);
    hide Waited, RequestStep, CallFine;
    if other :| RequestStep(w, other, w') {
      RequestMoved(w, other, w');
      if other == id {
        OwnStepWaited(w, id, w', p, s);
      } else {
        ElsewhereWaited(w, w', id, p, s);
      }
    } else if q, ok :| RefreshSettles(w, q, ok, w') {
      assert q in w.running && q !in w.results;
      ElsewhereWaited(w, w', id, p, s);
    } else {
      ElsewhereWaited(w, w', id, p, s);
    }
  }

  lemma CurrentBefore(ws: seq<World>, m: nat, n: nat, id: CallId)
    requires Run(ws) && m <= n < |ws| && id in ws[m].calls && StillCurrent(ws[n], id)
    ensures StillCurrent(ws[m], id)
  {
    BeginningKept(ws, m, n, id);
    RunKeeps(ws, m);
    assert CallFine(ws[m], ws[m].calls[id]);
  }

  /** The reply is in, the request was current, and asks for a refresh. */
  lemma AsksForRefresh(ws: seq<World>, i: nat, id: CallId)
    requires Run(ws) && i + 1 < |ws| && ReplyArrives(ws[i], id, true, false, ws[i + 1])
    requires ws[i].calls[id].bound && FirstAttempt(ws[i].calls[id]) && StillCurrent(ws[i], id)
    ensures Waited(ws[i + 1], id, Asked(ws[i]), ws[i].calls[id].sent) && Asked(ws[i]) < ws[i + 1].promises
    ensures ws[i].suppressed ==> Asked(ws[i]) in ws[i + 1].results && !ws[i + 1].results[Asked(ws[i])]
  {
    RunKeeps(ws, i);
    assert CallFine(ws[i], ws[i].calls[id]);
    RunKeeps(ws, i + 1);
  }

  /** What is known of the request at step n of the run. */
  ghost predicate WaitedAt(ws: seq<World>, i: nat, n: nat, id: CallId)
    requires i < |ws| && n < |ws| && id in ws[i].calls
  {
    && Waited(ws[n], id, Asked(ws[i]), ws[i].calls[id].sent) && Asked(ws[i]) < ws[n].promises
    && (ws[i].suppressed ==> Asked(ws[i]) in ws[n].results && !ws[n].results[Asked(ws[i])])
  }

  lemma WaitedNext(ws: seq<World>, i: nat, n: nat, id: CallId)
    requires Run(ws) && i < n && n + 1 < |ws| && id in ws[i].calls && WaitedAt(ws, i, n, id) && StillCurrent(ws[n], id)
    ensures WaitedAt(ws, i, n + 1, id)
  {
    RunKeeps(ws, n);
    assert StepAt(ws, n);
    hide Step, Waited, Run, Inv;
    StepWaited(ws[n], ws[n + 1], id, Asked(ws[i]), ws[i].calls[id].sent);
    if ws[i].suppressed {
      ResultStays(ws[n], ws[n + 1], Asked(ws[i]));
    }
  }

  lemma {:induction false} WaitedSince(ws: seq<World>, i: nat, n: nat, id: CallId)
    requires Run(ws) && i < n < |ws| && ReplyArrives(ws[i], id, true, false, ws[i + 1])
    requires ws[i].calls[id].bound && FirstAttempt(ws[i].calls[id]) && StillCurrent(ws[n], id)
    ensures id in ws[i].calls && WaitedAt(ws, i, n, id)
  {
    assert id in ws[i].calls;
    if n == i + 1 {
      CurrentBefore(ws, i, n, id);
      AsksForRefresh(ws, i, id);
    } else {
      hide ReplyArrives, WaitedAt, Run;
      BeginningKept(ws, i, n - 1, id);
      CurrentBefore(ws, n - 1, n, id);
      WaitedSince(ws, i, n - 1, id);
      WaitedNext(ws, i, n - 1, id);
    }
  }

  lemma ResultStays(w: World, w': World, p: PromiseId)
    requires Inv(w) && Step(w, w') && p < w.promises && p in w.results
    ensures p in w'.results && w'.results[p] == w.results[p]
  {
    hide RequestStep;
    if other :| RequestStep(w, other, w') {
      RequestMoved(w, other, w');
    }
  }

  /** An account-bound request whose first attempt got a 401, and that is over with nobody
      having changed the account, has been sent again exactly if the refresh it shared or
      started has gone well; and never while refreshes were suppressed. */
  lemma RetriedExactly(ws: seq<World>, i: nat, n: nat, id: CallId)
    requires Run(ws) && i < n < |ws| && ReplyArrives(ws[i], id, true, false, ws[i + 1])
    requires ws[i].calls[id].bound && FirstAttempt(ws[i].calls[id])
    requires StillCurrent(ws[n], id) && ws[n].calls[id].phase.Over?
    ensures ws[n].calls[id].sent > ws[i].calls[id].sent <==> Refreshed(ws[n], Asked(ws[i]))
    ensures ws[i].suppressed ==> ws[n].calls[id].sent == ws[i].calls[id].sent
  {
    WaitedSince(ws, i, n, id);
  }

  /** And before it is over it is not sent again unless the refresh has gone well. */
  lemma NotSentBefore(ws: seq<World>, i: nat, n: nat, id: CallId)
    requires Run(ws) && i < n < |ws| && ReplyArrives(ws[i], id, true, false, ws[i + 1])
    requires ws[i].calls[id].bound && FirstAttempt(ws[i].calls[id]) && StillCurrent(ws[n], id)
    ensures ws[n].calls[id].sent > ws[i].calls[id].sent ==> Refreshed(ws[n], Asked(ws[i]))
  {
    WaitedSince(ws, i, n, id);
  }

  // ---------------------------------------------------------------------------------------
  // What the caller gets

  /** How many values or frames the request has handed to its caller. */
  function Handed(ds: seq<Delivery>, id: CallId): nat {
    if ds == [] then 0 else Handed(ds[..|ds| - 1], id) + if ds[|ds| - 1].call == id then 1 else 0
  }

  lemma OneMoreHanded(ds: seq<Delivery>, d: Delivery, id: CallId)
    ensures Handed(ds + [d], id) == Handed(ds, id) + if d.call == id then 1 else 0
  {
    assert (ds + [d])[..|ds|] == ds;
  }

  /** A good reply to a request that wants one value. */
  ghost predicate Answered(ws: seq<World>, k: nat, id: CallId)
    requires k + 1 < |ws|
  {
    ReplyArrives(ws[k], id, false, true, ws[k + 1])
  }

  ghost predicate AnsweredBefore(ws: seq<World>, n: nat, id: CallId)
    requires n < |ws|
  {
    exists k: nat :: k < n && Answered(ws, k, id)
  }

  /** Where a request for one value can be, answered or not. */
  ghost predicate ValueAt(w: World, id: CallId, answered: bool) {
    if id !in w.calls then !answered && Handed(w.delivered, id) == 0
    else
      var phase := w.calls[id].phase;
      && !phase.Reading? && !phase.Yielding? && !phase.Backoff?
      && (if answered then (phase == AwaitBody(true) && Handed(w.delivered, id) == 0) || (phase.Over? && Handed(w.delivered, id) == 1)
          else phase != AwaitBody(true) && Handed(w.delivered, id) == 0)
  }

  ghost predicate OneValue(w: World, id: CallId) {
    id in w.calls ==> w.calls[id].kind.Api? || w.calls[id].kind.Upload?
  }

  lemma ReplyValue(w: World, id: CallId, unauthorized: bool, ok: bool, w': World)
    requires ReplyArrives(w, id, unauthorized, ok, w') && StillCurrent(w, id) && OneValue(w, id) && ValueAt(w, id, false)
    requires CallFine(w, w.calls[id])
    ensures ok <==> ReplyArrives(w, id, false, true, w')
    ensures ValueAt(w', id, ok)
  {
    assert Current(w, w.calls[id]);
    OneMoreHanded(w.delivered, Delivery(id, w.calls[id].began, w.epoch, w.calls[id].bound), id);
    assert |Deliver(w, id, w.calls[id]).delivered| != |w.delivered|;
    assert ReplyArrives(w, id, false, true, w') ==>
             w'.calls[id].phase == (if w.calls[id].kind.Upload? then Over else AwaitBody(true))
             && (w.calls[id].kind.Upload? ==> w'.delivered == Deliver(w, id, w.calls[id]).delivered);
    assert !ok ==> w'.delivered == w.delivered && w'.calls[id].phase != AwaitBody(true);
    hide Handed, ReplyArrives;
  }

  lemma OtherDelivers(w: World, other: CallId, w': World, id: CallId)
    requires Moved(w, other, w') && other != id
    ensures Handed(w'.delivered, id) == Handed(w.delivered, id)
  {
    if other in w.calls {
      OneMoreHanded(w.delivered, Delivery(other, w.calls[other].began, w.epoch, w.calls[other].bound), id);
    }
    hide Handed;
  }

  /** One step of the run, as far as the value for request `id` is concerned. */
  lemma ValueStep(w: World, w': World, id: CallId, answered: bool)
    requires Inv(w) && Step(w, w') && OneValue(w, id) && OneValue(w', id) && (id in w.calls ==> StillCurrent(w, id)) && ValueAt(w, id, answered)
    ensures ValueAt(w', id, answered || ReplyArrives(w, id, false, true, w'))
  {
    if id in w.calls {
      assert CallFine(w, w.calls[id]);
    }
    hide RequestStep, CallFine, Handed;
    if other :| RequestStep(w, other, w') {
      RequestMoved(w, other, w');
      if other == id {
        OwnValueStep(w, w', id, answered);
      } else {
        OtherDelivers(w, other, w', id);
      }
    }
  }

  lemma OwnValueStep(w: World, w': World, id: CallId, answered: bool)
    requires RequestStep(w, id, w') && OneValue(w, id) && OneValue(w', id) && (id in w.calls ==> StillCurrent(w, id) && CallFine(w, w.calls[id]))
    requires ValueAt(w, id, answered)
    ensures ValueAt(w', id, answered || ReplyArrives(w, id, false, true, w'))
  {
    if id in w.calls {
      OneMoreHanded(w.delivered, Delivery(id, w.calls[id].began, w.epoch, w.calls[id].bound), id);
      OnlyStep(w, id, w');
      if unauthorized, ok :| ReplyArrives(w, id, unauthorized, ok, w') {
        ReplyValue(w, id, unauthorized, ok, w');
      }
    }
    hide Handed;
  }

  lemma OneValueBefore(ws: seq<World>, m: nat, n: nat, id: CallId)
    requires Run(ws) && m <= n < |ws| && id in ws[n].calls && OneValue(ws[n], id)
    ensures OneValue(ws[m], id)
    decreases n - m
  {
    if m < n {
      assert StepAt(ws, n - 1);
      KindKept(ws[n - 1], ws[n], id);
      if id in ws[n - 1].calls {
        OneValueBefore(ws, m, n - 1, id);
      } else if id in ws[m].calls {
        BeginningKept(ws, m, n - 1, id);
      }
    }
  }

  lemma KindKept(w: World, w': World, id: CallId)
    requires Step(w, w')
    ensures id in w.calls ==> id in w'.calls && w'.calls[id].kind == w.calls[id].kind
  {
    hide RequestStep;
    if other :| RequestStep(w, other, w') {
      RequestMoved(w, other, w');
    }
  }

  lemma AnsweredNext(ws: seq<World>, n: nat, id: CallId)
    requires n + 1 < |ws|
    ensures AnsweredBefore(ws, n + 1, id) <==> AnsweredBefore(ws, n, id) || Answered(ws, n, id)
  {
    hide Answered;
    if AnsweredBefore(ws, n + 1, id) {
      var k: nat :| k < n + 1 && Answered(ws, k, id);
    }
    if AnsweredBefore(ws, n, id) {
      var k: nat :| k < n && Answered(ws, k, id);
      assert k < n + 1 && Answered(ws, k, id);
    }
  }

  lemma {:induction false} ValueSoFar(ws: seq<World>, n: nat, last: nat, id: CallId)
    requires Run(ws) && n <= last < |ws| && StillCurrent(ws[last], id) && OneValue(ws[last], id)
    ensures ValueAt(ws[n], id, AnsweredBefore(ws, n, id))
  {
    if n > 0 {
      ValueSoFar(ws, n - 1, last, id);
      AnsweredNext(ws, n - 1, id);
      RunKeeps(ws, n - 1);
      assert StepAt(ws, n - 1);
      OneValueBefore(ws, n - 1, last, id);
      OneValueBefore(ws, n, last, id);
      if id in ws[n - 1].calls {
        CurrentBefore(ws, n - 1, last, id);
      }
      hide Step, ValueAt, Run, Inv, AnsweredBefore, OneValue, StillCurrent;
      ValueStep(ws[n - 1], ws[n], id, AnsweredBefore(ws, n - 1, id));
    }
  }

  /** A request for one value that is over, with nobody having changed the account, has handed
      over exactly one value if it got a good reply, and nothing if it did not. */
  lemma ValueExactly(ws: seq<World>, n: nat, id: CallId)
    requires Run(ws) && n < |ws| && StillCurrent(ws[n], id) && OneValue(ws[n], id) && ws[n].calls[id].phase.Over?
    ensures Handed(ws[n].delivered, id) == if AnsweredBefore(ws, n, id) then 1 else 0
  {
    ValueSoFar(ws, n, n, id);
  }

  // ---------------------------------------------------------------------------------------
  // A request that is retried and delivers

  function Alone(c: Call, promises: nat, running: bool, results: map<PromiseId, bool>, delivered: seq<Delivery>): World {
    World(0, if running then Some(0) else None, false, promises, if running then {0} else {}, results, map[0 := c], delivered)
  }

  function Stage(kind: Kind, retried: bool, sent: nat, phase: Phase): Call {
    Call(kind, true, 0, 0, retried, sent, phase)
  }

  lemma Extend(ws: seq<World>, w': World) returns (ws': seq<World>)
    requires Run(ws) && Step(ws[|ws| - 1], w')
    ensures Run(ws') && ws'[|ws'| - 1] == w'
  {
    hide Step;
    ws' := ws + [w'];
    forall i: nat | i < |ws'| - 1 ensures StepAt(ws', i) {
      if i < |ws| - 1 {
        assert StepAt(ws, i);
      }
    }
  }

  lemma Requests(ws: seq<World>, id: CallId, w': World) returns (ws': seq<World>)
    requires Run(ws) && RequestStep(ws[|ws| - 1], id, w')
    ensures Run(ws') && ws'[|ws'| - 1] == w'
  {
    hide RequestStep;
    ws' := Extend(ws, w');
  }

  lemma GetsUnauthorized(kind: Kind) returns (ws: seq<World>)
    requires kind.Api? || kind.Upload?
    ensures Run(ws) && ws[|ws| - 1] == Alone(Stage(kind, false, 1, AwaitRefresh(0)), 1, true, map[], [])
  {
    var w1 := Alone(Stage(kind, false, 0, AwaitHeaders), 0, false, map[], []);
    var w2 := Alone(Stage(kind, false, 1, AwaitReply), 0, false, map[], []);
    var w3 := Alone(Stage(kind, false, 1, AwaitRefresh(0)), 1, true, map[], []);
    assert Begin(START, 0, kind, true, w1);
    assert HeadersReady(w1, 0, w2);
    assert ReplyArrives(w2, 0, true, false, w3);
    assert Run([START]);
    ws := Requests([START], 0, w1);
    ws := Requests(ws, 0, w2);
    ws := Requests(ws, 0, w3);
  }

  lemma GoesOutAgain(kind: Kind, run: seq<World>) returns (ws: seq<World>)
    requires Run(run) && run[|run| - 1] == Alone(Stage(kind, false, 1, AwaitRefresh(0)), 1, true, map[], [])
    requires kind.Api? || kind.Upload?
    ensures Run(ws) && ws[|ws| - 1] == Alone(Stage(kind, true, 2, AwaitReply), 1, false, map[0 := true], [])
  {
    var w4 := Alone(Stage(kind, false, 1, AwaitRefresh(0)), 1, false, map[0 := true], []);
    var w5 := Alone(Stage(kind, true, 1, AwaitHeaders), 1, false, map[0 := true], []);
    var w6 := Alone(Stage(kind, true, 2, AwaitReply), 1, false, map[0 := true], []);
    assert {0} - {0} == {};
    assert RefreshSettles(run[|run| - 1], 0, true, w4);
    assert RefreshAwaited(w4, 0, w5);
    assert HeadersReady(w5, 0, w6);
    ws := Extend(run, w4);
    ws := Requests(ws, 0, w5);
    ws := Requests(ws, 0, w6);
  }

  /** There is a run in which a request for one value gets a 401, is sent again after a good
      refresh, and hands its value over. */
  lemma RetryDelivers(kind: Kind) returns (ws: seq<World>)
    requires kind.Api? || kind.Upload?
    ensures Run(ws)
    ensures var w := ws[|ws| - 1];
            0 in w.calls && w.calls[0].kind == kind && w.calls[0].sent == 2 && w.calls[0].phase.Over? && w.delivered == [Delivery(0, 0, 0, true)]
  {
    ws := GetsUnauthorized(kind);
    ws := GoesOutAgain(kind, ws);
    var w6 := Alone(Stage(kind, true, 2, AwaitReply), 1, false, map[0 := true], []);
    var w7 := Alone(Stage(kind, true, 2, AwaitBody(true)), 1, false, map[0 := true], []);
    var w8 := Alone(Stage(kind, true, 2, Over), 1, false, map[0 := true], [Delivery(0, 0, 0, true)]);
    if kind.Upload? {
      assert ReplyArrives(w6, 0, false, true, w8);
      ws := Requests(ws, 0, w8);
    } else {
      assert ReplyArrives(w6, 0, false, true, w7);
      assert BodyArrives(w7, 0, w8);
      ws := Requests(ws, 0, w7);
      ws := Requests(ws, 0, w8);
    }
  }

  // ---------------------------------------------------------------------------------------
  // Streams hand over every frame

  /** The frames that the chunks of request `id` have completed up to step n. */
  function Arrived(ws: seq<World>, n: nat, id: CallId): nat
    requires n < |ws|
  {
    if n == 0 then 0
    else Arrived(ws, n - 1, id) + NewFrames(ws[n - 1], ws[n], id)
  }

  function NewFrames(w: World, w': World, id: CallId): nat {
    if id in w.calls && id in w'.calls && w.calls[id].phase.Reading? && w'.calls[id].phase.Yielding? then w'.calls[id].phase.left else 0
  }

  function Waiting(w: World, id: CallId): nat {
    if id in w.calls && w.calls[id].phase.Yielding? then w.calls[id].phase.left else 0
  }

  ghost predicate IsStream(w: World, id: CallId) {
    id in w.calls ==> w.calls[id].kind.PostStream? || w.calls[id].kind.GetStream?
  }

  /** A stream has no value to hand over. */
  ghost predicate NoValue(w: World, id: CallId) {
    id in w.calls ==> w.calls[id].phase != AwaitBody(true)
  }

  /** The frames of the request are accounted for. */
  ghost predicate Accounted(w: World, w': World, id: CallId) {
    && Handed(w'.delivered, id) + Waiting(w', id) == Handed(w.delivered, id) + Waiting(w, id) + NewFrames(w, w', id)
    && NoValue(w', id)
  }

  lemma YieldFrames(w: World, id: CallId, w': World)
    requires YieldNext(w, id, w') && StillCurrent(w, id) && CallFine(w, w.calls[id])
    ensures Accounted(w, w', id)
  {
    OneMoreHanded(w.delivered, Delivery(id, w.calls[id].began, w.epoch, w.calls[id].bound), id);
    hide Handed;
  }

  lemma ChunkFrames(w: World, id: CallId, n: nat, last: bool, w': World)
    requires ChunkArrives(w, id, n, last, w') && StillCurrent(w, id)
    ensures Accounted(w, w', id)
  {
    hide Handed;
  }

  lemma StreamReply(w: World, id: CallId, unauthorized: bool, ok: bool, w': World)
    requires ReplyArrives(w, id, unauthorized, ok, w') && IsStream(w, id)
    ensures Accounted(w, w', id)
  {
    hide Handed;
  }

  lemma QuietFrames(w: World, id: CallId, w': World)
    requires HeadersReady(w, id, w') || RefreshAwaited(w, id, w') || Drops(w, id, w') || Reconnects(w, id, w')
             || (BodyArrives(w, id, w') && NoValue(w, id))
    ensures Accounted(w, w', id)
  {
    hide Handed;
  }

  lemma OwnFrames(w: World, w': World, id: CallId)
    requires RequestStep(w, id, w') && IsStream(w, id) && NoValue(w, id)
    requires id in w.calls ==> StillCurrent(w, id) && CallFine(w, w.calls[id])
    ensures Accounted(w, w', id)
  {
    hide Accounted, ReplyArrives, BodyArrives, YieldNext, HeadersReady, RefreshAwaited, Drops, Reconnects, ChunkArrives, Begin;
    InCalls(w, id, w');
    if unauthorized, ok :| ReplyArrives(w, id, unauthorized, ok, w') { StreamReply(w, id, unauthorized, ok, w'); }
    else if YieldNext(w, id, w') { YieldFrames(w, id, w'); }
    else if n, last :| ChunkArrives(w, id, n, last, w') { ChunkFrames(w, id, n, last, w'); }
    else if kind, bound :| Begin(w, id, kind, bound, w') { BeginFrames(w, id, kind, bound, w'); }
    else { QuietFrames(w, id, w'); }
  }

  lemma InCalls(w: World, id: CallId, w': World)
    ensures YieldNext(w, id, w') || (exists n, last :: ChunkArrives(w, id, n, last, w')) ==> id in w.calls
  {}

  lemma BeginFrames(w: World, id: CallId, kind: Kind, bound: bool, w': World)
    requires Begin(w, id, kind, bound, w')
    ensures Accounted(w, w', id)
  {
    hide Handed;
  }

  lemma FramesStep(w: World, w': World, id: CallId)
    requires Inv(w) && Step(w, w') && IsStream(w, id) && NoValue(w, id) && (id in w.calls ==> StillCurrent(w, id))
    ensures Accounted(w, w', id)
  {
    assert id in w.calls ==> CallFine(w, w.calls[id]);
    hide RequestStep, Handed;
    if other :| RequestStep(w, other, w') {
      RequestMoved(w, other, w');
      if other == id {
        OwnFrames(w, w', id);
      } else {
        OtherDelivers(w, other, w', id);
      }
    }
  }

  lemma StreamBefore(ws: seq<World>, m: nat, n: nat, id: CallId)
    requires Run(ws) && m <= n < |ws| && id in ws[n].calls && IsStream(ws[n], id)
    ensures IsStream(ws[m], id)
    decreases n - m
  {
    if m < n {
      assert StepAt(ws, n - 1);
      KindKept(ws[n - 1], ws[n], id);
      if id in ws[m].calls {
        BeginningKept(ws, m, n - 1, id);
      }
      hide Run, Step;
      if id in ws[n - 1].calls {
        StreamBefore(ws, m, n - 1, id);
      }
    }
  }

  lemma {:induction false} FramesSoFar(ws: seq<World>, n: nat, last: nat, id: CallId)
    requires Run(ws) && n <= last < |ws| && StillCurrent(ws[last], id) && IsStream(ws[last], id)
    ensures Handed(ws[n].delivered, id) + Waiting(ws[n], id) == Arrived(ws, n, id) && NoValue(ws[n], id)
  {
    if n > 0 {
      FramesSoFar(ws, n - 1, last, id);
      assert StepAt(ws, n - 1);
      StreamBefore(ws, n - 1, last, id);
      if id in ws[n - 1].calls {
        CurrentBefore(ws, n - 1, last, id);
      }
      RunKeeps(ws, n - 1);
      hide Step, Run, Inv, Handed, Waiting, NewFrames, NoValue, IsStream, StillCurrent;
      FramesStep(ws[n - 1], ws[n], id);
    }
  }

  /** Unless the account was changed, a stream has handed over every frame that arrived but those
      still waiting to be asked for, through all its reconnects. */
  lemma EveryFrameHandedOver(ws: seq<World>, n: nat, id: CallId)
    requires Run(ws) && n < |ws| && StillCurrent(ws[n], id) && IsStream(ws[n], id)
    ensures Handed(ws[n].delivered, id) + Waiting(ws[n], id) == Arrived(ws, n, id)
  {
    FramesSoFar(ws, n, n, id);
  }
}
