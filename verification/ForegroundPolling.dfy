/** The foreground polling hook: one cancellable request at a time, suspended while the page
    is hidden or offline. Times are in milliseconds. */
module ForegroundPolling {
  import opened Prelude

  const MIN_INTERVAL := 100
  const MAX_BACKOFF := 30000

  /** How a request ended: well, or with an error that may be a permanent one. */
  datatype Settled = Fulfilled | Rejected(permanent: bool)

  function Max(a: nat, b: nat): nat {
    if a < b then b else a
  }

  function Min(a: nat, b: nat): nat {
    if a < b then a else b
  }

  function Power2(k: nat): (p: nat)
    ensures p >= 1
  {
    if k == 0 then 1 else 2 * Power2(k - 1)
  }

  function Delay(interval: nat, failures: nat): nat {
    if failures > 0 then Min(Max(interval, MAX_BACKOFF), interval * Power2(Min(failures, 5))) else interval
  }

  lemma DelayBounds(interval: nat, failures: nat)
    ensures interval <= Delay(interval, failures) <= Max(interval, MAX_BACKOFF)
  {
    var p := Power2(Min(failures, 5));
    assert interval * p >= interval * 1;
  }

  /** Without failures the delay is the interval. Each of the first five failures in a row doubles
      it, up to 30 seconds or the interval if that is longer, and further ones change nothing. */
  lemma DelayDoubles(interval: nat, failures: nat)
    ensures Delay(interval, 0) == interval
    ensures Delay(interval, failures + 1) ==
            if failures < 5 then Min(Max(interval, 30000), 2 * Delay(interval, failures)) else Delay(interval, failures)
  {
    if failures < 5 {
      assert Power2(failures + 1) == 2 * Power2(failures);
      assert interval * Power2(failures + 1) == 2 * (interval * Power2(failures));
    }
  }

  /** The backoff never shortens a delay. */
  lemma DelayGrows(interval: nat, failures: nat)
    ensures Delay(interval, failures) <= Delay(interval, failures + 1)
  {
    DelayBounds(interval, failures + 1);
    var p, q := Power2(Min(failures, 5)), Power2(Min(failures + 1, 5));
    assert q == p || q == 2 * p;
    assert interval * p <= interval * q;
  }

  // ---------------------------------------------------------------------------------------
  // What happened while nobody was told

  /** A timer that fired, a request that settled, or a run of the event handler, and whether
      the page was available at that moment. */
  datatype Moment = Fired(available: bool) | Ended(available: bool) | Handled(available: bool)

  /** What the handler saw last; before its first run, what the effect saw when it mounted. */
  function LastSeen(log: seq<Moment>, atMount: bool): bool {
    if log == [] then atMount
    else if log[|log| - 1].Handled? then log[|log| - 1].available
    else LastSeen(log[..|log| - 1], atMount)
  }

  /** Moment `i` was lost: polling came to its end there because the page was unavailable,
      which the handler did not know and has not been told since. */
  ghost predicate LostAt(log: seq<Moment>, atMount: bool, i: nat)
    requires i < |log|
  {
    && !log[i].Handled? && !log[i].available && LastSeen(log[..i], atMount)
    && forall j :: i < j < |log| && log[j].Handled? ==> log[j].available
  }

  ghost predicate Missed(log: seq<Moment>, atMount: bool) {
    exists i: nat :: i < |log| && LostAt(log, atMount, i)
  }

  lemma OneMore(log: seq<Moment>, atMount: bool, m: Moment)
    ensures LastSeen(log + [m], atMount) == if m.Handled? then m.available else LastSeen(log, atMount)
    ensures Missed(log + [m], atMount) <==>
              if m.Handled? then m.available && Missed(log, atMount)
              else Missed(log, atMount) || (!m.available && LastSeen(log, atMount))
  {
    var after := log + [m];
    assert after[..|log|] == log;
    forall i: nat | i < |log|
      ensures LostAt(after, atMount, i) <==> LostAt(log, atMount, i) && (m.Handled? ==> m.available)
    {
      assert after[..i] == log[..i] && after[|log|] == m;
      assert forall j :: i < j < |log| ==> after[j] == log[j];
    }
    assert LostAt(after, atMount, |log|) <==> !m.Handled? && !m.available && LastSeen(log, atMount);
    if Missed(log, atMount) {
      var i: nat :| i < |log| && LostAt(log, atMount, i);
      assert LostAt(after, atMount, i) <==> (m.Handled? ==> m.available);
    }
  }

  /** Nothing but a handler run while the page is unavailable brings polling back. */
  lemma {:induction false} StaysMissed(log: seq<Moment>, atMount: bool, more: seq<Moment>)
    requires Missed(log, atMount)
    ensures Handled(false) !in more ==> Missed(log + more, atMount)
    decreases |more|
  {
    if more == [] {
      assert log + more == log;
    } else {
      OneMore(log, atMount, more[0]);
      assert (log + [more[0]]) + more[1..] == log + more;
      if more[0] != Handled(false) {
        StaysMissed(log + [more[0]], atMount, more[1..]);
      }
    }
  }

  /** A request starts: what held at that moment. */
  datatype Start = Start(available: bool, stopped: bool, disposed: bool, running: bool)

  ghost predicate Rightful(starts: seq<Start>) {
    forall k :: 0 <= k < |starts| ==> starts[k] == Start(true, false, false, false)
  }

  /** One mounted effect. `available` is what the page and the browser say now. */
  class Poller {
    const interval: nat
    var available: bool
    var wasAvailable: bool
    var disposed: bool
    var stopped: bool
    var running: bool
    var resumePending: bool
    var failures: nat
    var timer: Option<nat>
    /** The request timeout is set; the current request was aborted, by it or otherwise. */
    var deadline: bool
    var aborted: bool
    var timedOut: bool
    ghost const atMount: bool
    ghost var inFlight: nat
    ghost var starts: seq<Start>
    ghost var log: seq<Moment>

    /** What holds however late the handler runs. */
    ghost predicate Sound()
      reads this
    {
      && inFlight == (if running then 1 else 0)
      && (timer.Some? ==> !running && !stopped && !disposed && interval <= timer.value <= Max(interval, MAX_BACKOFF))
      && (running ==> !stopped) && (running && timedOut ==> aborted) && (running && disposed ==> aborted)
      && Rightful(starts)
      && wasAvailable == LastSeen(log, atMount)
      && (!stopped && !disposed ==> (Missed(log, atMount) <==> wasAvailable && !running && timer.None?))
    }

    /** What holds while every change of availability is handled at once. */
    ghost predicate Valid()
      reads this
    {
      && Sound()
      && (timer.Some? ==> available)
      && (!disposed ==> wasAvailable == available)
      && (resumePending && !disposed && !stopped ==> running && available)
      && (running ==> aborted || (available && !disposed && deadline))
      && (available && !stopped && !disposed ==> running || timer.Some?)
    }

    constructor (intervalMs: nat, available: bool, immediate: bool)
      ensures Valid() && this.available == available && !disposed && !stopped && interval == Max(MIN_INTERVAL, intervalMs)
      ensures available ==> if immediate then running && |starts| == 1 else timer == Some(interval) && starts == []
      ensures !available ==> !running && timer.None? && starts == []
      ensures log == [] && atMount == available
    {
      interval := Max(MIN_INTERVAL, intervalMs);
      this.available, wasAvailable, atMount := available, available, available;
      disposed, stopped, running, resumePending, failures, timer := false, false, false, false, 0, None;
      deadline, aborted, timedOut := false, false, false;
      inFlight, starts, log := 0, [], [];
      new;
      if immediate {
        Tick();
      } else {
        Schedule();
      }
    }

    method Schedule()
      modifies this`timer
      ensures timer == if disposed || stopped || !available then old(timer) else Some(Delay(interval, failures))
    {
      if disposed || stopped || !available {
        return;
      }
      timer := Some(Delay(interval, failures));
    }

    /** Starts a request, unless one is in flight or none may start. */
    method Tick()
      requires inFlight == (if running then 1 else 0) && Rightful(starts)
      modifies this`timer, this`resumePending, this`running, this`deadline, this`aborted, this`timedOut, this`inFlight, this`starts
      ensures Rightful(starts) && inFlight == (if running then 1 else 0)
      ensures var begins := !disposed && !stopped && !old(running) && available;
              && |starts| == |old(starts)| + (if begins then 1 else 0)
              && (if begins then running && timer.None? && !resumePending && deadline && !aborted && !timedOut
                  else running == old(running) && timer == old(timer) && resumePending == old(resumePending)
                       && deadline == old(deadline) && aborted == old(aborted) && timedOut == old(timedOut))
    {
      if disposed || stopped || running || !available {
        return;
      }
      starts := starts + [Start(available, stopped, disposed, running)];
      timer := None;
      resumePending := false;
      running, inFlight := true, inFlight + 1;
      aborted, timedOut, deadline := false, false, true;
    }

    /** What the end of a request says about the next ones. */
    method Account(outcome: Settled)
      modifies this`stopped, this`failures, this`deadline
      ensures stopped == (if aborted || outcome.Fulfilled? then old(stopped) else outcome.permanent)
      ensures failures == (if !aborted && outcome.Fulfilled? then 0 else if !aborted then old(failures) + 1 else old(failures))
                          + (if timedOut then 1 else 0)
    {
      if !aborted {
        match outcome
        case Fulfilled =>
          failures := 0;
        case Rejected(permanent) =>
          stopped := permanent;
          failures := failures + 1;
      }
      deadline := false;
      if timedOut {
        failures := failures + 1;
      }
    }

    /** The request in flight settles, long after an abort perhaps. */
    method Settle(outcome: Settled)
      requires Sound() && running
      modifies this
      ensures Sound() && (old(Valid()) ==> Valid())
      ensures wasAvailable == old(wasAvailable) && available == old(available) && disposed == old(disposed)
      ensures stopped == (if old(aborted) || outcome.Fulfilled? then old(stopped) else outcome.permanent)
      ensures |starts| == |old(starts)| + (if running then 1 else 0)
      ensures running <==> old(resumePending) && available && !stopped && !disposed
      ensures timer.Some? <==> !running && available && !stopped && !disposed
      ensures timer.Some? ==> timer.value == Delay(interval, failures)
      ensures failures == (if !old(aborted) && outcome.Fulfilled? then 0 else if !old(aborted) then old(failures) + 1 else old(failures))
                          + (if old(timedOut) then 1 else 0)
      ensures log == old(log) + [Ended(available)]
    {
      hide Missed, LastSeen, Delay;
      OneMore(log, atMount, Ended(available));
      log := log + [Ended(available)];
      Account(outcome);
      running, inFlight := false, inFlight - 1;
      DelayBounds(interval, failures);
      if !disposed && !stopped {
        if resumePending && available {
          Tick();
        } else {
          Schedule();
        }
      }
    }

    /** The poll timer fires. */
    method TimerFires()
      requires Sound() && timer.Some?
      modifies this`timer, this`resumePending, this`running, this`deadline, this`aborted, this`timedOut, this`inFlight, this`starts, this`log
      ensures Sound() && (old(Valid()) ==> Valid())
      ensures timer.None? && running == available
      ensures |starts| == |old(starts)| + (if available then 1 else 0)
      ensures log == old(log) + [Fired(available)]
    {
      hide Missed, LastSeen, Delay;
      OneMore(log, atMount, Fired(available));
      log := log + [Fired(available)];
      timer := None;
      Tick();
    }

    /** The request timeout fires. */
    method DeadlineFires()
      requires Sound() && running && deadline
      modifies this`deadline, this`aborted, this`timedOut
      ensures Sound() && (old(Valid()) ==> Valid()) && aborted && timedOut
    {
      deadline := false;
      timedOut := true;
      aborted := true;
    }

    /** The handler of the three browser events. */
    method SuspendOrResume()
      requires Sound() && !disposed
      modifies this
      ensures Sound() && wasAvailable == available == old(available) && disposed == old(disposed) && stopped == old(stopped)
      ensures log == old(log) + [Handled(available)]
      ensures |starts| == |old(starts)| + (if running && !old(running) then 1 else 0)
      ensures old(wasAvailable) == available ==>
                running == old(running) && timer == old(timer) && resumePending == old(resumePending) && failures == old(failures)
      ensures old(wasAvailable) != available ==>
                && timer.None?
                && (!available ==> running == old(running) && !resumePending && (running ==> aborted))
                && (available && old(running) ==> running && resumePending && aborted == old(aborted) && deadline == old(deadline))
                && (available && !old(running) ==>
                    if stopped then !running && resumePending else running && !resumePending && deadline && !aborted)
      ensures old(Valid()) ==> Valid()
    {
      hide Missed, LastSeen, Delay;
      OneMore(log, atMount, Handled(available));
      log := log + [Handled(available)];
      var nowAvailable := available;
      if nowAvailable == wasAvailable {
        return;
      }
      wasAvailable := nowAvailable;
      timer := None;
      if !nowAvailable {
        resumePending := false;
        deadline := false;
        aborted := running || aborted;
      } else {
        resumePending := true;
        if !running {
          Tick();
        }
      }
    }

    /** The page is shown or hidden, or goes on- or offline; nothing is told yet. */
    method Change()
      requires Sound()
      modifies this`available
      ensures Sound() && available == !old(available)
    {
      available := !available;
    }

    /** A change whose event is handled at once. */
    method Flip()
      requires Valid() && !disposed
      modifies this
      ensures Valid() && available == !old(available) && stopped == old(stopped)
      ensures |starts| <= |old(starts)| + 1 && (|starts| > |old(starts)| ==> available && !stopped)
      ensures !available ==> timer.None? && (running ==> aborted)
    {
      Change();
      SuspendOrResume();
    }

    /** The effect is cleaned up. */
    method Dispose()
      requires Sound()
      modifies this
      ensures Sound() && (old(Valid()) ==> Valid()) && disposed && timer.None? && (running ==> aborted) && starts == old(starts)
    {
      disposed := true;
      timer := None;
      deadline := false;
      aborted := running || aborted;
    }
  }

  // ---------------------------------------------------------------------------------------
  // Whole runs

  datatype Event = Changed | HandlerRan | TimerFired | DeadlineFired | TaskSettled(outcome: Settled) | Unmounted

  /** Whatever happens to a mounted effect, in any order, with every change handled at once:
      at most one request is in flight, and none ever started while one was, or while polling
      was unavailable, stopped or disposed; a pending timer means none is in flight; one or the
      other is there whenever polling may go on; and a request in flight while it may not has
      been aborted. */
  method Live(intervalMs: nat, available: bool, immediate: bool, events: seq<Event>) returns (p: Poller)
    ensures fresh(p) && p.inFlight <= 1 && (p.running <==> p.inFlight == 1) && Rightful(p.starts)
    ensures p.timer.Some? ==>
              !p.running && p.available && !p.stopped && !p.disposed
              && Max(MIN_INTERVAL, intervalMs) <= p.timer.value <= Max(Max(MIN_INTERVAL, intervalMs), MAX_BACKOFF)
    ensures p.available && !p.stopped && !p.disposed ==> p.running || p.timer.Some?
    ensures p.running && (!p.available || p.disposed) ==> p.aborted
  {
    p := new Poller(intervalMs, available, immediate);
    for k := 0 to |events|
      invariant fresh(p) && p.Valid() && p.interval == Max(MIN_INTERVAL, intervalMs)
    {
      match events[k]
      case Changed => if !p.disposed { p.Flip(); }
      case HandlerRan => if !p.disposed { p.SuspendOrResume(); }
      case TimerFired => if p.timer.Some? { p.TimerFires(); }
      case DeadlineFired => if p.running && p.deadline { p.DeadlineFires(); }
      case TaskSettled(outcome) => if p.running { p.Settle(outcome); }
      case Unmounted => p.Dispose();
    }
  }

  /** With the handler running whenever it does, any number of changes late: still no two
      requests at a time, and none started when it may not. While polling was not stopped or
      disposed, neither a request nor a timer is left and the handler has seen "available" last
      (so that it will not act on that again) exactly if a timer fired or a request settled
      while the page was unavailable, the handler had last seen it available, and no handler
      run has found it unavailable since. */
  method LateEvents(intervalMs: nat, available: bool, immediate: bool, events: seq<Event>) returns (p: Poller)
    ensures fresh(p) && p.Sound() && p.inFlight <= 1 && (p.running <==> p.inFlight == 1) && Rightful(p.starts)
    ensures p.atMount == available && p.wasAvailable == LastSeen(p.log, p.atMount)
    ensures !p.stopped && !p.disposed ==> (Missed(p.log, p.atMount) <==> p.wasAvailable && !p.running && p.timer.None?)
  {
    p := new Poller(intervalMs, available, immediate);
    for k := 0 to |events|
      invariant fresh(p) && p.Sound() && p.atMount == available
    {
      match events[k]
      case Changed => p.Change();
      case HandlerRan => if !p.disposed { p.SuspendOrResume(); }
      case TimerFired => if p.timer.Some? { p.TimerFires(); }
      case DeadlineFired => if p.running && p.deadline { p.DeadlineFires(); }
      case TaskSettled(outcome) => if p.running { p.Settle(outcome); }
      case Unmounted => p.Dispose();
    }
  }

  /** The timer fires in the gap. */
  method MissedByTimer() returns (p: Poller)
    ensures fresh(p) && p.available && !p.stopped && !p.disposed && !p.running && p.timer.None?
    ensures p.log == [Fired(false), Handled(true)]
  {
    p := new Poller(1000, true, false);
    p.Change();
    p.TimerFires();
    p.Change();
    p.SuspendOrResume();
  }

  /** The request settles in the gap; no timer is involved. */
  method MissedByRequest() returns (p: Poller)
    ensures fresh(p) && p.available && !p.stopped && !p.disposed && !p.running && p.timer.None?
    ensures p.log == [Ended(false), Handled(true)]
  {
    p := new Poller(1000, true, true);
    p.Change();
    p.Settle(Fulfilled);
    p.Change();
    p.SuspendOrResume();
  }
}
