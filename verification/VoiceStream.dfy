/** The bounded audio queue of a live transcription: what is captured, kept, dropped and sent. */
module VoiceStream {

  const FRAME_SAMPLES := 3200
  const AUDIO_BUFFER_MAX_BYTES := 960000
  const SOCKET_BUFFER_MAX_BYTES := 32000

  /** Resampled, encoded samples of two bytes each. */
  type Samples = seq<int>

  datatype Event = Spoken(chunk: Samples) | Ready | Stopped | Ticked | Ended

  datatype Message = Audio(frame: Samples) | End

  /** The socket at one moment: whether it is open, how much it has buffered, and whether a
      send now throws. */
  datatype Moment = Moment(open: bool, buffered: nat, throws: bool)

  /** The socket takes what is sent. */
  predicate Takes(m: Moment) {
    m.open && m.buffered < SOCKET_BUFFER_MAX_BYTES && !m.throws
  }

  function ByteLength(frame: Samples): nat {
    2 * |frame|
  }

  function TotalBytes(frames: seq<Samples>): nat {
    if frames == [] then 0 else ByteLength(frames[0]) + TotalBytes(frames[1..])
  }

  function Flatten(frames: seq<Samples>): Samples {
    if frames == [] then [] else frames[0] + Flatten(frames[1..])
  }

  lemma {:induction false} SplitOff(a: seq<Samples>, b: seq<Samples>)
    ensures TotalBytes(a + b) == TotalBytes(a) + TotalBytes(b)
    ensures Flatten(a + b) == Flatten(a) + Flatten(b)
  {
    if a == [] {
      assert a + b == b;
    } else {
      SplitOff(a[1..], b);
      assert (a + b)[1..] == a[1..] + b && (a + b)[0] == a[0];
      assert a[0] + (Flatten(a[1..]) + Flatten(b)) == (a[0] + Flatten(a[1..])) + Flatten(b);
    }
  }

  lemma One(frame: Samples)
    ensures TotalBytes([frame]) == ByteLength(frame) && Flatten([frame]) == frame
  {
    assert [frame][1..] == [] && frame + [] == frame;
  }

  // ---------------------------------------------------------------------------------------
  // What the session keeps true

  /** The wire carries frames in the order they were made, each at most once, and then at
      most one end. `sent` are the numbers of the frames sent. */
  ghost predicate Orderly(wire: seq<Message>, made: seq<Samples>, sent: seq<nat>, endSent: bool) {
    && |wire| == |sent| + (if endSent then 1 else 0)
    && (forall k :: 0 <= k < |sent| ==> sent[k] < |made| && wire[k] == Audio(made[sent[k]]))
    && (forall j, k :: 0 <= j < k < |sent| ==> sent[j] < sent[k])
    && (endSent ==> wire[|sent|] == End)
  }

  /** The queue is the latest frames made; every older one was sent or dropped. */
  ghost predicate Latest(queue: seq<Samples>, made: seq<Samples>, sent: seq<nat>, dropped: nat) {
    && |queue| <= |made| && queue == made[|made| - |queue|..]
    && |sent| + dropped == |made| - |queue|
    && (forall k :: 0 <= k < |sent| ==> sent[k] < |made| - |queue|)
  }

  /** Nothing captured is missing from the frames made and the samples pending. */
  ghost predicate Complete(made: seq<Samples>, extra: Samples, pending: Samples, captured: Samples) {
    Flatten(made) + extra + pending == captured
  }

  lemma FirstLeaves(queue: seq<Samples>, made: seq<Samples>, sent: seq<nat>, dropped: nat)
    requires queue != [] && Latest(queue, made, sent, dropped)
    ensures |queue| <= |made|
    ensures Latest(queue[1..], made, sent, dropped + 1)
    ensures Latest(queue[1..], made, sent + [|made| - |queue|], dropped)
    ensures TotalBytes(queue) == ByteLength(queue[0]) + TotalBytes(queue[1..])
  {
    SentIsNext(queue, made, sent, dropped);
    hide TotalBytes;
    assert queue[1..] == made[|made| - |queue[1..]|..];
  }

  lemma SentIsNext(queue: seq<Samples>, made: seq<Samples>, sent: seq<nat>, dropped: nat)
    requires queue != [] && Latest(queue, made, sent, dropped)
    ensures Latest(queue[1..], made, sent + [|made| - |queue|], dropped)
  {
    assert queue[1..] == made[|made| - |queue[1..]|..];
  }

  lemma OneMoreSent(wire: seq<Message>, made: seq<Samples>, sent: seq<nat>, queue: seq<Samples>, dropped: nat)
    requires queue != [] && Latest(queue, made, sent, dropped) && Orderly(wire, made, sent, false)
    ensures Orderly(wire + [Audio(queue[0])], made, sent + [|made| - |queue|], false)
  {
    assert queue[0] == made[|made| - |queue|];
  }

  lemma OneMoreMade(queue: seq<Samples>, made: seq<Samples>, sent: seq<nat>, dropped: nat, frame: Samples)
    requires Latest(queue, made, sent, dropped)
    ensures Latest(queue + [frame], made + [frame], sent, dropped)
    ensures TotalBytes(queue + [frame]) == TotalBytes(queue) + ByteLength(frame)
    ensures Flatten(made + [frame]) == Flatten(made) + frame
  {
    SplitOff(queue, [frame]);
    SplitOff(made, [frame]);
    One(frame);
  }

  lemma MoreCaptured(made: seq<Samples>, pending: Samples, captured: Samples, chunk: Samples)
    requires Complete(made, [], pending, captured)
    ensures Complete(made, [], pending + chunk, captured + chunk)
  {}

  lemma TakeFrame(made: seq<Samples>, pending: Samples, captured: Samples)
    requires Complete(made, [], pending, captured) && |pending| >= FRAME_SAMPLES
    ensures Complete(made, pending[..FRAME_SAMPLES], pending[FRAME_SAMPLES..], captured)
  {}

  lemma TakeAll(made: seq<Samples>, pending: Samples, captured: Samples)
    requires Complete(made, [], pending, captured)
    ensures Complete(made, pending, [], captured)
  {}

  lemma Made(made: seq<Samples>, frame: Samples, pending: Samples, captured: Samples)
    requires Complete(made, frame, pending, captured)
    ensures Complete(made + [frame], [], pending, captured)
  {
    SplitOff(made, [frame]);
    One(frame);
  }

  /** The frames that have to go before a new one fits: as few as possible. */
  ghost predicate MadeRoom(before: seq<Samples>, gone: nat, frame: Samples) {
    gone <= |before|
    && (gone > 0 ==> TotalBytes(before[gone - 1..]) + ByteLength(frame) > AUDIO_BUFFER_MAX_BYTES)
  }

  lemma OneMoreGone(before: seq<Samples>, gone: nat, frame: Samples)
    requires gone < |before| && TotalBytes(before[gone..]) + ByteLength(frame) > AUDIO_BUFFER_MAX_BYTES
    ensures MadeRoom(before, gone + 1, frame) && before[gone..] != [] && before[gone..][1..] == before[gone + 1..]
  {}

  lemma Initially()
    ensures Orderly([], [], [], false) && Latest([], [], [], 0) && Complete([], [], [], []) && TotalBytes([]) == 0
  {}

  lemma EmptyQueue(queue: seq<Samples>)
    ensures queue == [] ==> TotalBytes(queue) == 0
  {}

  lemma OrderlyStill(wire: seq<Message>, made: seq<Samples>, sent: seq<nat>, frame: Samples)
    requires Orderly(wire, made, sent, false)
    ensures Orderly(wire, made + [frame], sent, false)
  {}

  function AsAudio(frames: seq<Samples>): (r: seq<Message>)
    ensures |r| == |frames| && forall k :: 0 <= k < |frames| ==> r[k] == Audio(frames[k])
  {
    seq(|frames|, k requires 0 <= k < |frames| => Audio(frames[k]))
  }

  lemma NoAudio()
    ensures AsAudio([]) == []
  {}

  lemma NothingOut(wire: seq<Message>, queue: seq<Samples>)
    ensures wire + AsAudio(queue[..0]) + [] == wire && queue[0..] == queue
  {
    NoAudio();
    assert queue[..0] == [];
  }

  lemma NoEndOut(wire: seq<Message>)
    ensures wire + [] == wire
  {}

  lemma MoreAudio(wire: seq<Message>, queue: seq<Samples>, n: nat)
    requires n < |queue|
    ensures wire + AsAudio(queue[..n]) + [Audio(queue[n..][0])] == wire + AsAudio(queue[..n + 1])
    ensures queue[n..][1..] == queue[n + 1..]
  {}

  /** What the buffer can take of a frame: all of it, or its end. */
  function Kept(frame: Samples): Samples {
    if ByteLength(frame) > AUDIO_BUFFER_MAX_BYTES then frame[|frame| - AUDIO_BUFFER_MAX_BYTES / 2..] else frame
  }

  /** The frames a call makes of the samples pending at its end. */
  function TailOf(pending: Samples): seq<Samples> {
    if pending == [] then [] else [pending]
  }

  class Session {
    const socket: nat -> Moment
    var clock: nat
    var pending: Samples
    var queuedFrames: seq<Samples>
    var queuedBytes: int
    var capturing: bool
    var upstreamReady: bool
    var stopRequested: bool
    var endSent: bool
    var closed: bool
    ghost var captured: Samples
    ghost var made: seq<Samples>
    ghost var sent: seq<nat>
    ghost var dropped: nat
    ghost var wire: seq<Message>

    ghost predicate Core()
      reads this
    {
      && Orderly(wire, made, sent, endSent)
      && (!upstreamReady ==> wire == [])
      && (endSent ==> stopRequested && upstreamReady)
      && (stopRequested ==> !capturing)
      && (if closed then queuedFrames == [] && pending == [] && queuedBytes == 0 && !capturing
          else
            && Latest(queuedFrames, made, sent, dropped)
            && queuedBytes == TotalBytes(queuedFrames) <= AUDIO_BUFFER_MAX_BYTES
            && (endSent ==> queuedFrames == []))
    }

    ghost predicate Valid()
      reads this
    {
      && Core()
      && (closed || Complete(made, [], pending, captured))
      && (stopRequested ==> pending == [])
      && |pending| < FRAME_SAMPLES
    }

    /** Since that moment the socket was once closed, full or throwing. */
    ghost predicate Trouble(from: nat)
      reads this`clock
    {
      exists k: nat :: from <= k < clock && !Takes(socket(k))
    }

    /** Everything made has gone out, and so has the end if the user has stopped. */
    ghost predicate Flushed()
      reads this`closed, this`upstreamReady, this`queuedFrames, this`stopRequested, this`endSent
    {
      closed || !upstreamReady || (queuedFrames == [] && (stopRequested ==> endSent))
    }

    lemma TroubleSince(from: nat, later: nat)
      requires from <= later
      ensures Trouble(later) ==> Trouble(from)
    {}

    lemma TroubleNow(from: nat)
      requires from < clock
      ensures !Takes(socket(clock - 1)) ==> Trouble(from)
    {}

    constructor (socket: nat -> Moment)
      ensures this.socket == socket && !upstreamReady && !stopRequested
      ensures Valid() && !closed && capturing && captured == [] && wire == []
    {
      this.socket, clock := socket, 0;
      pending, queuedFrames, queuedBytes := [], [], 0;
      capturing, upstreamReady, stopRequested, endSent, closed := true, false, false, false, false;
      captured, made, sent, dropped, wire := [], [], [], 0, [];
      new;
      Initially();
      hide Orderly, Latest, Complete, TotalBytes;
    }

    method Look() returns (m: Moment)
      modifies this`clock
      ensures m == socket(old(clock)) && clock == old(clock) + 1
      ensures old(Core()) ==> Core()
    {
      m := socket(clock);
      clock := clock + 1;
    }

    /** Ends the session for good and frees what it holds. */
    method Cleanup()
      requires Orderly(wire, made, sent, endSent) && (!upstreamReady ==> wire == [])
      requires endSent ==> stopRequested && upstreamReady
      requires closed ==> Core()
      modifies this`closed, this`pending, this`queuedFrames, this`queuedBytes, this`capturing
      ensures Core() && closed && pending == []
    {
      if closed {
        return;
      }
      closed := true;
      pending, queuedFrames, queuedBytes := [], [], 0;
      capturing := false;
    }

    /** Queues a frame, or the end of one that is larger than the whole buffer, dropping the
        oldest frames only as far as it needs room. */
    method BufferFrame(whole: Samples)
      requires Core() && !closed && !endSent
      modifies this`queuedFrames, this`queuedBytes, this`made, this`dropped
      ensures Core() && made == old(made) + [Kept(whole)] && dropped >= old(dropped)
      ensures MadeRoom(old(queuedFrames), dropped - old(dropped), Kept(whole))
      ensures queuedFrames == old(queuedFrames)[dropped - old(dropped)..] + [Kept(whole)]
    {
      hide Latest, Orderly, TotalBytes;
      var frame := whole;
      if ByteLength(frame) > AUDIO_BUFFER_MAX_BYTES {
        frame := frame[|frame| - AUDIO_BUFFER_MAX_BYTES / 2..];
      }
      ghost var before, gone: nat := queuedFrames, 0;
      while queuedFrames != [] && queuedBytes + ByteLength(frame) > AUDIO_BUFFER_MAX_BYTES
        modifies this`queuedFrames, this`queuedBytes, this`dropped
        invariant dropped == old(dropped) + gone && MadeRoom(before, gone, frame) && queuedFrames == before[gone..]
        invariant Latest(queuedFrames, made, sent, dropped) && queuedBytes == TotalBytes(queuedFrames) <= AUDIO_BUFFER_MAX_BYTES
        decreases |queuedFrames|
      {
        OneMoreGone(before, gone, frame);
        FirstLeaves(queuedFrames, made, sent, dropped);
        queuedBytes := queuedBytes - ByteLength(queuedFrames[0]);
        queuedFrames := queuedFrames[1..];
        dropped, gone := dropped + 1, gone + 1;
      }
      EmptyQueue(queuedFrames);
      OneMoreMade(queuedFrames, made, sent, dropped, frame);
      OrderlyStill(wire, made, sent, frame);
      queuedFrames := queuedFrames + [frame];
      queuedBytes := queuedBytes + ByteLength(frame);
      made := made + [frame];
    }

    method SendEnd() returns (done: bool)
      requires Core() && stopRequested && pending == []
      modifies this`clock, this`endSent, this`wire, this`closed, this`pending, this`queuedFrames, this`queuedBytes, this`capturing
      ensures Core() && pending == [] && (old(closed) ==> closed) && (closed || queuedFrames == old(queuedFrames))
      ensures done <==> !old(endSent) && old(queuedFrames) == [] && upstreamReady && !old(closed)
                        && socket(old(clock)).open && !socket(old(clock) + 1).throws
      ensures done ==> endSent && wire == old(wire) + [End] && !closed
      ensures !done ==> wire == old(wire) && endSent == old(endSent)
      ensures clock > 0 && (closed || endSent || old(queuedFrames) != [] || !upstreamReady || !socket(clock - 1).open)
      ensures clock >= old(clock) && (Trouble(old(clock)) || (closed == old(closed) && (queuedFrames == [] && upstreamReady && !closed ==> endSent)))
    {
      var m := Look();
      // The socket of a closed session is not open any more.
      if endSent || queuedFrames != [] || !upstreamReady || !m.open || closed {
        return false;
      }
      m := Look();
      if m.throws {
        Cleanup();
        return false;
      }
      wire := wire + [End];
      endSent := true;
      return true;
    }

    /** Takes the oldest frame from the queue and sends it; a send that throws ends the session. */
    method SendFirst() returns (good: bool)
      requires Core() && !closed && upstreamReady && queuedFrames != []
      modifies this`clock, this`wire, this`sent, this`closed, this`pending, this`queuedFrames, this`queuedBytes, this`capturing
      ensures Core() && good == !closed
      ensures good ==> pending == old(pending) && queuedFrames == old(queuedFrames)[1..] && wire == old(wire) + [Audio(old(queuedFrames)[0])]
      ensures !good ==> pending == [] && wire == old(wire)
      ensures clock >= old(clock) && (Trouble(old(clock)) || closed == old(closed))
    {
      hide Latest, Orderly, TotalBytes;
      FirstLeaves(queuedFrames, made, sent, dropped);
      OneMoreSent(wire, made, sent, queuedFrames, dropped);
      var frame := queuedFrames[0];
      ghost var number := |made| - |queuedFrames|;
      queuedFrames := queuedFrames[1..];
      queuedBytes := queuedBytes - ByteLength(frame);
      var m := Look();
      if m.throws {
        Cleanup();
        return false;
      }
      wire, sent := wire + [Audio(frame)], sent + [number];
      return true;
    }

    /** Sends queued frames, n of them, while the socket takes them, and the end behind the last. */
    method FlushBufferedFrames() returns (good: bool, ghost n: nat)
      requires Core() && (stopRequested ==> pending == [])
      modifies this`clock, this`endSent, this`wire, this`sent, this`closed, this`pending, this`queuedFrames, this`queuedBytes, this`capturing
      ensures Core() && (stopRequested ==> pending == []) && (!good ==> closed) && (good && !stopRequested ==> !closed)
      ensures (old(closed) ==> closed) && (closed || pending == old(pending))
      ensures !closed ==>
                && n <= |old(queuedFrames)| && queuedFrames == old(queuedFrames)[n..]
                && wire == old(wire) + AsAudio(old(queuedFrames)[..n]) + (if endSent && !old(endSent) then [End] else [])
      ensures !closed && upstreamReady && old(socket(clock).open) ==>
                && clock > 0
                && (queuedFrames != [] ==> socket(clock - 1).buffered >= SOCKET_BUFFER_MAX_BYTES)
                && (queuedFrames == [] && stopRequested ==> endSent || !socket(clock - 1).open)
      ensures !closed && (!upstreamReady || !old(socket(clock).open)) ==> n == 0 && endSent == old(endSent)
      ensures clock >= old(clock) && (Trouble(old(clock)) || (closed == old(closed) && Flushed()))
    {
      hide Core, AsAudio, Trouble;
      n := 0;
      if closed {
        return false, n;
      }
      var m := Look();
      TroubleNow(old(clock));
      if !upstreamReady || !m.open {
        NothingOut(old(wire), queuedFrames);
        return true, n;
      }
      ghost var earlier := clock;
      good, n := SendQueued();
      TroubleSince(old(clock), earlier);
      earlier := clock;
      if good && stopRequested && queuedFrames == [] {
        var _ := SendEnd();
        TroubleSince(old(clock), earlier);
      }
      NoEndOut(old(wire) + AsAudio(old(queuedFrames)[..n]));
    }

    /** The sending loop. */
    method SendQueued() returns (good: bool, ghost n: nat)
      requires Core() && !closed && upstreamReady && (stopRequested ==> pending == [])
      modifies this`clock, this`wire, this`sent, this`closed, this`pending, this`queuedFrames, this`queuedBytes, this`capturing
      ensures Core() && good == !closed && (!good ==> pending == []) && n <= |old(queuedFrames)|
      ensures good ==> pending == old(pending) && queuedFrames == old(queuedFrames)[n..]
                       && wire == old(wire) + AsAudio(old(queuedFrames)[..n])
      ensures good ==> clock > 0 && (queuedFrames != [] ==> socket(clock - 1).buffered >= SOCKET_BUFFER_MAX_BYTES)
      ensures clock >= old(clock) && (Trouble(old(clock)) || (closed == old(closed) && queuedFrames == []))
    {
      hide Latest, Orderly, TotalBytes, AsAudio;
      n := 0;
      ghost var queue := queuedFrames;
      assert old(wire) + AsAudio(queue[..0]) == old(wire) by { NoAudio(); }
      var m := Look();
      while queuedFrames != [] && m.buffered < SOCKET_BUFFER_MAX_BYTES
        invariant Core() && !closed && pending == old(pending)
        invariant n <= |queue| && queuedFrames == queue[n..] && wire == old(wire) + AsAudio(queue[..n])
        invariant clock > old(clock) && m == socket(clock - 1)
        decreases |queuedFrames|
      {
        MoreAudio(old(wire), queue, n);
        good := SendFirst();
        if !good {
          return;
        }
        n := n + 1;
        m := Look();
      }
      good := true;
    }

    method QueueOrSendFrame(frame: Samples) returns (good: bool)
      requires Core() && (endSent ==> closed) && (stopRequested ==> pending == [])
      modifies this`clock, this`endSent, this`wire, this`sent, this`closed, this`pending, this`queuedFrames, this`queuedBytes, this`capturing,
               this`made, this`dropped
      ensures Core() && (stopRequested ==> pending == []) && (!good ==> closed) && (good && !stopRequested ==> !closed)
      ensures (old(closed) ==> closed) && (closed || pending == old(pending))
      ensures made == if old(closed) then old(made) else old(made) + [Kept(frame)]
      ensures clock >= old(clock) && (Trouble(old(clock)) || (closed == old(closed) && Flushed()))
    {
      if closed {
        return false;
      }
      BufferFrame(frame);
      ghost var n;
      good, n := FlushBufferedFrames();
    }

    /** Makes a last, short frame of the pending samples. */
    method FlushPendingTail() returns (good: bool)
      requires Core() && (endSent ==> pending == []) && (closed || Complete(made, [], pending, captured)) && |pending| < FRAME_SAMPLES
      modifies this`clock, this`endSent, this`wire, this`sent, this`closed, this`pending, this`queuedFrames, this`queuedBytes, this`capturing,
               this`made, this`dropped
      ensures Core() && pending == [] && (!good ==> closed) && made == old(made) + TailOf(old(pending))
      ensures (old(closed) ==> closed) && (closed || Complete(made, [], pending, captured))
      ensures clock >= old(clock) && (Trouble(old(clock)) || (closed == old(closed) && (old(Flushed()) && !old(stopRequested && !endSent) ==> Flushed())))
    {
      if pending == [] {
        return true;
      }
      hide Orderly, Latest, TotalBytes;
      var tail := pending;
      TakeAll(made, pending, captured);
      Made(made, tail, [], captured);
      pending := [];
      good := QueueOrSendFrame(tail);
    }

    method EndIfStopped()
      requires Core() && pending == []
      modifies this`clock, this`endSent, this`wire, this`closed, this`pending, this`queuedFrames, this`queuedBytes, this`capturing
      ensures Core() && pending == [] && (old(closed) ==> closed)
      ensures clock >= old(clock) && (Trouble(old(clock)) || (closed == old(closed) && (old(Flushed()) ==> Flushed())))
    {
      hide Orderly, Latest, TotalBytes;
      if stopRequested {
        var _ := SendEnd();
      }
    }

    /** Queues the tail and flushes. */
    method FlushAndEnd() returns (good: bool)
      requires Core() && (endSent ==> pending == []) && (closed || Complete(made, [], pending, captured)) && |pending| < FRAME_SAMPLES
      modifies this`clock, this`endSent, this`wire, this`sent, this`closed, this`pending, this`queuedFrames, this`queuedBytes, this`capturing,
               this`made, this`dropped
      ensures Core() && pending == [] && (!good ==> closed) && made == old(made) + TailOf(old(pending))
      ensures (old(closed) ==> closed) && (closed || Complete(made, [], pending, captured))
      ensures clock >= old(clock) && (Trouble(old(clock)) || (closed == old(closed) && Flushed()))
    {
      hide Orderly, Latest, Complete, TotalBytes, AsAudio, TailOf;
      good := FlushPendingTail();
      if good {
        ghost var n;
        good, n := FlushBufferedFrames();
      }
    }

    // ------------------------------------------------------------------------------------
    // Events

    /** The audio callback. */
    method OnAudio(chunk: Samples)
      requires Valid()
      modifies this`clock, this`endSent, this`wire, this`sent, this`closed, this`pending, this`queuedFrames, this`queuedBytes, this`capturing,
               this`made, this`dropped, this`captured
      ensures Valid()
      ensures captured == old(captured) + (if old(capturing) && !old(closed) then chunk else [])
      ensures old(made) <= made && forall k :: |old(made)| <= k < |made| ==> |made[k]| == FRAME_SAMPLES
      ensures clock >= old(clock) && (Trouble(old(clock)) || (closed == old(closed) && (old(Flushed()) ==> Flushed())))
    {
      if !capturing || closed {
        return;
      }
      hide Orderly, Latest, Trouble, Flushed;
      MoreCaptured(made, pending, captured, chunk);
      captured := captured + chunk;
      pending := pending + chunk;
      while |pending| >= FRAME_SAMPLES
        invariant Core() && Complete(made, [], pending, captured)
        invariant !closed && !endSent && !stopRequested && captured == old(captured) + chunk
        invariant old(made) <= made && forall k :: |old(made)| <= k < |made| ==> |made[k]| == FRAME_SAMPLES
        invariant clock >= old(clock) && (Trouble(old(clock)) || (old(Flushed()) ==> Flushed()))
        decreases |pending|
      {
        ghost var earlier := clock;
        var frame := pending[..FRAME_SAMPLES];
        TakeFrame(made, pending, captured);
        Made(made, frame, pending[FRAME_SAMPLES..], captured);
        pending := pending[FRAME_SAMPLES..];
        var good := QueueOrSendFrame(frame);
        TroubleSince(old(clock), earlier);
        if !good {
          return;
        }
      }
    }

    method BecomeReady()
      requires Core() && !endSent
      modifies this`upstreamReady
      ensures Core() && upstreamReady
    {
      upstreamReady := true;
    }

    /** The server is ready for audio. */
    method OnReady()
      requires Valid()
      modifies this`clock, this`endSent, this`wire, this`sent, this`closed, this`pending, this`queuedFrames, this`queuedBytes, this`capturing,
               this`made, this`dropped, this`upstreamReady
      ensures Valid() && upstreamReady == (old(upstreamReady) || !old(closed))
      ensures old(closed || upstreamReady) ==> made == old(made) && wire == old(wire)
      ensures !old(closed || upstreamReady) ==> pending == [] && made == old(made) + TailOf(old(pending))
      ensures clock >= old(clock) && (Trouble(old(clock)) || (closed == old(closed) && (old(Flushed()) ==> Flushed())))
    {
      if closed || upstreamReady {
        return;
      }
      hide Core, Complete, TailOf;
      BecomeReady();
      var good := FlushAndEnd();
      if good {
        EndIfStopped();
      }
    }

    /** The user stops speaking: capture ends, the rest goes out as the socket allows. */
    method Stop()
      requires Valid()
      modifies this`clock, this`endSent, this`wire, this`sent, this`closed, this`pending, this`queuedFrames, this`queuedBytes, this`capturing,
               this`made, this`dropped, this`stopRequested
      ensures Valid() && !capturing && stopRequested == (old(stopRequested) || !old(closed))
      ensures old(closed || stopRequested) ==> made == old(made) && wire == old(wire)
      ensures !old(closed || stopRequested) ==> stopRequested && pending == [] && made == old(made) + TailOf(old(pending))
      ensures clock >= old(clock)
      ensures Trouble(old(clock)) || (closed == old(closed) && (old(Flushed()) || !old(stopRequested) ==> Flushed()))
    {
      if closed || stopRequested {
        return;
      }
      hide Complete, TailOf, Orderly, Latest, TotalBytes;
      stopRequested := true;
      capturing := false;
      hide Core;
      var _ := FlushAndEnd();
    }

    /** The timer. */
    method OnTick() returns (ghost n: nat)
      requires Valid()
      modifies this`clock, this`endSent, this`wire, this`sent, this`closed, this`pending, this`queuedFrames, this`queuedBytes, this`capturing
      ensures Valid()
      ensures !closed ==>
                && n <= |old(queuedFrames)| && queuedFrames == old(queuedFrames)[n..] && pending == old(pending)
                && wire == old(wire) + AsAudio(old(queuedFrames)[..n]) + (if endSent && !old(endSent) then [End] else [])
      ensures !closed && upstreamReady && old(socket(clock).open) && queuedFrames != [] ==>
                clock > 0 && socket(clock - 1).buffered >= SOCKET_BUFFER_MAX_BYTES
      ensures clock >= old(clock) && (Trouble(old(clock)) || (closed == old(closed) && Flushed()))
    {
      hide Orderly, Latest, Complete, TotalBytes, AsAudio;
      var good;
      good, n := FlushBufferedFrames();
    }

    /** A final or error message, a socket error or close, a cancel, or the last timeout. */
    method OnEnd()
      requires Valid()
      modifies this`closed, this`pending, this`queuedFrames, this`queuedBytes, this`capturing
      ensures Valid() && closed
    {
      Cleanup();
    }

    method Handle(event: Event)
      requires Valid()
      modifies this
      ensures Valid() && clock >= old(clock)
      ensures Trouble(old(clock)) || (closed == (old(closed) || event == Ended) && (old(Flushed()) ==> Flushed()))
      ensures upstreamReady == (old(upstreamReady) || (event == Ready && !old(closed)))
      ensures stopRequested == (old(stopRequested) || (event == Stopped && !old(closed)))
    {
      hide Core, Complete, Orderly, Latest, Trouble, AsAudio, TailOf;
      match event
      case Spoken(chunk) => OnAudio(chunk);
      case Ready => OnReady();
      case Stopped => Stop();
      case Ticked => var _ := OnTick();
      case Ended => OnEnd();
    }
  }

  // ---------------------------------------------------------------------------------------
  // What a listener hears

  /** The frames on the wire, in order. */
  function Heard(wire: seq<Message>): seq<Samples> {
    if wire == [] then [] else if wire[0].Audio? then [wire[0].frame] + Heard(wire[1..]) else Heard(wire[1..])
  }

  lemma {:induction false} HeardFrames(wire: seq<Message>, n: nat)
    requires n <= |wire| && forall k :: 0 <= k < n ==> wire[k].Audio?
    requires forall k :: n <= k < |wire| ==> wire[k].End?
    ensures |Heard(wire)| == n && forall k :: 0 <= k < n ==> Heard(wire)[k] == wire[k].frame
    decreases |wire|
  {
    if wire != [] {
      HeardFrames(wire[1..], if n > 0 then n - 1 else 0);
    }
  }

  lemma {:induction false} AllBelow(sent: seq<nat>, k: nat)
    requires k < |sent| && forall i, j :: 0 <= i < j < |sent| ==> sent[i] < sent[j]
    requires forall j :: 0 <= j < |sent| ==> sent[j] < |sent|
    ensures sent[k] >= k
    decreases k
  {
    if k > 0 {
      AllBelow(sent, k - 1);
    }
  }

  lemma {:induction false} AllAbove(sent: seq<nat>, k: nat)
    requires k < |sent| && forall i, j :: 0 <= i < j < |sent| ==> sent[i] < sent[j]
    requires forall j :: 0 <= j < |sent| ==> sent[j] < |sent|
    ensures sent[k] <= k
    decreases |sent| - k
  {
    if k + 1 < |sent| {
      AllAbove(sent, k + 1);
    }
  }

  /** Growing numbers below their own count are 0, 1, 2 and so on. */
  lemma Consecutive(sent: seq<nat>)
    requires forall i, j :: 0 <= i < j < |sent| ==> sent[i] < sent[j]
    requires forall j :: 0 <= j < |sent| ==> sent[j] < |sent|
    ensures forall k :: 0 <= k < |sent| ==> sent[k] == k
  {
    forall k | 0 <= k < |sent|
      ensures sent[k] == k
    {
      AllBelow(sent, k);
      AllAbove(sent, k);
    }
  }

  lemma HeardAll(wire: seq<Message>, made: seq<Samples>, sent: seq<nat>, endSent: bool, queue: seq<Samples>)
    requires Orderly(wire, made, sent, endSent) && Latest(queue, made, sent, 0)
    ensures Heard(wire) + queue == made
  {
    HeardFrames(wire, |sent|);
    Consecutive(sent);
    hide Heard;
    assert Heard(wire) == made[..|sent|];
  }

  /** As long as nothing was dropped, the frames heard, those queued and the samples pending
      are all that was captured, in order. */
  lemma NothingLost(session: Session)
    requires session.Valid() && !session.closed && session.dropped == 0
    ensures Flatten(Heard(session.wire)) + Flatten(session.queuedFrames) + session.pending == session.captured
  {
    HeardAll(session.wire, session.made, session.sent, session.endSent, session.queuedFrames);
    SplitOff(Heard(session.wire), session.queuedFrames);
    assert Complete(session.made, [], session.pending, session.captured);
    hide Orderly, Latest, Heard, Flatten;
    assert Flatten(session.made) + [] == Flatten(session.made);
  }

  /** The end is the last thing on the wire: it is sent once, only after the server was ready
      and the user stopped, and no frame follows it. */
  lemma EndIsLast(session: Session, k: nat)
    requires session.Valid() && k < |session.wire| && session.wire[k].End?
    ensures k == |session.wire| - 1 && session.upstreamReady && session.stopRequested
    ensures !session.closed ==> session.queuedFrames == [] && session.pending == []
  {}

  /** Of the frames made, the ones heard and then the ones queued keep their order, and what is
      missing was older than everything queued. */
  lemma OnlyOldestDropped(session: Session)
    requires session.Valid() && !session.closed
    ensures |Heard(session.wire)| == |session.sent|
    ensures forall k :: 0 <= k < |session.sent| ==>
              session.sent[k] < |session.made| - |session.queuedFrames| && Heard(session.wire)[k] == session.made[session.sent[k]]
    ensures forall j, k :: 0 <= j < k < |session.sent| ==> session.sent[j] < session.sent[k]
    ensures session.queuedFrames == session.made[|session.made| - |session.queuedFrames|..]
    ensures |session.sent| + session.dropped + |session.queuedFrames| == |session.made|
    ensures session.queuedBytes == ByteLength(Flatten(session.queuedFrames)) <= AUDIO_BUFFER_MAX_BYTES
  {
    HeardFrames(session.wire, |session.sent|);
    TotalIsLength(session.queuedFrames);
  }

  lemma {:induction false} TotalIsLength(frames: seq<Samples>)
    ensures TotalBytes(frames) == ByteLength(Flatten(frames))
  {
    if frames != [] {
      TotalIsLength(frames[1..]);
    }
  }

  /** As soon as the server is ready, and as long as the socket takes everything, whatever was
      captured and not dropped is heard but for the samples pending; after a stop nothing is
      pending and the end follows. */
  lemma AllHeard(session: Session)
    requires session.Valid() && session.Flushed() && session.upstreamReady && !session.closed && session.dropped == 0
    ensures Flatten(Heard(session.wire)) + session.pending == session.captured
    ensures session.stopRequested ==> session.pending == [] && session.wire != [] && session.wire[|session.wire| - 1] == End
  {
    NothingLost(session);
    assert session.queuedFrames == [] && Flatten([]) == [];
    assert Flatten(Heard(session.wire)) + [] == Flatten(Heard(session.wire));
    assert session.endSent ==> session.wire[|session.sent|] == End && |session.wire| == |session.sent| + 1;
  }

  ghost predicate Healthy(socket: nat -> Moment) {
    forall k :: Takes(socket(k))
  }

  /** The session has taken in these events, and goes on. */
  ghost predicate Follows(session: Session, seen: seq<Event>)
    reads session
  {
    && !session.closed && session.Flushed()
    && session.upstreamReady == (Ready in seen) && session.stopRequested == (Stopped in seen)
  }

  /** Any session, whatever the user, the server and the socket do, and in any order. On a socket that
      takes everything the session goes on until it is ended, and keeps nothing back that it could send. */
  method Live(socket: nat -> Moment, events: seq<Event>) returns (session: Session)
    ensures fresh(session) && session.Valid()
    ensures Healthy(socket) && Ended !in events ==> Follows(session, events)
  {
    session := new Session(socket);
    hide Session.Valid;
    for k := 0 to |events|
      invariant fresh(session) && session.Valid() && session.socket == socket
      invariant Healthy(socket) && Ended !in events ==> Follows(session, events[..k])
    {
      session.Handle(events[k]);
      assert events[..k + 1] == events[..k] + [events[k]];
    }
    assert events[..|events|] == events;
  }
}
