/** The resuming GET stream: reconnect with Last-Event-ID after a dropped read. */
module SseResume {
  import opened Prelude
  import opened Whitespace
  import opened SseFraming

  const MAX_SSE_RETRIES := 3

  // -------------------------------------------------------------- the server's side

  /** An event as the server's writer takes it; an empty id or name is left out. */
  datatype Event = Event(id: string, name: string, body: string)

  /** What goes over the wire between two flushes: an event, or a keep-alive comment. */
  datatype Item = Send(event: Event) | Ping

  predicate OneLine(s: string) {
    forall i :: 0 <= i < |s| ==> s[i] != '\n'
  }

  /** Ids and names survive the client's trimming, and nothing breaks a line: the body
      is JSON, which starts with no space and escapes line breaks. */
  predicate Clean(e: Event) {
    && OneLine(e.id) && Trim(e.id) == e.id
    && OneLine(e.name) && Trim(e.name) == e.name
    && OneLine(e.body) && TrimStart(e.body) == e.body
  }

  /** A replayable log: every event carries an id, and no two the same. */
  ghost predicate Log(log: seq<Event>) {
    && (forall i :: 0 <= i < |log| ==> Clean(log[i]) && log[i].id != "")
    && (forall i, j :: 0 <= i < j < |log| ==> log[i].id != log[j].id)
  }

  /** The frame text of one item, before its blank line (`SendID`, `Ping`). */
  function RawOf(item: Item): string {
    match item
    case Ping => ": ping"
    case Send(e) =>
      (if e.id == "" then "" else "id: " + e.id + "\n") + (if e.name == "" then "" else "event: " + e.name + "\n") + "data: " + e.body
  }

  function Raws(items: seq<Item>): seq<string> {
    seq(|items|, i requires 0 <= i < |items| => RawOf(items[i]))
  }

  function Wire(items: seq<Item>): string {
    Joined(Raws(items))
  }

  function EventsOf(items: seq<Item>): seq<Event> {
    if items == [] then []
    else (if items[0].Send? then [items[0].event] else []) + EventsOf(items[1..])
  }

  function NonEmpty(s: string): Option<string> {
    if s == "" then None else Some(s)
  }

  function FrameOf(e: Event): Frame {
    Frame(if e.name == "" then "message" else e.name, e.body, NonEmpty(e.id))
  }

  function FramesOf(log: seq<Event>): seq<Frame> {
    seq(|log|, i requires 0 <= i < |log| => FrameOf(log[i]))
  }

  /** The position a client stands at that has seen everything up to `lastId`. */
  ghost predicate StandsAt(log: seq<Event>, lastId: string, pos: nat) {
    pos <= |log| && if pos == 0 then lastId == "" else lastId == log[pos - 1].id
  }

  datatype Ending = Ended | Dropped | Aborted

  /** A failed open (not ok, or thrown), or a body in chunks and how reading it ends. */
  datatype Reply = Refused | Stream(chunks: seq<string>, ending: Ending)

  /** The server replays strictly after Last-Event-ID, with keep-alives anywhere; the
      network may cut the text at any character, but then it says so. */
  ghost predicate Honest(log: seq<Event>, lastId: string, reply: Reply) {
    reply.Stream? ==>
      exists pos: nat, items :: Replays(log, lastId, reply.chunks, reply.ending, pos, items)
  }

  ghost predicate Replays(log: seq<Event>, lastId: string, chunks: seq<string>, ending: Ending, pos: nat, items: seq<Item>) {
    && StandsAt(log, lastId, pos) && EventsOf(items) == log[pos..]
    && Concat(chunks) <= Wire(items) && (ending.Ended? ==> Concat(chunks) == Wire(items))
  }

  // ----------------------------------------------- one frame's text parses back to it

  lemma {:induction false} LinesOfOneLine(s: string)
    requires OneLine(s)
    ensures Lines(s) == [s]
  {
    if s != [] {
      LinesOfOneLine(s[1..]);
      assert s == [s[0]] + s[1..];
    }
  }

  lemma {:induction false} LinesSplit(a: string, b: string)
    requires OneLine(a)
    ensures Lines(a + "\n" + b) == [a] + Lines(b)
  {
    if a == [] {
      assert a + "\n" + b == "\n" + b;
      assert ("\n" + b)[1..] == b;
    } else {
      LinesSplit(a[1..], b);
      assert (a + "\n" + b)[1..] == a[1..] + "\n" + b;
      assert a == [a[0]] + a[1..];
      assert ([a[1..]] + Lines(b))[1..] == Lines(b);
    }
  }

  /** Lines joined are cut into the same lines. */
  lemma {:induction false} LinesOfJoined(ls: seq<string>)
    requires ls != [] && forall k :: 0 <= k < |ls| ==> OneLine(ls[k])
    ensures Lines(JoinLines(ls)) == ls
  {
    if |ls| == 1 {
      LinesOfOneLine(ls[0]);
    } else {
      LinesOfJoined(ls[1..]);
      LinesSplit(ls[0], JoinLines(ls[1..]));
      assert [ls[0]] + ls[1..] == ls;
    }
  }

  lemma TrimAfterColon(s: string)
    ensures Trim(" " + s) == Trim(s) && TrimStart(" " + s) == TrimStart(s)
  {
    assert (" " + s)[1..] == s;
  }

  lemma IdLine(id: string, f: Fields)
    requires Trim(id) == id
    ensures ParseLine(f, "id: " + id) == f.(id := Some(id))
  {
    var line := "id: " + id;
    assert line[3..] == " " + id;
    TrimAfterColon(id);
    assert line[0] == 'i';
  }

  lemma EventLine(name: string, f: Fields)
    requires Trim(name) == name
    ensures ParseLine(f, "event: " + name) == f.(event := name)
  {
    var line := "event: " + name;
    assert line[6..] == " " + name && line[..6] == "event:";
    TrimAfterColon(name);
    assert line[0] == 'e';
  }

  lemma DataLine(d: string, f: Fields)
    requires TrimStart(d) == d
    ensures ParseLine(f, "data: " + d) == f.(data := f.data + [d])
  {
    var line := "data: " + d;
    assert line[5..] == " " + d && line[..5] == "data:";
    TrimAfterColon(d);
    assert line[0] == 'd';
  }

  function IdLines(id: Option<string>): seq<string> {
    if id.Some? then ["id: " + id.value] else []
  }

  function NameLines(name: Option<string>): seq<string> {
    if name.Some? then ["event: " + name.value] else []
  }

  function DataLines(data: seq<string>): (r: seq<string>)
    ensures |r| == |data| && forall k :: 0 <= k < |data| ==> r[k] == "data: " + data[k]
  {
    seq(|data|, k requires 0 <= k < |data| => "data: " + data[k])
  }

  /** The lines of a frame: an id and an event name, if it has them, and its data lines. */
  function FrameLines(id: Option<string>, name: Option<string>, data: seq<string>): seq<string> {
    IdLines(id) + NameLines(name) + DataLines(data)
  }

  lemma {:induction false} ParseLinesConcat(f: Fields, a: seq<string>, b: seq<string>)
    ensures ParseLines(f, a + b) == ParseLines(ParseLines(f, a), b)
    decreases |a|
  {
    hide ParseLine;
    if a == [] {
      assert a + b == b;
    } else {
      assert (a + b)[0] == a[0] && (a + b)[1..] == a[1..] + b;
      ParseLinesConcat(ParseLine(f, a[0]), a[1..], b);
    }
  }

  lemma ParseOneLine(f: Fields, line: string)
    ensures ParseLines(f, [line]) == ParseLine(f, line)
  {
    assert [line][1..] == [];
    hide ParseLine;
  }

  lemma {:induction false} ParseDataLines(f: Fields, data: seq<string>)
    requires forall k :: 0 <= k < |data| ==> TrimStart(data[k]) == data[k]
    ensures ParseLines(f, DataLines(data)) == f.(data := f.data + data)
    decreases |data|
  {
    hide ParseLine;
    if data == [] {
      assert f.data + [] == f.data;
    } else {
      var g := f.(data := f.data + [data[0]]);
      DataLine(data[0], f);
      ParseDataLines(g, data[1..]);
      assert DataLines(data)[1..] == DataLines(data[1..]);
      assert (f.data + [data[0]]) + data[1..] == f.data + data;
    }
  }

  lemma FieldsOfLines(id: Option<string>, name: Option<string>, data: seq<string>)
    requires id.Some? ==> Trim(id.value) == id.value
    requires name.Some? ==> Trim(name.value) == name.value
    requires forall k :: 0 <= k < |data| ==> TrimStart(data[k]) == data[k]
    ensures ParseLines(NO_FIELDS, FrameLines(id, name, data)) ==
            Fields(if name.Some? then name.value else "message", id, data)
  {
    hide ParseLine, Trim, TrimStart;
    var f := NO_FIELDS.(id := id);
    var g := if name.Some? then f.(event := name.value) else f;
    if id.Some? {
      IdLine(id.value, NO_FIELDS);
      ParseOneLine(NO_FIELDS, "id: " + id.value);
    }
    assert ParseLines(NO_FIELDS, IdLines(id)) == f;
    if name.Some? {
      EventLine(name.value, f);
      ParseOneLine(f, "event: " + name.value);
    }
    assert ParseLines(f, NameLines(name)) == g;
    ParseDataLines(g, data);
    ParseLinesConcat(NO_FIELDS, IdLines(id), NameLines(name));
    ParseLinesConcat(NO_FIELDS, IdLines(id) + NameLines(name), DataLines(data));
    assert [] + data == data;
  }

  /** Whatever fields a frame has, with or without an id and a name: it is dropped exactly if it
      has no data line, and else it has that id, that name or `message`, and its data lines
      joined by newlines. */
  lemma FrameRoundTrip(id: Option<string>, name: Option<string>, data: seq<string>)
    requires id.Some? ==> OneLine(id.value) && Trim(id.value) == id.value
    requires name.Some? ==> OneLine(name.value) && Trim(name.value) == name.value
    requires forall k :: 0 <= k < |data| ==> OneLine(data[k]) && TrimStart(data[k]) == data[k]
    ensures ParseFrame(JoinLines(FrameLines(id, name, data))) ==
            if data == [] then None else Some(Frame(if name.Some? then name.value else "message", JoinLines(data), id))
  {
    var ls := FrameLines(id, name, data);
    EachOneLine(id, name, data);
    FieldsOfLines(id, name, data);
    EmptyFrame();
    hide ParseLines, OneLine, Trim, TrimStart, FrameLines, Lines;
    if ls != [] {
      LinesOfJoined(ls);
    }
  }

  lemma EmptyFrame()
    ensures ParseLines(NO_FIELDS, Lines("")) == NO_FIELDS == ParseLines(NO_FIELDS, []) && JoinLines([]) == ""
  {
    LinesOfOneLine("");
    ParseOneLine(NO_FIELDS, "");
  }

  lemma EachOneLine(id: Option<string>, name: Option<string>, data: seq<string>)
    requires id.Some? ==> OneLine(id.value)
    requires name.Some? ==> OneLine(name.value)
    requires forall k :: 0 <= k < |data| ==> OneLine(data[k])
    ensures forall k :: 0 <= k < |FrameLines(id, name, data)| ==> OneLine(FrameLines(id, name, data)[k])
  {}

  /** What the server's writer writes are such lines. */
  lemma WrittenLines(e: Event)
    ensures RawOf(Send(e)) == JoinLines(FrameLines(NonEmpty(e.id), NonEmpty(e.name), [e.body]))
  {
    var data := "data: " + e.body;
    assert DataLines([e.body]) == [data];
    var ls := FrameLines(NonEmpty(e.id), NonEmpty(e.name), [e.body]);
    if e.id != "" && e.name != "" {
      JoinThree("id: " + e.id, "event: " + e.name, data);
      assert ls == ["id: " + e.id, "event: " + e.name, data];
    } else if e.id != "" {
      JoinTwo("id: " + e.id, data);
      assert ls == ["id: " + e.id, data];
    } else if e.name != "" {
      JoinTwo("event: " + e.name, data);
      assert ls == ["event: " + e.name, data];
    } else {
      assert ls == [data];
    }
  }

  lemma JoinTwo(a: string, b: string)
    ensures JoinLines([a, b]) == a + "\n" + b
  {
    assert [a, b][1..] == [b];
  }

  lemma JoinThree(a: string, b: string, c: string)
    ensures JoinLines([a, b, c]) == a + "\n" + (b + "\n" + c)
  {
    assert [a, b, c][1..] == [b, c];
    JoinTwo(b, c);
  }

  /** The client's parser undoes the server's encoder, also for an event without id or name. */
  lemma EventRoundTrip(e: Event)
    requires Clean(e)
    ensures ParseFrame(RawOf(Send(e))) == Some(FrameOf(e))
  {
    WrittenLines(e);
    FrameRoundTrip(NonEmpty(e.id), NonEmpty(e.name), [e.body]);
    assert JoinLines([e.body]) == e.body;
  }

  lemma PingIsSilent()
    ensures ParseFrame(RawOf(Ping)) == None
  {
    LinesOfOneLine(": ping");
    assert ":" <= ": ping";
  }

  lemma LineHasNoSep(a: string)
    requires OneLine(a)
    ensures NoSep(a + "\n")
  {}

  lemma LinesHaveNoSep(a: string, b: string)
    requires OneLine(a) && NoSep(b) && b != "" && b[0] != '\n'
    ensures NoSep(a + "\n" + b)
  {
    var s := a + "\n" + b;
    forall k: nat | k < |s| ensures !SepAt(s, k) {
      if k > |a| {
        assert !SepAt(b, k - |a| - 1);
      }
    }
  }

  lemma {:induction false} JoinedHasNoSep(ls: seq<string>)
    requires ls != [] && forall k :: 0 <= k < |ls| ==> OneLine(ls[k]) && ls[k] != ""
    ensures NoSep(JoinLines(ls) + "\n") && JoinLines(ls) != "" && JoinLines(ls)[0] == ls[0][0]
  {
    if |ls| == 1 {
      LineHasNoSep(ls[0]);
    } else {
      var rest := JoinLines(ls[1..]);
      JoinedHasNoSep(ls[1..]);
      assert ls[1][0] != '\n';
      LinesHaveNoSep(ls[0], rest + "\n");
      assert ls[0] + "\n" + rest + "\n" == ls[0] + "\n" + (rest + "\n");
    }
  }

  lemma RawHasNoSep(item: Item)
    requires item.Send? ==> Clean(item.event)
    ensures NoSep(RawOf(item) + "\n")
  {
    match item
    case Ping => LineHasNoSep(": ping");
    case Send(e) =>
      var ls := FrameLines(NonEmpty(e.id), NonEmpty(e.name), [e.body]);
      WrittenLines(e);
      assert forall k :: 0 <= k < |ls| ==> OneLine(ls[k]) && ls[k] != "";
      hide JoinLines;
      JoinedHasNoSep(ls);
  }

  lemma {:induction false} ParsesToEvents(items: seq<Item>)
    requires forall e <- EventsOf(items) :: Clean(e)
    ensures ParseAll(Raws(items)) == FramesOf(EventsOf(items))
  {
    if items != [] {
      assert EventsOf(items) == (if items[0].Send? then [items[0].event] else []) + EventsOf(items[1..]);
      ParsesToEvents(items[1..]);
      assert Raws(items) == [RawOf(items[0])] + Raws(items[1..]);
      match items[0]
      case Ping => PingIsSilent();
      case Send(e) =>
        assert e in EventsOf(items);
        EventRoundTrip(e);
    }
  }

  lemma {:induction false} ItemsClean(items: seq<Item>, k: nat)
    requires (forall e <- EventsOf(items) :: Clean(e)) && k < |items| && items[k].Send?
    ensures Clean(items[k].event)
  {
    assert EventsOf(items) == (if items[0].Send? then [items[0].event] else []) + EventsOf(items[1..]);
    if k == 0 {
      assert items[0].event in EventsOf(items);
    } else {
      ItemsClean(items[1..], k - 1);
    }
  }

  lemma WireFramed(items: seq<Item>)
    requires forall e <- EventsOf(items) :: Clean(e)
    ensures Frames(Wire(items)) == Cut(Raws(items), "")
  {
    forall r <- Raws(items) ensures NoSep(r + "\n") {
      var k :| 0 <= k < |items| && r == RawOf(items[k]);
      if items[k].Send? {
        ItemsClean(items, k);
      }
      RawHasNoSep(items[k]);
    }
    FramesAreFramed(Wire(items));
    assert Wire(items) == Joined(Raws(items)) + "";
    FramingUnique(Wire(items), Frames(Wire(items)), Cut(Raws(items), ""));
  }

  /** Whatever part of a replay arrives: its frames are the next events, in order and
      without a gap; if the stream ended by itself, they are all of them. */
  lemma BodyIsPrefix(items: seq<Item>, text: string, ended: bool)
    requires forall e <- EventsOf(items) :: Clean(e)
    requires text <= Wire(items) && (ended ==> text == Wire(items))
    ensures BodyFrames(text, ended) <= FramesOf(EventsOf(items))
    ensures ended ==> BodyFrames(text, ended) == FramesOf(EventsOf(items))
  {
    WireFramed(items);
    ParsesToEvents(items);
    if ended {
      assert Frames(text).rest == "" && Trim("") == "";
    } else {
      var more := Wire(items)[|text|..];
      assert Wire(items) == text + more;
      FramesExtend(text, more);
      ParseAllConcat(Frames(text).raws, Frames(Frames(text).rest + more).raws);
    }
  }

  // -------------------------------------------------------------- the client's loop

  /** Why a stream throws: a reply that is no stream, an abort, or its patience. */
  datatype Reason = WasRefused | WasAborted | GaveUp

  datatype End = Finished | Threw(why: Reason)

  /** `counts` has the number of frames each connection brought, in order; a reconnect is
      every entry but the first. */
  ghost predicate Productive(counts: seq<nat>, from: nat)
    requires from + MAX_SSE_RETRIES < |counts|
  {
    exists j :: from <= j <= from + MAX_SSE_RETRIES && counts[j] > 0
  }

  /** No four reconnects in a row bring nothing. */
  ghost predicate Persistent(counts: seq<nat>) {
    forall i: nat :: 1 <= i < |counts| - MAX_SSE_RETRIES ==> Productive(counts, i)
  }

  /** What the retry counter says about the connections so far. */
  ghost predicate CountsRetries(counts: seq<nat>, retryCount: nat) {
    && retryCount <= |counts| && retryCount <= MAX_SSE_RETRIES
    && (|counts| > retryCount ==> retryCount > 0 && counts[|counts| - retryCount] > 0)
    && (forall j :: 0 <= j < |counts| && |counts| - retryCount < j ==> counts[j] == 0)
  }

  ghost predicate Refuses(net: (nat, string) -> Reply, n: nat) {
    exists id :: net(n, id).Refused?
  }

  ghost predicate Aborts(net: (nat, string) -> Reply, n: nat) {
    exists id :: net(n, id).Stream? && net(n, id).ending.Aborted?
  }

  /** The last three reconnects brought nothing. */
  ghost predicate Fruitless(counts: seq<nat>) {
    |counts| > MAX_SSE_RETRIES && forall j :: |counts| - MAX_SSE_RETRIES <= j < |counts| ==> counts[j] == 0
  }

  lemma StillPersistent(counts: seq<nat>, retryCount: nat, n: nat)
    requires Persistent(counts) && CountsRetries(counts, retryCount)
    ensures Persistent(counts + [n])
    ensures var r := (if n > 0 then 0 else retryCount) + 1; r <= MAX_SSE_RETRIES ==> CountsRetries(counts + [n], r)
    ensures n == 0 && retryCount >= MAX_SSE_RETRIES ==> Fruitless(counts + [n])
  {
    forall i: nat | 1 <= i < |counts + [n]| - MAX_SSE_RETRIES ensures Productive(counts + [n], i) {
      if i < |counts| - MAX_SSE_RETRIES {
        assert Productive(counts, i);
        var j :| i <= j <= i + MAX_SSE_RETRIES && counts[j] > 0;
        assert (counts + [n])[j] > 0;
      } else {
        assert (counts + [n])[|counts| - retryCount] > 0;
      }
    }
  }

  lemma SameStand(log: seq<Event>, lastId: string, p: nat, q: nat)
    requires Log(log) && StandsAt(log, lastId, p) && StandsAt(log, lastId, q)
    ensures p == q
  {
    assert forall i :: 0 <= i < |log| ==> Clean(log[i]);
  }

  /** The frames of consecutive events, none left out and none twice. */
  ghost predicate Follows(log: seq<Event>, start: nat, frames: seq<Frame>) {
    start + |frames| <= |log| && forall i :: 0 <= i < |frames| ==> frames[i] == FrameOf(log[start + i])
  }

  /** What one honest connection delivers out of a log that does not grow. */
  lemma ReplyOfLog(log: seq<Event>, lastId: string, pos: nat, items: seq<Item>, reply: Reply)
    requires Log(log) && reply.Stream? && Replays(log, lastId, reply.chunks, reply.ending, pos, items)
    ensures var frames := BodyFrames(Concat(reply.chunks), reply.ending.Ended?);
            Follows(log, pos, frames) && (reply.ending.Ended? ==> pos + |frames| == |log|)
  {
    forall e <- EventsOf(items) ensures Clean(e) {
      var k :| 0 <= k < |log[pos..]| && log[pos..][k] == e;
      assert Clean(log[pos + k]);
    }
    BodyIsPrefix(items, Concat(reply.chunks), reply.ending.Ended?);
    var frames := BodyFrames(Concat(reply.chunks), reply.ending.Ended?);
    forall i | 0 <= i < |frames| ensures frames[i] == FrameOf(log[pos + i]) {
      assert frames[i] == FramesOf(log[pos..])[i];
    }
  }

  /** What one honest connection delivers to a client standing at `pos`, if the log has grown
      to `length` events when it ends. */
  lemma ReplyIsNext(log: seq<Event>, length: nat, lastId: string, pos: nat, reply: Reply)
    requires Log(log) && length <= |log| && StandsAt(log, lastId, pos) && Honest(log[..length], lastId, reply) && reply.Stream?
    ensures var frames := BodyFrames(Concat(reply.chunks), reply.ending.Ended?);
            Follows(log, pos, frames) && (reply.ending.Ended? ==> pos + |frames| == length)
  {
    var early := log[..length];
    var p, items :| Replays(early, lastId, reply.chunks, reply.ending, p, items);
    assert StandsAt(log, lastId, p) by {
      assert p > 0 ==> early[p - 1] == log[p - 1];
    }
    SameStand(log, lastId, pos, p);
    EarlyLog(log, length);
    ReplyOfLog(early, lastId, p, items, reply);
  }

  lemma EarlyLog(log: seq<Event>, length: nat)
    requires Log(log) && length <= |log|
    ensures Log(log[..length])
    ensures forall start: nat, frames :: Follows(log[..length], start, frames) ==> Follows(log, start, frames)
  {
    hide Clean;
  }

  /** What has been yielded is the events after the starting point, none of them
      terminal, and the resume id stands right behind them. */
  ghost predicate OnTrack(log: seq<Event>, start: nat, yielded: seq<Frame>, lastId: string, terminal: Frame -> bool) {
    && Follows(log, start, yielded)
    && StandsAt(log, lastId, start + |yielded|)
    && forall i :: 0 <= i < |yielded| ==> !terminal(yielded[i])
  }

  ghost predicate StoppedAtTerminal(log: seq<Event>, start: nat, yielded: seq<Frame>, terminal: Frame -> bool) {
    && yielded != [] && Follows(log, start, yielded)
    && terminal(yielded[|yielded| - 1])
    && forall i :: 0 <= i < |yielded| - 1 ==> !terminal(yielded[i])
  }

  lemma Advance(log: seq<Event>, start: nat, yielded: seq<Frame>, lastId: string, terminal: Frame -> bool)
    requires Log(log) && OnTrack(log, start, yielded, lastId, terminal) && start + |yielded| < |log|
    ensures var e := log[start + |yielded|];
            && e.id != ""
            && if terminal(FrameOf(e)) then StoppedAtTerminal(log, start, yielded + [FrameOf(e)], terminal)
               else OnTrack(log, start, yielded + [FrameOf(e)], e.id, terminal)
  {
    assert Clean(log[start + |yielded|]);
  }

  /** The `for await` loop over one connection's frames. */
  method Deliver(ghost log: seq<Event>, ghost start: nat, frames: seq<Frame>, yielded: seq<Frame>, lastId: string, retries: nat, terminal: Frame -> bool)
    returns (yielded': seq<Frame>, lastId': string, retries': nat, stopped: bool)
    requires Log(log) && OnTrack(log, start, yielded, lastId, terminal)
    requires Follows(log, start + |yielded|, frames)
    ensures stopped ==> StoppedAtTerminal(log, start, yielded', terminal)
    ensures !stopped ==> OnTrack(log, start, yielded', lastId', terminal) && yielded' == yielded + frames
    ensures !stopped ==> retries' == if |frames| > 0 then 0 else retries
  {
    hide OnTrack, StoppedAtTerminal, Log, Clean;
    yielded', lastId', retries', stopped := yielded, lastId, retries, false;
    for k := 0 to |frames|
      invariant yielded' == yielded + frames[..k] && OnTrack(log, start, yielded', lastId', terminal)
      invariant retries' == if k == 0 then retries else 0
    {
      var frame := frames[k];
      Advance(log, start, yielded', lastId', terminal);
      assert frames[..k + 1] == frames[..k] + [frame];
      if frame.id.Some? && frame.id.value != "" {
        lastId' := frame.id.value;
      }
      retries' := 0;
      yielded' := yielded' + [frame];
      if terminal(frame) {
        stopped := true;
        return;
      }
    }
    assert frames[..|frames|] == frames;
  }

  /** The frames yielded are exactly the events that follow the starting point, each once
      and in order, up to where the stream stopped; it stops regularly only behind the
      first terminal frame or when a connection ended by itself behind all the
      `length` events there were by then. */
  ghost predicate Faithful(log: seq<Event>, length: nat, start: nat, yielded: seq<Frame>, end: End, terminal: Frame -> bool) {
    && Follows(log, start, yielded)
    && (forall i :: 0 <= i < |yielded| - 1 ==> !terminal(yielded[i]))
    && (end.Finished? ==> start + |yielded| == length || (yielded != [] && terminal(yielded[|yielded| - 1])))
  }

  lemma StopsFaithfully(log: seq<Event>, length: nat, start: nat, yielded: seq<Frame>, lastId: string, end: End, terminal: Frame -> bool)
    requires StoppedAtTerminal(log, start, yielded, terminal)
             || (OnTrack(log, start, yielded, lastId, terminal) && (end.Finished? ==> start + |yielded| == length))
    ensures Faithful(log, length, start, yielded, end, terminal)
  {}

  lemma StartsOnTrack(log: seq<Event>, start: nat, lastId: string, terminal: Frame -> bool)
    requires StandsAt(log, lastId, start) && start <= |log|
    ensures OnTrack(log, start, [], lastId, terminal) && Persistent([]) && CountsRetries([], 0)
  {}

  lemma Stands(log: seq<Event>, start: nat, yielded: seq<Frame>, lastId: string, terminal: Frame -> bool)
    requires OnTrack(log, start, yielded, lastId, terminal)
    ensures StandsAt(log, lastId, start + |yielded|) && start + |yielded| <= |log|
  {}

  /** The log only grows: it has `length(n)` events when the n-th connection ends, of those
      that there will ever be. */
  ghost predicate Grows(log: seq<Event>, length: nat -> nat) {
    forall m: nat, n: nat :: m <= n ==> length(m) <= length(n) <= |log|
  }

  ghost predicate HonestAt(log: seq<Event>, length: nat, lastId: string, reply: Reply) {
    length <= |log| && Honest(log[..length], lastId, reply)
  }

  ghost function LastLength(length: nat -> nat, counts: seq<nat>): nat {
    if counts == [] then 0 else length(|counts| - 1)
  }

  /** One connection: its body is read and delivered. */
  method Connect(ghost log: seq<Event>, ghost length: nat, ghost start: nat, yielded: seq<Frame>, lastId: string, retries: nat,
                 terminal: Frame -> bool, reply: Reply, ghost counts: seq<nat>)
    returns (yielded': seq<Frame>, lastId': string, retries': nat, stopped: bool, ghost n: nat)
    requires Log(log) && OnTrack(log, start, yielded, lastId, terminal) && HonestAt(log, length, lastId, reply) && reply.Stream?
    requires Persistent(counts) && CountsRetries(counts, retries)
    ensures Persistent(counts + [n])
    ensures stopped ==> StoppedAtTerminal(log, start, yielded', terminal)
    ensures !stopped ==>
              && OnTrack(log, start, yielded', lastId', terminal) && |yielded'| == |yielded| + n
              && retries' == (if n > 0 then 0 else retries)
              && (reply.ending.Ended? ==> start + |yielded'| == length)
              && (retries' < MAX_SSE_RETRIES ==> CountsRetries(counts + [n], retries' + 1))
              && (retries' >= MAX_SSE_RETRIES ==> Fruitless(counts + [n]))
  {
    Stands(log, start, yielded, lastId, terminal);
    hide OnTrack, Persistent, Fruitless, StoppedAtTerminal, Follows, StandsAt, Honest;
    var frames := ReadBody(reply.chunks, reply.ending.Ended?);
    ReplyIsNext(log, length, lastId, start + |yielded|, reply);
    yielded', lastId', retries', stopped := Deliver(log, start, frames, yielded, lastId, retries, terminal);
    n := |frames|;
    AtMost(counts, retries);
    hide CountsRetries;
    StillPersistent(counts, retries, n);
  }

  lemma AtMost(counts: seq<nat>, retries: nat)
    requires CountsRetries(counts, retries)
    ensures retries <= MAX_SSE_RETRIES
  {}

  /** `streamSSEGet`, against any network `net` that answers the n-th connection for a
      given Last-Event-ID honestly, out of a log that may grow while the client reads and
      reconnects. `asleep` says whether the client is aborted while it waits before it
      reconnects. */
  method StreamGet(ghost log: seq<Event>, ghost length: nat -> nat, ghost start: nat, lastEventId: string, terminal: Frame -> bool,
                   net: (nat, string) -> Reply, asleep: nat -> bool)
    returns (yielded: seq<Frame>, end: End, ghost counts: seq<nat>)
    requires Log(log) && StandsAt(log, lastEventId, start) && Grows(log, length)
    requires forall n, id :: HonestAt(log, length(n), id, net(n, id))
    ensures Faithful(log, LastLength(length, counts), start, yielded, end, terminal)
    ensures Persistent(counts) && (end.Finished? ==> counts != [])
    ensures end == Threw(WasRefused) ==> Refuses(net, |counts|)
    ensures end == Threw(WasAborted) ==> counts != [] && (Aborts(net, |counts| - 1) || asleep(|counts| - 1))
    ensures end == Threw(GaveUp) ==> Fruitless(counts)
  {
    StartsOnTrack(log, start, lastEventId, terminal);
    hide OnTrack, Faithful, Persistent, CountsRetries, Fruitless, StoppedAtTerminal, Follows, HonestAt, Grows;
    yielded, counts := [], [];
    var currentLastId, attempt := lastEventId, 0;
    var retryCount: nat := 0;
    while true
      invariant OnTrack(log, start, yielded, currentLastId, terminal)
      invariant Persistent(counts) && CountsRetries(counts, retryCount) && attempt == |counts|
      decreases |log| - |yielded|, MAX_SSE_RETRIES - retryCount
    {
      Stands(log, start, yielded, currentLastId, terminal);
      var reply := net(attempt, currentLastId);
      attempt := attempt + 1;
      if reply.Refused? {
        StopsFaithfully(log, LastLength(length, counts), start, yielded, currentLastId, Threw(WasRefused), terminal);
        return yielded, Threw(WasRefused), counts;
      }
      var stopped;
      ghost var n;
      yielded, currentLastId, retryCount, stopped, n :=
        Connect(log, length(attempt - 1), start, yielded, currentLastId, retryCount, terminal, reply, counts);
      counts := counts + [n];
      if stopped || !reply.ending.Dropped? || retryCount >= MAX_SSE_RETRIES {
        end := if stopped || reply.ending.Ended? then Finished else if reply.ending.Aborted? then Threw(WasAborted) else Threw(GaveUp);
        StopsFaithfully(log, LastLength(length, counts), start, yielded, currentLastId, end, terminal);
        return;
      }
      retryCount := retryCount + 1;
      if asleep(attempt - 1) {
        StopsFaithfully(log, LastLength(length, counts), start, yielded, currentLastId, Threw(WasAborted), terminal);
        return yielded, Threw(WasAborted), counts;
      }
      Stands(log, start, yielded, currentLastId, terminal);
    }
  }
}
