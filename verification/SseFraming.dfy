/** The incremental SSE framer of the API client, on decoded text. */
module SseFraming {
  import opened Prelude
  import opened Whitespace

  // ------------------------------------------------------------------- framing

  predicate SepAt(s: string, i: nat) {
    i + 1 < |s| && s[i] == '\n' && s[i + 1] == '\n'
  }

  predicate NoSep(s: string) {
    forall i: nat :: i < |s| ==> !SepAt(s, i)
  }

  /** `buf.indexOf('\n\n')` from a position on; -1 when there is none. */
  function IndexOfSep(s: string, from: nat): (r: int)
    requires from <= |s|
    ensures r == -1 || (from <= r && SepAt(s, r))
    ensures forall i: nat :: from <= i < |s| && (r == -1 || i < r) ==> !SepAt(s, i)
    decreases |s| - from
  {
    if from == |s| then -1
    else if SepAt(s, from) then from
    else IndexOfSep(s, from + 1)
  }

  /** The complete frames of a text, and what is left over. */
  datatype Cut = Cut(raws: seq<string>, rest: string)

  function Frames(s: string): Cut
    decreases |s|
  {
    var i := IndexOfSep(s, 0);
    if i == -1 then Cut([], s)
    else
      var c := Frames(s[i + 2..]);
      Cut([s[..i]] + c.raws, c.rest)
  }

  function Joined(raws: seq<string>): string {
    if raws == [] then "" else raws[0] + "\n\n" + Joined(raws[1..])
  }

  /** What a framing is, whoever computes it: the pieces make up the text, and no
      separator could have been found earlier. */
  ghost predicate Framed(text: string, c: Cut) {
    && text == Joined(c.raws) + c.rest
    && NoSep(c.rest)
    && forall r <- c.raws :: NoSep(r + "\n")
  }

  lemma FirstPieceHasNoSep(s: string, i: nat)
    requires SepAt(s, i) && forall k: nat :: k < i ==> !SepAt(s, k)
    ensures NoSep(s[..i] + "\n")
  {
    forall k: nat | k < i + 1 ensures !SepAt(s[..i] + "\n", k) {
      assert k < i ==> !SepAt(s, k);
    }
  }

  lemma PieceInFront(r: string, t: string, c: Cut)
    requires NoSep(r + "\n") && Framed(t, c)
    ensures Framed(r + "\n\n" + t, Cut([r] + c.raws, c.rest))
  {
    assert ([r] + c.raws)[1..] == c.raws;
    assert Joined([r] + c.raws) == r + "\n\n" + Joined(c.raws);
    assert r + "\n\n" + Joined(c.raws) + c.rest == r + "\n\n" + (Joined(c.raws) + c.rest);
  }

  lemma {:induction false} FramesAreFramed(s: string)
    ensures Framed(s, Frames(s))
    decreases |s|
  {
    var i := IndexOfSep(s, 0);
    if i == -1 {
      assert s == Joined([]) + s;
    } else {
      FramesAreFramed(s[i + 2..]);
      FirstPieceHasNoSep(s, i);
      PieceInFront(s[..i], s[i + 2..], Frames(s[i + 2..]));
      assert s == s[..i] + "\n\n" + s[i + 2..];
    }
  }

  lemma FirstPieceNotLonger(r1: string, t1: string, r2: string, t2: string)
    requires NoSep(r2 + "\n") && r1 + "\n\n" + t1 == r2 + "\n\n" + t2
    ensures |r2| <= |r1|
  {
    var s := r1 + "\n\n" + t1;
    assert SepAt(s, |r1|);
    assert r2 + "\n" == s[..|r2| + 1];
    assert |r1| <= |r2| ==> !SepAt(r2 + "\n", |r1|);
  }

  lemma FirstPieceFixed(r1: string, t1: string, r2: string, t2: string)
    requires NoSep(r1 + "\n") && NoSep(r2 + "\n")
    requires r1 + "\n\n" + t1 == r2 + "\n\n" + t2
    ensures r1 == r2 && t1 == t2
  {
    FirstPieceNotLonger(r1, t1, r2, t2);
    FirstPieceNotLonger(r2, t2, r1, t1);
    var s := r1 + "\n\n" + t1;
    assert r1 == s[..|r1|] && t1 == s[|r1| + 2..];
    assert r2 == s[..|r2|] && t2 == s[|r2| + 2..];
  }

  lemma JoinedHasSep(raws: seq<string>, rest: string)
    requires raws != []
    ensures !NoSep(Joined(raws) + rest)
  {
    var s := Joined(raws) + rest;
    assert s == raws[0] + "\n\n" + (Joined(raws[1..]) + rest);
    assert SepAt(s, |raws[0]|);
  }

  /** A text has only one framing. */
  lemma {:induction false} FramingUnique(text: string, c: Cut, d: Cut)
    requires Framed(text, c) && Framed(text, d)
    ensures c == d
    decreases |c.raws|
  {
    if c.raws == [] || d.raws == [] {
      if c.raws != [] {
        JoinedHasSep(c.raws, c.rest);
      }
      if d.raws != [] {
        JoinedHasSep(d.raws, d.rest);
      }
      assert Joined([]) + c.rest == c.rest && Joined([]) + d.rest == d.rest;
    } else {
      var t1, t2 := Joined(c.raws[1..]) + c.rest, Joined(d.raws[1..]) + d.rest;
      assert text == c.raws[0] + "\n\n" + t1 && text == d.raws[0] + "\n\n" + t2;
      FirstPieceFixed(c.raws[0], t1, d.raws[0], t2);
      FramingUnique(t1, Cut(c.raws[1..], c.rest), Cut(d.raws[1..], d.rest));
      assert c.raws == [c.raws[0]] + c.raws[1..] && d.raws == [d.raws[0]] + d.raws[1..];
    }
  }

  lemma {:induction false} JoinedConcat(a: seq<string>, b: seq<string>)
    ensures Joined(a + b) == Joined(a) + Joined(b)
  {
    if a == [] {
      assert a + b == b;
    } else {
      JoinedConcat(a[1..], b);
      assert (a + b)[1..] == a[1..] + b;
    }
  }

  lemma FramingsCompose(a: string, c: Cut, b: string, d: Cut)
    requires Framed(a, c) && Framed(c.rest + b, d)
    ensures Framed(a + b, Cut(c.raws + d.raws, d.rest))
  {
    JoinedConcat(c.raws, d.raws);
    assert Joined(c.raws) + (c.rest + b) == Joined(c.raws) + Joined(d.raws) + d.rest;
  }

  /** Reading on from the leftover gives the framing of the whole text. */
  lemma FramesExtend(a: string, b: string)
    ensures var c := Frames(a);
            var d := Frames(c.rest + b);
            Frames(a + b) == Cut(c.raws + d.raws, d.rest)
  {
    var c := Frames(a);
    var d := Frames(c.rest + b);
    FramesAreFramed(a);
    FramesAreFramed(c.rest + b);
    FramesAreFramed(a + b);
    FramingsCompose(a, c, b, d);
    FramingUnique(a + b, Frames(a + b), Cut(c.raws + d.raws, d.rest));
  }

  // ------------------------------------------------------------- one frame's text

  /** `data` is the text handed to JSON.parse: the parsed value, or the text itself if
      it is not JSON, is a function of it. */
  datatype Frame = Frame(event: string, data: string, id: Option<string>)

  function Lines(s: string): (r: seq<string>)
    ensures |r| > 0
  {
    if s == [] then [""]
    else
      var rest := Lines(s[1..]);
      if s[0] == '\n' then [""] + rest else [[s[0]] + rest[0]] + rest[1..]
  }

  predicate StartsWith(s: string, p: string) {
    p <= s
  }

  /** What `parseSSEFrame` keeps while it goes through the lines. */
  datatype Fields = Fields(event: string, id: Option<string>, data: seq<string>)

  const NO_FIELDS := Fields("message", None, [])

  function ParseLine(f: Fields, line: string): Fields {
    if StartsWith(line, ":") then f
    else
      var g := if StartsWith(line, "id:") then f.(id := Some(Trim(line[3..]))) else f;
      if StartsWith(line, "event:") then g.(event := Trim(line[6..]))
      else if StartsWith(line, "data:") then g.(data := g.data + [TrimStart(line[5..])])
      else g
  }

  function ParseLines(f: Fields, lines: seq<string>): Fields
    decreases |lines|
  {
    if lines == [] then f else ParseLines(ParseLine(f, lines[0]), lines[1..])
  }

  function JoinLines(lines: seq<string>): string {
    if lines == [] then "" else if |lines| == 1 then lines[0] else lines[0] + "\n" + JoinLines(lines[1..])
  }

  function ParseFrame(raw: string): Option<Frame> {
    var f := ParseLines(NO_FIELDS, Lines(raw));
    if f.data == [] then None else Some(Frame(f.event, JoinLines(f.data), f.id))
  }

  function FrameList(f: Option<Frame>): seq<Frame> {
    if f.Some? then [f.value] else []
  }

  function ParseAll(raws: seq<string>): seq<Frame> {
    if raws == [] then []
    else
      FrameList(ParseFrame(raws[0])) + ParseAll(raws[1..])
  }

  lemma {:induction false} ParseAllConcat(a: seq<string>, b: seq<string>)
    ensures ParseAll(a + b) == ParseAll(a) + ParseAll(b)
  {
    hide ParseFrame;
    if a == [] {
      assert a + b == b;
    } else {
      ParseAllConcat(a[1..], b);
      assert (a + b)[1..] == a[1..] + b && (a + b)[0] == a[0];
    }
  }

  // --------------------------------------------------------------- the reading loop

  function Concat(chunks: seq<string>): string {
    if chunks == [] then "" else chunks[0] + Concat(chunks[1..])
  }

  lemma {:induction false} ConcatSnoc(chunks: seq<string>, c: string)
    ensures Concat(chunks + [c]) == Concat(chunks) + c
  {
    if chunks == [] {
      assert chunks + [c] == [c] && Concat([c][1..]) == "";
    } else {
      ConcatSnoc(chunks[1..], c);
      assert (chunks + [c])[1..] == chunks[1..] + [c];
    }
  }

  /** What the text of a whole body means: its complete frames, and at a regular end
      also a last one without its blank line. */
  function BodyFrames(text: string, ended: bool): seq<Frame> {
    var c := Frames(text);
    ParseAll(c.raws) + if ended && |Trim(c.rest)| > 0 then ParseAll([c.rest]) else []
  }

  method ParseSSEFrame(raw: string) returns (frame: Option<Frame>)
    ensures frame == ParseFrame(raw)
  {
    var fields, lines := NO_FIELDS, Lines(raw);
    for i := 0 to |lines|
      invariant ParseLines(fields, lines[i..]) == ParseLines(NO_FIELDS, lines)
    {
      assert lines[i..][1..] == lines[i + 1..];
      fields := ParseLine(fields, lines[i]);
    }
    frame := if fields.data == [] then None else Some(Frame(fields.event, JoinLines(fields.data), fields.id));
  }

  /** The framer of one response body: `readSSEBody`, and the same loop in `streamSSE`. */
  class BodyReader {
    var buf: string

    constructor ()
      ensures buf == ""
    {
      buf := "";
    }

    /** One chunk from the network: whatever frames it completes, in order. */
    method Feed(chunk: string) returns (frames: seq<Frame>)
      modifies this
      ensures buf == Frames(old(buf) + chunk).rest && NoSep(buf)
      ensures frames == ParseAll(Frames(old(buf) + chunk).raws)
    {
      buf := buf + chunk;
      ghost var all := buf;
      ghost var raws := [];
      frames := [];
      var idx := IndexOfSep(buf, 0);
      while idx != -1
        invariant idx == IndexOfSep(buf, 0)
        invariant Frames(all) == Cut(raws + Frames(buf).raws, Frames(buf).rest)
        invariant frames == ParseAll(raws)
        decreases |buf|
      {
        var raw := buf[..idx];
        ghost var before := Frames(buf);
        buf := buf[idx + 2..];
        assert before == Cut([raw] + Frames(buf).raws, Frames(buf).rest);
        assert raws + before.raws == raws + [raw] + Frames(buf).raws;
        ParseAllConcat(raws, [raw]);
        raws := raws + [raw];
        var frame := ParseSSEFrame(raw);
        if frame.Some? {
          frames := frames + [frame.value];
        }
        idx := IndexOfSep(buf, 0);
      }
      assert raws + [] == raws;
      FramesAreFramed(all);
    }

    /** The regular end of the body. */
    method Finish() returns (frames: seq<Frame>)
      ensures frames == if |Trim(buf)| > 0 then ParseAll([buf]) else []
    {
      frames := [];
      if |Trim(buf)| > 0 {
        var frame := ParseSSEFrame(buf);
        if frame.Some? {
          frames := [frame.value];
        }
      }
    }
  }

  /** A whole body, chunk by chunk; a dropped connection (`ended` false) surfaces as an
      error of the next read and discards the buffer. */
  method ReadBody(chunks: seq<string>, ended: bool) returns (frames: seq<Frame>)
    ensures frames == BodyFrames(Concat(chunks), ended)
  {
    var reader := new BodyReader();
    frames := [];
    for i := 0 to |chunks|
      invariant Frames(Concat(chunks[..i])) == Cut(Frames(Concat(chunks[..i])).raws, reader.buf)
      invariant frames == ParseAll(Frames(Concat(chunks[..i])).raws)
    {
      ghost var text := Concat(chunks[..i]);
      FramesExtend(text, chunks[i]);
      ConcatSnoc(chunks[..i], chunks[i]);
      assert chunks[..i + 1] == chunks[..i] + [chunks[i]];
      ParseAllConcat(Frames(text).raws, Frames(reader.buf + chunks[i]).raws);
      var more := reader.Feed(chunks[i]);
      frames := frames + more;
    }
    assert chunks[..|chunks|] == chunks;
    if ended {
      var tail := reader.Finish();
      frames := frames + tail;
    }
  }

  /** What the reading loop yields from a buffer over the chunks still to come. */
  function Reading(buf: string, chunks: seq<string>): seq<Frame>
    decreases |chunks|
  {
    if chunks == [] then []
    else
      var c := Frames(buf + chunks[0]);
      ParseAll(c.raws) + Reading(c.rest, chunks[1..])
  }

  lemma {:induction false} ReadingIsFraming(buf: string, chunks: seq<string>)
    requires NoSep(buf)
    ensures Reading(buf, chunks) == ParseAll(Frames(buf + Concat(chunks)).raws)
    decreases |chunks|
  {
    if chunks == [] {
      assert buf + "" == buf;
      FramesAreFramed(buf);
      FramingUnique(buf, Frames(buf), Cut([], buf));
    } else {
      var c := Frames(buf + chunks[0]);
      FramesAreFramed(buf + chunks[0]);
      ReadingIsFraming(c.rest, chunks[1..]);
      FramesExtend(buf + chunks[0], Concat(chunks[1..]));
      assert buf + Concat(chunks) == buf + chunks[0] + Concat(chunks[1..]);
      ParseAllConcat(c.raws, Frames(c.rest + Concat(chunks[1..])).raws);
    }
  }

  /** However a text is cut into chunks, the same frames come out in the same order. */
  lemma ChunkingIrrelevant(chunks: seq<string>, others: seq<string>)
    requires Concat(chunks) == Concat(others)
    ensures Reading("", chunks) == Reading("", others) == ParseAll(Frames(Concat(chunks)).raws)
  {
    ReadingIsFraming("", chunks);
    ReadingIsFraming("", others);
    assert "" + Concat(chunks) == Concat(chunks);
  }
}
