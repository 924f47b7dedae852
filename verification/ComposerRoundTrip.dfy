/** What a message looks like after a trip through the composer's document. */
module ComposerRoundTrip {
  import opened Whitespace
  import opened ComposerDocument

  /** A segment with the delimiters the composer writes. */
  function Out(s: Segment): string {
    match s
    case Text(value) => value
    case Inline(_, body) => "\\(" + Trim(body) + "\\)"
    case Block(_, body) => "\\[" + Trim(body) + "\\]"
  }

  /** The canonical message: text as it is, formulas trimmed and in backslash delimiters,
      and a newline where two blocks have nothing between them. `adjacent` says that a
      block has just ended. */
  function CanonicalFrom(adjacent: bool, segs: seq<Segment>): string
    decreases |segs|
  {
    if segs == [] then ""
    else
      var s := segs[0];
      (if adjacent && s.Block? then "\n" else "") + Out(s)
      + CanonicalFrom(s.Block? || (adjacent && Raw(s) == ""), segs[1..])
  }

  function Canonical(segs: seq<Segment>): string {
    CanonicalFrom(false, segs)
  }

  predicate NoBlocks(run: seq<Segment>) {
    forall k :: 0 <= k < |run| ==> !run[k].Block?
  }

  predicate HasBlock(segs: seq<Segment>) {
    segs != [] && (segs[0].Block? || HasBlock(segs[1..]))
  }

  // ---------------------------------------------------------------------------------------
  // Runs of text and inline formulas

  function OutAll(run: seq<Segment>): string {
    if run == [] then "" else Out(run[0]) + OutAll(run[1..])
  }

  lemma {:induction false} RunText(run: seq<Segment>)
    requires NoBlocks(run)
    ensures SerializeInline(InlineNodes(run)) == OutAll(run)
    ensures InlineNodes(run) == [] <==> RawAll(run) == ""
    ensures OutAll(run) == "" <==> RawAll(run) == ""
    ensures Newlines(RawAll(run)) ==> OutAll(run) == RawAll(run)
  {
    if run != [] {
      RunText(run[1..]);
      var s, rest := run[0], InlineNodes(run[1..]);
      if s.Inline? {
        TrimTwice(s.body);
        assert ([InlineMath(Trim(s.body))] + rest)[1..] == rest;
        assert RawAll(run)[0] == Raw(s)[0] != '\n';
      } else if s.value == "" {
        assert [] + rest == rest && "" + RawAll(run[1..]) == RawAll(run[1..]);
      } else {
        assert ([TextNode(s.value)] + rest)[1..] == rest;
        NewlinesSplit(s.value, RawAll(run[1..]));
      }
    }
  }

  lemma NewlinesSplit(a: string, b: string)
    ensures Newlines(a + b) <==> Newlines(a) && Newlines(b)
  {
    assert forall k :: 0 <= k < |a| ==> (a + b)[k] == a[k];
    assert forall k :: 0 <= k < |b| ==> (a + b)[|a| + k] == b[k];
  }

  lemma NonEmptyConcat(a: string, b: string)
    ensures a + b == "" <==> a == "" && b == ""
  {
    assert |a + b| == |a| + |b|;
  }

  lemma {:induction false} CanonicalOfRun(adjacent: bool, run: seq<Segment>, segs: seq<Segment>)
    requires NoBlocks(run)
    ensures CanonicalFrom(adjacent, run + segs) == OutAll(run) + CanonicalFrom(adjacent && RawAll(run) == "", segs)
  {
    hide Out, Raw;
    if run == [] {
      assert [] + segs == segs && RawAll(run) == "" == OutAll(run);
      hide *;
      assert "" + CanonicalFrom(adjacent, segs) == CanonicalFrom(adjacent, segs);
    } else {
      var s, rest := run[0], run[1..];
      assert (run + segs)[1..] == rest + segs && (run + segs)[0] == s;
      var next := adjacent && Raw(s) == "";
      CanonicalOfRun(next, rest, segs);
      NonEmptyConcat(Raw(s), RawAll(rest));
      assert CanonicalFrom(adjacent, run + segs) == "" + Out(s) + CanonicalFrom(next, rest + segs);
      assert (next && RawAll(rest) == "") == (adjacent && RawAll(run) == "");
      assert OutAll(run) == Out(s) + OutAll(rest);
      hide *;
      Assoc(Out(s), OutAll(rest), CanonicalFrom(adjacent && RawAll(run) == "", segs));
      assert "" + Out(s) == Out(s);
    }
  }

  // ---------------------------------------------------------------------------------------
  // The shape of the documents the composer builds, and their text

  datatype Place = AtStart | BehindBlock | BehindText | BehindEmpty

  function Behind(n: TopNode): Place {
    if n.BlockMath? then BehindBlock else if IsEmpty(n) then BehindEmpty else BehindText
  }

  /** Text paragraphs stand next to blocks only; empty ones only between blocks. */
  predicate Shaped(p: Place, content: seq<TopNode>)
    decreases |content|
  {
    if content == [] then !p.BehindEmpty?
    else
      (match Behind(content[0])
       case BehindBlock => true
       case BehindEmpty => p.BehindBlock? || p.BehindEmpty?
       case _ => p.AtStart? || p.BehindBlock?)
      && Shaped(Behind(content[0]), content[1..])
  }

  /** The text of a shaped document: a newline in front of each node that has no text next to it. */
  function Flat(p: Place, content: seq<TopNode>): string
    decreases |content|
  {
    if content == [] then ""
    else
      (if p.AtStart? || p.BehindText? || Behind(content[0]).BehindText? then "" else "\n")
      + NodeText(content[0]) + Flat(Behind(content[0]), content[1..])
  }

  function Before(content: seq<TopNode>, i: nat): Place
    requires i <= |content|
  {
    if i == 0 then AtStart else Behind(content[i - 1])
  }

  lemma {:induction false} ShapedAt(content: seq<TopNode>, i: nat)
    requires Shaped(AtStart, content) && i <= |content|
    ensures Shaped(Before(content, i), content[i..])
  {
    if i == 0 {
      assert content[0..] == content;
    } else {
      ShapedAt(content, i - 1);
      assert content[i - 1..][1..] == content[i..];
    }
  }

  lemma {:induction false} EndsAtBlock(content: seq<TopNode>, i: nat)
    requires Shaped(AtStart, content) && i < |content| && !Behind(content[i]).BehindText?
    ensures RunEndsAtBlock(content, i)
    decreases |content| - i
  {
    ShapedAt(content, i);
    if IsEmpty(content[i]) {
      ShapedAt(content, i + 1);
      EndsAtBlock(content, i + 1);
    }
  }

  lemma {:induction false} StartsAtBlock(content: seq<TopNode>, i: nat)
    requires Shaped(AtStart, content) && i <= |content| && !Before(content, i).BehindText?
    ensures RunStartsAtBlock(content, i)
  {
    if i > 0 && IsEmpty(content[i - 1]) {
      ShapedAt(content, i - 1);
      StartsAtBlock(content, i - 1);
    }
  }

  lemma SeparatorIs(content: seq<TopNode>, i: nat)
    requires Shaped(AtStart, content) && 0 < i < |content|
    ensures Separator(content, i) ==
            if Behind(content[i - 1]).BehindText? || Behind(content[i]).BehindText? then "" else "\n"
  {
    ShapedAt(content, i);
    if !Behind(content[i]).BehindText? {
      EndsAtBlock(content, i);
    }
    if !Behind(content[i - 1]).BehindText? {
      StartsAtBlock(content, i);
    }
  }

  lemma {:induction false} JoinedIsFlat(content: seq<TopNode>, i: nat)
    requires Shaped(AtStart, content) && i <= |content|
    ensures Joined(content, i) == Flat(Before(content, i), content[i..])
    decreases |content| - i
  {
    hide Separator, NodeText;
    if i < |content| {
      JoinedIsFlat(content, i + 1);
      assert content[i..][1..] == content[i + 1..];
      if i > 0 {
        SeparatorIs(content, i);
      }
    }
  }

  lemma OneMoreNewline(m: nat, tail: string)
    requires m > 0
    ensures "\n" + "" + (Repeat('\n', m - 1) + tail) == Repeat('\n', m) + tail
  {}

  /** Empty paragraphs and then a block, behind a block: one newline for each of them. */
  lemma {:induction false} EmptiesThenBlock(p: Place, m: nat, rest: seq<TopNode>)
    requires p.BehindBlock? || p.BehindEmpty?
    requires rest != [] && rest[0].BlockMath?
    ensures Shaped(p, Repeat(EMPTY, m) + rest) == Shaped(p, rest)
    ensures Flat(p, Repeat(EMPTY, m) + rest) == Repeat('\n', m) + Flat(p, rest)
    decreases m
  {
    var all := Repeat(EMPTY, m) + rest;
    if m == 0 {
      assert all == rest && Repeat('\n', 0) + Flat(p, rest) == Flat(p, rest);
    } else {
      assert all[1..] == Repeat(EMPTY, m - 1) + rest && all[0] == EMPTY;
      EmptiesThenBlock(BehindEmpty, m - 1, rest);
      assert Flat(p, all) == "\n" + "" + Flat(BehindEmpty, all[1..]);
      assert Flat(BehindEmpty, rest) == Flat(p, rest);
      OneMoreNewline(m, Flat(p, rest));
    }
  }

  // ---------------------------------------------------------------------------------------
  // A document without the paragraphs behind its last block

  predicate CaretOnly(run: seq<Segment>, before: bool) {
    before && Newlines(RawAll(run))
  }

  function BodyFrom(run: seq<Segment>, before: bool, segs: seq<Segment>): seq<TopNode>
    decreases |segs|
  {
    if segs == [] then if CaretOnly(run, before) then [] else RunNodes(run, before, false)
    else if segs[0].Block? then
      RunNodes(run, before, true) + [BlockMath(Trim(segs[0].body))] + BodyFrom([], true, segs[1..])
    else BodyFrom(run + [segs[0]], before, segs[1..])
  }

  /** How many paragraphs stand behind the last block. */
  function TrailFrom(run: seq<Segment>, before: bool, segs: seq<Segment>): nat
    decreases |segs|
  {
    if segs == [] then if CaretOnly(run, before) then 1 + |RawAll(run)| else 0
    else if segs[0].Block? then TrailFrom([], true, segs[1..])
    else TrailFrom(run + [segs[0]], before, segs[1..])
  }

  function TrailText(run: seq<Segment>, before: bool, segs: seq<Segment>): string {
    var m := TrailFrom(run, before, segs);
    Repeat('\n', if m == 0 then 0 else m - 1)
  }

  lemma {:induction false} DocumentIsBodyAndTrail(run: seq<Segment>, before: bool, segs: seq<Segment>)
    ensures DocumentFrom(run, before, segs) == BodyFrom(run, before, segs) + Repeat(EMPTY, TrailFrom(run, before, segs))
    decreases |segs|
  {
    if segs == [] {
    } else if segs[0].Block? {
      DocumentIsBodyAndTrail([], true, segs[1..]);
    } else {
      DocumentIsBodyAndTrail(run + [segs[0]], before, segs[1..]);
    }
  }

  function PlaceOf(before: bool): Place {
    if before then BehindBlock else AtStart
  }

  /** What a run before a block reads as. */
  ghost predicate ReadsBefore(run: seq<Segment>, before: bool, nodes: seq<TopNode>, rest: seq<TopNode>)
    requires rest != []
  {
    && Shaped(PlaceOf(before), nodes + rest)
    && Flat(PlaceOf(before), nodes + rest) ==
       OutAll(run) + (if before && RawAll(run) == "" then "\n" else "") + NodeText(rest[0]) + Flat(BehindBlock, rest[1..])
  }

  lemma FlatBlock(p: Place, rest: seq<TopNode>)
    requires rest != [] && rest[0].BlockMath?
    ensures Flat(p, rest) == (if p.AtStart? || p.BehindText? then "" else "\n") + (NodeText(rest[0]) + Flat(BehindBlock, rest[1..]))
    ensures Shaped(p, rest) == Shaped(BehindBlock, rest[1..])
  {
    var gap := if p.AtStart? || p.BehindText? then "" else "\n";
    assert Behind(rest[0]) == BehindBlock;
    hide NodeText, Behind;
    assert Flat(p, rest) == gap + NodeText(rest[0]) + Flat(BehindBlock, rest[1..]);
    hide Flat;
    Assoc(gap, NodeText(rest[0]), Flat(BehindBlock, rest[1..]));
  }

  lemma BlankRunThenBlock(run: seq<Segment>, rest: seq<TopNode>)
    requires NoBlocks(run) && rest != [] && rest[0].BlockMath? && Shaped(BehindBlock, rest[1..]) && Newlines(RawAll(run))
    ensures ReadsBefore(run, true, RunNodes(run, true, true), rest)
  {
    hide NodeText, Flat, Shaped, RawAll, OutAll;
    RunText(run);
    FlatBlock(BehindBlock, rest);
    var source := RawAll(run);
    var m := if |source| <= 1 then 0 else |source| - 1;
    EmptiesThenBlock(BehindBlock, m, rest);
    var tail := NodeText(rest[0]) + Flat(BehindBlock, rest[1..]);
    assert Repeat('\n', m) + "\n" == if source == "" then "\n" else source;
    assert Repeat('\n', m) + ("\n" + tail) == (Repeat('\n', m) + "\n") + tail;
  }

  lemma FlatText(p: Place, node: TopNode, rest: seq<TopNode>)
    requires Behind(node).BehindText? && (p.AtStart? || p.BehindBlock?)
    ensures Flat(p, [node] + rest) == NodeText(node) + Flat(BehindText, rest)
    ensures Shaped(p, [node] + rest) == Shaped(BehindText, rest)
  {
    assert ([node] + rest)[1..] == rest;
    hide NodeText;
    assert "" + NodeText(node) == NodeText(node);
  }

  lemma TextRunThenBlock(run: seq<Segment>, before: bool, rest: seq<TopNode>)
    requires NoBlocks(run) && rest != [] && rest[0].BlockMath? && Shaped(BehindBlock, rest[1..]) && RawAll(run) != ""
    ensures ReadsBefore(run, before, [Paragraph(InlineNodes(run))], rest)
  {
    RunText(run);
    var p := Paragraph(InlineNodes(run));
    assert NodeText(p) == OutAll(run) && Behind(p) == BehindText;
    hide RawAll, OutAll, InlineNodes, SerializeInline, Behind, Flat, Shaped, NodeText;
    FlatText(PlaceOf(before), p, rest);
    FlatBlock(BehindText, rest);
    Regroup(OutAll(run), "", NodeText(rest[0]), Flat(BehindBlock, rest[1..]));
    assert "" + NodeText(rest[0]) == NodeText(rest[0]) && "" + (NodeText(rest[0]) + Flat(BehindBlock, rest[1..])) == NodeText(rest[0]) + Flat(BehindBlock, rest[1..]);
  }

  /** A run before a block, and the block. */
  lemma RunThenBlock(run: seq<Segment>, before: bool, rest: seq<TopNode>)
    requires NoBlocks(run) && rest != [] && rest[0].BlockMath? && Shaped(BehindBlock, rest[1..])
    ensures ReadsBefore(run, before, RunNodes(run, before, true), rest)
  {
    RunText(run);
    if before && Newlines(RawAll(run)) {
      BlankRunThenBlock(run, rest);
    } else if RawAll(run) == "" {
      hide NodeText, Flat, Shaped, RawAll, OutAll;
      FlatBlock(AtStart, rest);
      assert RunNodes(run, before, true) + rest == rest;
    } else {
      TextRunThenBlock(run, before, rest);
    }
  }

  lemma RunAtEnd(run: seq<Segment>)
    requires NoBlocks(run) && !CaretOnly(run, true)
    ensures var nodes := RunNodes(run, true, false);
            |nodes| == 1 && Behind(nodes[0]).BehindText? && NodeText(nodes[0]) == OutAll(run)
  {
    RunText(run);
  }

  /** The body is shaped, does not end in an empty paragraph, and reads as the canonical message. */
  ghost predicate Reads(run: seq<Segment>, before: bool, segs: seq<Segment>) {
    var body := BodyFrom(run, before, segs);
    && Shaped(PlaceOf(before), body)
    && (body == [] ==> before)
    && (body != [] ==> !IsEmpty(body[|body| - 1]))
    && (body != [] && TrailFrom(run, before, segs) > 0 ==> body[|body| - 1].BlockMath?)
    && Flat(PlaceOf(before), body) + TrailText(run, before, segs) == CanonicalFrom(before, run + segs)
  }

  lemma BlankEndReads(run: seq<Segment>)
    requires NoBlocks(run) && CaretOnly(run, true)
    ensures Reads(run, true, [])
  {
    RunText(run);
    CanonicalOfRun(true, run, []);
    var source := RawAll(run);
    assert BodyFrom(run, true, []) == [] && TrailFrom(run, true, []) == 1 + |source|;
    assert TrailText(run, true, []) == source;
    assert Flat(BehindBlock, []) == "" == CanonicalFrom(source == "", []);
    hide BodyFrom, TrailFrom, TrailText, Flat, CanonicalFrom, RawAll, OutAll, IsEmpty;
    assert "" + source == source + "";
  }

  lemma TextEndReads(run: seq<Segment>)
    requires NoBlocks(run) && !CaretOnly(run, true)
    ensures Reads(run, true, [])
  {
    CanonicalOfRun(true, run, []);
    RunAtEnd(run);
    var nodes := RunNodes(run, true, false);
    assert BodyFrom(run, true, []) == nodes && TrailText(run, true, []) == "";
    assert nodes == [nodes[0]] + [];
    FlatText(BehindBlock, nodes[0], []);
    assert Flat(BehindText, []) == "" == CanonicalFrom(RawAll(run) == "", []) && Shaped(BehindText, []);
    assert !IsEmpty(nodes[0]) && TrailFrom(run, true, []) == 0;
    hide BodyFrom, TrailFrom, TrailText, Flat, CanonicalFrom, RawAll, OutAll, IsEmpty, RunNodes, Shaped, NodeText;
    assert OutAll(run) + "" == OutAll(run) == (OutAll(run) + "") + "";
  }

  lemma Regroup5(o: string, g: string, t: string, f: string, trail: string)
    ensures (o + g + t + f) + trail == o + (g + t + (f + trail))
  {}

  lemma BlockReads(run: seq<Segment>, before: bool, segs: seq<Segment>)
    requires NoBlocks(run) && segs != [] && segs[0].Block? && Reads([], true, segs[1..])
    ensures Reads(run, before, segs)
  {
    assert forall latex :: !IsEmpty(BlockMath(latex));
    hide RunNodes, Shaped, RawAll, OutAll, CanonicalFrom, IsEmpty, SerializeInline, Trim;
    var block, later := BlockMath(Trim(segs[0].body)), BodyFrom([], true, segs[1..]);
    var rest, nodes := [block] + later, RunNodes(run, before, true);
    assert rest[1..] == later && rest[0] == block;
    RunThenBlock(run, before, rest);
    assert BodyFrom(run, before, segs) == nodes + rest by {
      hide *;
      BodyOfBlock(run, before, segs);
    }
    BlockReadsAs(run, before, segs);
    hide BodyFrom, Flat;
    var body := nodes + rest;
    assert body[|body| - 1] == rest[|rest| - 1] == if later == [] then block else later[|later| - 1];
  }

  lemma BodyOfBlock(run: seq<Segment>, before: bool, segs: seq<Segment>)
    requires segs != [] && segs[0].Block?
    ensures BodyFrom(run, before, segs) ==
            RunNodes(run, before, true) + ([BlockMath(Trim(segs[0].body))] + BodyFrom([], true, segs[1..]))
    ensures TrailText(run, before, segs) == TrailText([], true, segs[1..])
  {
    hide RunNodes, Trim;
  }

  lemma BlockReadsAs(run: seq<Segment>, before: bool, segs: seq<Segment>)
    requires NoBlocks(run) && segs != [] && segs[0].Block? && Reads([], true, segs[1..])
    requires ReadsBefore(run, before, RunNodes(run, before, true), [BlockMath(Trim(segs[0].body))] + BodyFrom([], true, segs[1..]))
    ensures Flat(PlaceOf(before), BodyFrom(run, before, segs)) + TrailText(run, before, segs) == CanonicalFrom(before, run + segs)
  {
    CanonicalOfRun(before, run, segs);
    BodyOfBlock(run, before, segs);
    TrimTwice(segs[0].body);
    var block, later := BlockMath(Trim(segs[0].body)), BodyFrom([], true, segs[1..]);
    assert NodeText(block) == Out(segs[0]);
    var gap := if before && RawAll(run) == "" then "\n" else "";
    assert [] + segs[1..] == segs[1..];
    hide BodyFrom, TrailFrom, TrailText, RunNodes, NodeText, Out, Shaped, RawAll, OutAll, Flat, IsEmpty, Trim;
    assert CanonicalFrom(before, run + segs) == OutAll(run) + (gap + Out(segs[0]) + CanonicalFrom(true, segs[1..]));
    hide CanonicalFrom;
    assert ([block] + later)[1..] == later;
    Regroup5(OutAll(run), gap, NodeText(block), Flat(BehindBlock, later), TrailText(run, before, segs));
  }

  lemma StepReads(run: seq<Segment>, before: bool, segs: seq<Segment>)
    requires segs != [] && !segs[0].Block? && Reads(run + [segs[0]], before, segs[1..])
    ensures Reads(run, before, segs)
  {
    assert (run + [segs[0]]) + segs[1..] == run + segs;
    assert BodyFrom(run, before, segs) == BodyFrom(run + [segs[0]], before, segs[1..]);
    assert TrailFrom(run, before, segs) == TrailFrom(run + [segs[0]], before, segs[1..]);
    hide BodyFrom, TrailFrom, Shaped, Flat, CanonicalFrom, IsEmpty;
  }

  lemma {:induction false} BodyReads(run: seq<Segment>, before: bool, segs: seq<Segment>)
    requires NoBlocks(run) && (before || HasBlock(segs))
    ensures Reads(run, before, segs)
    decreases |segs|
  {
    hide Reads;
    if segs == [] {
      if CaretOnly(run, before) {
        BlankEndReads(run);
      } else {
        TextEndReads(run);
      }
    } else if segs[0].Block? {
      BodyReads([], true, segs[1..]);
      BlockReads(run, before, segs);
    } else {
      BodyReads(run + [segs[0]], before, segs[1..]);
      StepReads(run, before, segs);
    }
  }

  // ---------------------------------------------------------------------------------------
  // The trip

  lemma {:induction false} CanonicalKeepsNoReturns(adjacent: bool, segs: seq<Segment>)
    requires NoReturns(RawAll(segs))
    ensures NoReturns(CanonicalFrom(adjacent, segs))
    decreases |segs|
  {
    if segs != [] {
      var s := segs[0];
      ReturnsSplit(Raw(s), RawAll(segs[1..]));
      OutKeepsNoReturns(s);
      var next := s.Block? || (adjacent && Raw(s) == "");
      CanonicalKeepsNoReturns(next, segs[1..]);
      hide Out, Raw;
      var gap := if adjacent && s.Block? then "\n" else "";
      ReturnsSplit(gap, Out(s));
      ReturnsSplit(gap + Out(s), CanonicalFrom(next, segs[1..]));
    }
  }

  lemma {:induction false} TrimKeepsNoReturns(s: string)
    requires NoReturns(s)
    ensures NoReturns(Trim(s))
    decreases |s|
  {
    if s != [] && IsSpace(s[0]) {
      TrimKeepsNoReturns(s[1..]);
    } else {
      TrimEndIsPrefix(s);
    }
  }

  lemma OutKeepsNoReturns(s: Segment)
    requires NoReturns(Raw(s))
    ensures NoReturns(Out(s))
  {
    if !s.Text? {
      assert forall k :: 0 <= k < |s.body| ==> s.body[k] == Raw(s)[|Raw(s)| - |s.body| - (if s.style.Dollars? && s.Inline? then 1 else 2) + k];
      TrimKeepsNoReturns(s.body);
    }
  }

  lemma TrailOf(body: seq<TopNode>, m: nat)
    requires body == [] || !IsEmpty(body[|body| - 1])
    ensures TrailStart(body + Repeat(EMPTY, m)) == |body|
  {
    var content := body + Repeat(EMPTY, m);
    var t := TrailStart(content);
    assert forall k :: |body| <= k < |content| ==> content[k] == EMPTY && IsEmpty(content[k]);
    assert body != [] ==> content[|body| - 1] == body[|body| - 1];
  }

  lemma {:induction false} NoBlockAnywhere(run: seq<Segment>, segs: seq<Segment>)
    requires NoBlocks(run) && !HasBlock(segs)
    ensures NoBlocks(run + segs) && DocumentFrom(run, false, segs) == [Paragraph(InlineNodes(run + segs))]
    decreases |segs|
  {
    if segs == [] {
      assert run + segs == run;
    } else {
      assert (run + [segs[0]]) + segs[1..] == run + segs;
      NoBlockAnywhere(run + [segs[0]], segs[1..]);
    }
  }

  lemma OnlyInline(segs: seq<Segment>)
    requires !HasBlock(segs)
    ensures Joined(Document(segs), 0) == Canonical(segs) && |Document(segs)| == 1
  {
    NoBlockAnywhere([], segs);
    assert [] + segs == segs && segs + [] == segs;
    RunText(segs);
    CanonicalOfRun(false, segs, []);
  }

  lemma BodyAndTrail(body: seq<TopNode>, m: nat)
    requires body != [] && !IsEmpty(body[|body| - 1]) && (m > 0 ==> body[|body| - 1].BlockMath?) && Shaped(AtStart, body)
    ensures Unnormalized(body + Repeat(EMPTY, m)) == Flat(AtStart, body) + Repeat('\n', if m == 0 then 0 else m - 1)
  {
    TrailOf(body, m);
    JoinedIsFlat(body, 0);
    hide Joined, Flat, Shaped, IsEmpty, TrailStart;
    var content := body + Repeat(EMPTY, m);
    assert content[..|body|] == body && body[0..] == body;
    if m == 0 {
      assert content == body && Flat(AtStart, body) + Repeat('\n', 0) == Flat(AtStart, body);
    }
  }

  lemma WithBlocks(segs: seq<Segment>)
    requires HasBlock(segs)
    ensures Unnormalized(Document(segs)) == Canonical(segs)
  {
    BodyReads([], false, segs);
    DocumentIsBodyAndTrail([], false, segs);
    assert [] + segs == segs;
    hide Shaped, Flat, IsEmpty, BodyFrom, TrailFrom, DocumentFrom, Unnormalized, CanonicalFrom;
    BodyAndTrail(BodyFrom([], false, segs), TrailFrom([], false, segs));
  }

  /** Whatever the segments, the message that comes back is the canonical one: only formulas
      and directly adjacent blocks are touched, and every other run of blank lines, at the
      start, between blocks or at the end, keeps its length. */
  lemma RoundTrip(segs: seq<Segment>)
    requires NoReturns(RawAll(segs))
    ensures Value(Document(segs)) == Canonical(segs)
  {
    CanonicalKeepsNoReturns(false, segs);
    NormalizeDropsReturns(Canonical(segs));
    if HasBlock(segs) {
      WithBlocks(segs);
    } else {
      OnlyInline(segs);
    }
  }

  // ---------------------------------------------------------------------------------------
  // The canonical message's own segments

  function CanonicalSegment(s: Segment): Segment {
    match s
    case Text(_) => s
    case Inline(_, body) => Inline(Backslash, Trim(body))
    case Block(_, body) => Block(Backslash, Trim(body))
  }

  const NEWLINE := Text("\n")

  function CanonicalSegments(adjacent: bool, segs: seq<Segment>): seq<Segment>
    decreases |segs|
  {
    if segs == [] then []
    else
      var s := segs[0];
      (if adjacent && s.Block? then [NEWLINE] else []) + [CanonicalSegment(s)]
      + CanonicalSegments(s.Block? || (adjacent && Raw(s) == ""), segs[1..])
  }

  lemma {:induction false} RawOfConcat(a: seq<Segment>, b: seq<Segment>)
    ensures RawAll(a + b) == RawAll(a) + RawAll(b)
  {
    hide Raw;
    if a == [] {
      assert [] + b == b && RawAll(a) == "";
      assert "" + RawAll(b) == RawAll(b);
    } else {
      var s, rest := a[0], a[1..];
      RawOfConcat(rest, b);
      assert (a + b)[0] == s && (a + b)[1..] == rest + b;
      assert RawAll(a + b) == Raw(s) + RawAll(rest + b) && RawAll(a) == Raw(s) + RawAll(rest);
      hide *;
      Assoc(Raw(s), RawAll(rest), RawAll(b));
    }
  }

  lemma RawOfOne(s: Segment)
    ensures RawAll([s]) == Raw(s)
  {
    hide Raw;
    assert RawAll([s][1..]) == "";
  }

  lemma RawOfGap(adjacent: bool, one: Segment)
    ensures RawAll((if adjacent then [NEWLINE] else []) + [one]) == (if adjacent then "\n" else "") + Raw(one)
  {
    RawOfOne(one);
    RawOfOne(NEWLINE);
    var gap := if adjacent then [NEWLINE] else [];
    assert RawAll(gap) == if adjacent then "\n" else "";
    hide *;
    RawOfConcat(gap, [one]);
  }

  lemma CanonicalRaw(s: Segment)
    ensures Raw(CanonicalSegment(s)) == Out(s)
  {}

  /** They spell the canonical message. */
  lemma {:induction false} CanonicalSegmentsSpell(adjacent: bool, segs: seq<Segment>)
    ensures RawAll(CanonicalSegments(adjacent, segs)) == CanonicalFrom(adjacent, segs)
    decreases |segs|
  {
    hide CanonicalSegment, Out, Raw;
    if segs != [] {
      var s := segs[0];
      var next := s.Block? || (adjacent && Raw(s) == "");
      CanonicalSegmentsSpell(next, segs[1..]);
      var front := (if adjacent && s.Block? then [NEWLINE] else []) + [CanonicalSegment(s)];
      var later := CanonicalSegments(next, segs[1..]);
      assert CanonicalSegments(adjacent, segs) == front + later;
      hide CanonicalSegments, RawAll;
      RawOfGap(adjacent && s.Block?, CanonicalSegment(s));
      CanonicalRaw(s);
      RawOfConcat(front, later);
    }
  }

  /** Two runs that every decision of the converter treats alike. */
  ghost predicate SameRun(a: seq<Segment>, b: seq<Segment>) {
    && InlineNodes(a) == InlineNodes(b)
    && (RawAll(a) == "" <==> RawAll(b) == "")
    && (Newlines(RawAll(a)) <==> Newlines(RawAll(b)))
    && (Newlines(RawAll(a)) ==> RawAll(a) == RawAll(b))
  }

  lemma {:induction false} InlineOfConcat(a: seq<Segment>, b: seq<Segment>)
    ensures InlineNodes(a + b) == InlineNodes(a) + InlineNodes(b)
  {
    if a == [] {
      assert [] + b == b;
    } else {
      var s, rest := a[0], a[1..];
      InlineOfConcat(rest, b);
      assert (a + b)[0] == s && (a + b)[1..] == rest + b;
      InlineOfFirst(s, rest + b, a + b);
      InlineOfFirst(s, rest, a);
      hide *;
      Assoc(InlineOne(s), InlineNodes(rest), InlineNodes(b));
    }
  }

  function InlineOne(s: Segment): seq<InlineNode> {
    match s
    case Text(value) => if value == "" then [] else [TextNode(value)]
    case Inline(_, body) => [InlineMath(Trim(body))]
    case Block(_, _) => []
  }

  lemma InlineOfFirst(s: Segment, rest: seq<Segment>, all: seq<Segment>)
    requires all != [] && all[0] == s && all[1..] == rest
    ensures InlineNodes(all) == InlineOne(s) + InlineNodes(rest)
  {}

  lemma SameRunExtended(a: seq<Segment>, b: seq<Segment>, s: Segment, t: Segment)
    requires SameRun(a, b) && !s.Block?
    requires t == CanonicalSegment(s)
    ensures SameRun(a + [t], b + [s])
  {
    InlineOfConcat(a, [t]);
    InlineOfConcat(b, [s]);
    RawOfConcat(a, [t]);
    RawOfConcat(b, [s]);
    RawOfOne(s);
    RawOfOne(t);
    NewlinesSplit(RawAll(a), Raw(t));
    NewlinesSplit(RawAll(b), Raw(s));
    if s.Inline? {
      TrimTwice(s.body);
      assert Raw(t)[0] != '\n' && Raw(s)[0] != '\n';
    }
    assert InlineNodes([t][1..]) == [] && InlineNodes([s][1..]) == [];
    assert InlineNodes([t]) == InlineNodes([s]);
  }

  lemma SameNodes(a: seq<Segment>, b: seq<Segment>, before: bool, after: bool)
    requires SameRun(a, b)
    ensures RunNodes(a, before, after) == RunNodes(b, before, after)
  {}

  /** The newline put between adjacent blocks makes no node. */
  lemma NoNodeForTheNewline(a: seq<Segment>, b: seq<Segment>)
    requires SameRun(a, b) && RawAll(b) == ""
    ensures RunNodes(a + [NEWLINE], true, true) == [] == RunNodes(b, true, true)
  {
    RawOfConcat(a, [NEWLINE]);
    RawOfOne(Text("\n"));
  }

  lemma DocumentOfFirst(run: seq<Segment>, before: bool, s: Segment, rest: seq<Segment>)
    ensures DocumentFrom(run, before, [s] + rest) ==
            if s.Block? then RunNodes(run, before, true) + [BlockMath(Trim(s.body))] + DocumentFrom([], true, rest)
            else DocumentFrom(run + [s], before, rest)
  {
    assert ([s] + rest)[1..] == rest;
    hide RunNodes, Trim;
  }

  lemma SameDocumentAtBlock(a: seq<Segment>, b: seq<Segment>, before: bool, segs: seq<Segment>)
    requires SameRun(a, b) && segs != [] && segs[0].Block?
    requires DocumentFrom([], true, CanonicalSegments(true, segs[1..])) == DocumentFrom([], true, segs[1..])
    ensures DocumentFrom(a, before, CanonicalSegments(before && RawAll(b) == "", segs)) == DocumentFrom(b, before, segs)
  {
    hide DocumentFrom, SameRun, RunNodes, RawAll, Trim;
    var adjacent := before && RawAll(b) == "";
    var block, later := CanonicalSegment(segs[0]), CanonicalSegments(true, segs[1..]);
    TrimTwice(segs[0].body);
    DocumentOfFirst(b, before, segs[0], segs[1..]);
    assert segs == [segs[0]] + segs[1..];
    if adjacent {
      NoNodeForTheNewline(a, b);
      assert CanonicalSegments(adjacent, segs) == [NEWLINE] + [block] + later;
      Assoc([NEWLINE], [block], later);
      DocumentOfFirst(a, before, NEWLINE, [block] + later);
      DocumentOfFirst(a + [NEWLINE], before, block, later);
    } else {
      SameNodes(a, b, before, true);
      assert CanonicalSegments(adjacent, segs) == [] + [block] + later == [block] + later;
      DocumentOfFirst(a, before, block, later);
    }
  }

  /** They make the same document. */
  lemma {:induction false} SameDocument(a: seq<Segment>, b: seq<Segment>, before: bool, segs: seq<Segment>)
    requires SameRun(a, b)
    ensures DocumentFrom(a, before, CanonicalSegments(before && RawAll(b) == "", segs)) == DocumentFrom(b, before, segs)
    decreases |segs|
  {
    if segs == [] {
      SameNodes(a, b, before, false);
    } else if segs[0].Block? {
      SameDocument([], [], true, segs[1..]);
      SameDocumentAtBlock(a, b, before, segs);
    } else {
      var s, adjacent := segs[0], before && RawAll(b) == "";
      var t := CanonicalSegment(s);
      var made := CanonicalSegments(adjacent, segs);
      SameRunExtended(a, b, s, t);
      RawOfConcat(b, [s]);
      RawOfOne(s);
      hide RunNodes, Trim, RawAll, Raw, SameRun, InlineNodes;
      assert made[0] == t && made[1..] == CanonicalSegments(adjacent && Raw(s) == "", segs[1..]);
      NonEmptyConcat(RawAll(b), Raw(s));
      SameDocument(a + [t], b + [s], before, segs[1..]);
    }
  }

  /** The trip is idempotent: the canonical message's segments make the same document again,
      and from it the same message. */
  lemma Idempotent(segs: seq<Segment>)
    requires NoReturns(RawAll(segs))
    ensures var again := CanonicalSegments(false, segs);
            && RawAll(again) == Value(Document(segs))
            && Document(again) == Document(segs)
            && Value(Document(again)) == Value(Document(segs))
  {
    RoundTrip(segs);
    CanonicalSegmentsSpell(false, segs);
    SameDocument([], [], false, segs);
  }
}
