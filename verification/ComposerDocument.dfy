/** The composer's two conversions: a message, already cut into text and formulas, to an
    editor document and back to a message. */
module ComposerDocument {
  import opened Whitespace

  /** How a formula was delimited: $…$ and $$…$$, or \(…\) and \[…\]. */
  datatype Style = Dollars | Backslash

  datatype Segment = Text(value: string) | Inline(style: Style, body: string) | Block(style: Style, body: string)

  /** The piece of the message a segment stands for. */
  function Raw(s: Segment): string {
    match s
    case Text(value) => value
    case Inline(Dollars, body) => "$" + body + "$"
    case Inline(Backslash, body) => "\\(" + body + "\\)"
    case Block(Dollars, body) => "$$" + body + "$$"
    case Block(Backslash, body) => "\\[" + body + "\\]"
  }

  function RawAll(segs: seq<Segment>): string {
    if segs == [] then "" else Raw(segs[0]) + RawAll(segs[1..])
  }

  datatype InlineNode = TextNode(text: string) | HardBreak | InlineMath(latex: string)

  datatype TopNode = Paragraph(content: seq<InlineNode>) | BlockMath(latex: string)

  const EMPTY := Paragraph([])

  predicate Newlines(s: string) {
    forall k :: 0 <= k < |s| ==> s[k] == '\n'
  }

  function Repeat<T>(x: T, n: nat): (r: seq<T>)
    ensures |r| == n && forall k :: 0 <= k < n ==> r[k] == x
  {
    seq(n, _ => x)
  }

  // ---------------------------------------------------------------------------------------
  // From segments to a document

  function InlineNodes(segs: seq<Segment>): seq<InlineNode> {
    if segs == [] then []
    else
      (match segs[0]
       case Text(value) => if value == "" then [] else [TextNode(value)]
       case Inline(_, body) => [InlineMath(Trim(body))]
       case Block(_, _) => [])
      + InlineNodes(segs[1..])
  }

  function Blocks(nodes: seq<InlineNode>): seq<TopNode> {
    if nodes == [] then [] else [Paragraph(nodes)]
  }

  /** The nodes for a run of text and inline formulas between blocks. */
  function RunNodes(run: seq<Segment>, before: bool, after: bool): seq<TopNode> {
    var source := RawAll(run);
    if !before && !after then [Paragraph(InlineNodes(run))]
    else if before && Newlines(source) then
      Repeat(EMPTY, if !after then 1 + |source| else if |source| <= 1 then 0 else |source| - 1)
    else Blocks(InlineNodes(run))
  }

  method AppendInlineRun(blocks: seq<TopNode>, run: seq<Segment>, before: bool, after: bool) returns (r: seq<TopNode>)
    ensures r == blocks + RunNodes(run, before, after)
  {
    r := blocks;
    var source := RawAll(run);
    if !before && !after {
      r := r + [Paragraph(InlineNodes(run))];
      return;
    }
    if before && after && (source == "" || source == "\n") {
      return;
    }
    if before && after && Newlines(source) {
      for index := 1 to |source|
        invariant r == blocks + Repeat(EMPTY, index - 1)
      {
        assert Repeat(EMPTY, index - 1) + [EMPTY] == Repeat(EMPTY, index);
        r := r + [EMPTY];
      }
      return;
    }
    if before && !after && Newlines(source) {
      r := r + [EMPTY];
      for index := 0 to |source|
        invariant r == blocks + Repeat(EMPTY, index + 1)
      {
        assert Repeat(EMPTY, index + 1) + [EMPTY] == Repeat(EMPTY, index + 2);
        r := r + [EMPTY];
      }
      return;
    }
    var content := InlineNodes(run);
    if |content| > 0 {
      r := r + [Paragraph(content)];
    }
  }

  /** The document of the segments that follow a pending run. */
  function DocumentFrom(run: seq<Segment>, before: bool, segs: seq<Segment>): seq<TopNode>
    decreases |segs|
  {
    if segs == [] then RunNodes(run, before, false)
    else if segs[0].Block? then
      RunNodes(run, before, true) + [BlockMath(Trim(segs[0].body))] + DocumentFrom([], true, segs[1..])
    else DocumentFrom(run + [segs[0]], before, segs[1..])
  }

  function Document(segs: seq<Segment>): seq<TopNode> {
    DocumentFrom([], false, segs)
  }

  method ValueToDocument(segments: seq<Segment>) returns (blocks: seq<TopNode>)
    ensures blocks == Document(segments)
  {
    hide RunNodes;
    blocks := [];
    var run: seq<Segment> := [];
    var before := false;
    for i := 0 to |segments|
      invariant Document(segments) == blocks + DocumentFrom(run, before, segments[i..])
    {
      var segment := segments[i];
      assert segments[i..][1..] == segments[i + 1..];
      if !segment.Block? {
        run := run + [segment];
        continue;
      }
      blocks := AppendInlineRun(blocks, run, before, true);
      blocks := blocks + [BlockMath(Trim(segment.body))];
      run := [];
      before := true;
    }
    blocks := AppendInlineRun(blocks, run, before, false);
  }

  // ---------------------------------------------------------------------------------------
  // From a document to a message

  function InlineText(n: InlineNode): string {
    match n
    case TextNode(text) => text
    case HardBreak => "\n"
    case InlineMath(latex) => "\\(" + Trim(latex) + "\\)"
  }

  function SerializeInline(content: seq<InlineNode>): string {
    if content == [] then "" else InlineText(content[0]) + SerializeInline(content[1..])
  }

  function NodeText(n: TopNode): string {
    match n
    case Paragraph(content) => SerializeInline(content)
    case BlockMath(latex) => "\\[" + Trim(latex) + "\\]"
  }

  predicate IsEmpty(n: TopNode) {
    n.Paragraph? && SerializeInline(n.content) == ""
  }

  /** Where the empty paragraphs at the end start. */
  function TrailStart(content: seq<TopNode>): (t: nat)
    ensures t <= |content|
    ensures forall k :: t <= k < |content| ==> IsEmpty(content[k])
    ensures t > 0 ==> !IsEmpty(content[t - 1])
  {
    if content != [] && IsEmpty(content[|content| - 1]) then TrailStart(content[..|content| - 1]) else |content|
  }

  /** The caret paragraph that a document keeps behind a block at its end. */
  method TerminalBlockCaretIndex(content: seq<TopNode>) returns (r: int)
    ensures var t := TrailStart(content);
            r == if 0 < t < |content| && content[t - 1].BlockMath? then t else -1
  {
    ghost var t := TrailStart(content);
    var index := 0;
    while index + 1 < |content|
      invariant 0 < t < |content| && content[t - 1].BlockMath? ==> index < t
    {
      if content[index].BlockMath? && IsEmpty(content[index + 1]) {
        if forall k :: index + 1 <= k < |content| ==> IsEmpty(content[k]) {
          return index + 1;
        }
      }
      index := index + 1;
    }
    return -1;
  }

  /** From i on, the empty paragraphs are followed by a block. */
  predicate RunEndsAtBlock(content: seq<TopNode>, i: nat)
    requires i <= |content|
    decreases |content| - i
  {
    i < |content| && (content[i].BlockMath? || (IsEmpty(content[i]) && RunEndsAtBlock(content, i + 1)))
  }

  /** Back from just before i, the empty paragraphs come after a block or start the document. */
  predicate RunStartsAtBlock(content: seq<TopNode>, i: nat)
    requires i <= |content|
  {
    i == 0 || content[i - 1].BlockMath? || (IsEmpty(content[i - 1]) && RunStartsAtBlock(content, i - 1))
  }

  function Separator(content: seq<TopNode>, i: nat): string
    requires 0 < i < |content|
  {
    var previous, current := content[i - 1], content[i];
    if previous.Paragraph? == current.Paragraph? then "\n"
    else if previous.BlockMath? && IsEmpty(current) && RunEndsAtBlock(content, i) then "\n"
    else if IsEmpty(previous) && current.BlockMath? && RunStartsAtBlock(content, i) then "\n"
    else ""
  }

  method EmptyParagraphRunEndsAtBlock(content: seq<TopNode>, start: nat) returns (r: bool)
    requires start <= |content|
    ensures r == RunEndsAtBlock(content, start)
  {
    var index := start;
    while index < |content| && IsEmpty(content[index])
      invariant start <= index <= |content|
      invariant RunEndsAtBlock(content, start) == RunEndsAtBlock(content, index)
    {
      index := index + 1;
    }
    return index < |content| && content[index].BlockMath?;
  }

  method EmptyParagraphRunStartsDocumentOrBlock(content: seq<TopNode>, end: int) returns (r: bool)
    requires -1 <= end < |content|
    ensures r == RunStartsAtBlock(content, end + 1)
  {
    var index := end;
    while index >= 0 && IsEmpty(content[index])
      invariant -1 <= index <= end
      invariant RunStartsAtBlock(content, end + 1) == RunStartsAtBlock(content, index + 1)
    {
      index := index - 1;
    }
    return index < 0 || content[index].BlockMath?;
  }

  method TopLevelSeparator(content: seq<TopNode>, index: nat) returns (r: string)
    requires 0 < index < |content|
    ensures r == Separator(content, index)
  {
    var previous, current := content[index - 1], content[index];
    if previous.Paragraph? == current.Paragraph? {
      return "\n";
    }
    var ends := EmptyParagraphRunEndsAtBlock(content, index);
    if previous.BlockMath? && IsEmpty(current) && ends {
      return "\n";
    }
    var starts := EmptyParagraphRunStartsDocumentOrBlock(content, index - 1);
    if IsEmpty(previous) && current.BlockMath? && starts {
      return "\n";
    }
    return "";
  }

  /** The nodes from i on, each but the first of the document after its separator. */
  function Joined(content: seq<TopNode>, i: nat): string
    requires i <= |content|
    decreases |content| - i
  {
    if i == |content| then ""
    else (if i > 0 then Separator(content, i) else "") + NodeText(content[i]) + Joined(content, i + 1)
  }

  /** The message of a document: a caret paragraph is dropped, the empty paragraphs after
      it are newlines. */
  function Value(content: seq<TopNode>): string {
    NormalizeNewlines(Unnormalized(content))
  }

  function Unnormalized(content: seq<TopNode>): string {
    var t := TrailStart(content);
    if 0 < t < |content| && content[t - 1].BlockMath? then Joined(content[..t], 0) + Repeat('\n', |content| - t - 1)
    else Joined(content, 0)
  }

  lemma Assoc<T>(a: seq<T>, b: seq<T>, c: seq<T>)
    ensures a + (b + c) == (a + b) + c
  {}

  lemma Regroup(a: string, b: string, c: string, d: string)
    ensures a + (b + c + d) == (a + b + c) + d
  {}

  method DocumentToValue(content: seq<TopNode>) returns (value: string)
    ensures value == Value(content)
  {
    hide Separator, NodeText, TrailStart, NormalizeNewlines;
    var caret := TerminalBlockCaretIndex(content);
    var body := if caret >= 0 then content[..caret] else content;
    value := "";
    for index := 0 to |body|
      invariant Joined(body, 0) == value + Joined(body, index)
    {
      var node := body[index];
      var separator := "";
      if index > 0 {
        separator := TopLevelSeparator(body, index);
      }
      Regroup(value, separator, NodeText(node), Joined(body, index + 1));
      value := value + separator + NodeText(node);
    }
    assert value == Joined(body, 0);
    if caret >= 0 {
      value := value + Repeat('\n', |content| - caret - 1);
    }
    value := NormalizeNewlines(value);
  }
}
