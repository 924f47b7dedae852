/** What the composer's documents hold: the formulas of the message as nodes, and what the user types
    as text. */
module ComposerNodes {
  import opened Whitespace
  import opened ComposerDocument
  import opened ComposerRoundTrip

  datatype Formula = Formula(block: bool, latex: string)

  function FormulasIn(segs: seq<Segment>): seq<Formula> {
    if segs == [] then []
    else (if segs[0].Text? then [] else [Formula(segs[0].Block?, Trim(segs[0].body))]) + FormulasIn(segs[1..])
  }

  function InlineFormulas(content: seq<InlineNode>): seq<Formula> {
    if content == [] then []
    else (if content[0].InlineMath? then [Formula(false, content[0].latex)] else []) + InlineFormulas(content[1..])
  }

  function FormulasOf(content: seq<TopNode>): seq<Formula> {
    if content == [] then []
    else
      (match content[0]
       case Paragraph(inner) => InlineFormulas(inner)
       case BlockMath(latex) => [Formula(true, latex)])
      + FormulasOf(content[1..])
  }

  lemma {:induction false} FormulasInConcat(a: seq<Segment>, b: seq<Segment>)
    ensures FormulasIn(a + b) == FormulasIn(a) + FormulasIn(b)
  {
    if a == [] {
      assert a + b == b;
    } else {
      assert (a + b)[1..] == a[1..] + b;
      FormulasInConcat(a[1..], b);
    }
  }

  lemma {:induction false} InlineFormulasConcat(a: seq<InlineNode>, b: seq<InlineNode>)
    ensures InlineFormulas(a + b) == InlineFormulas(a) + InlineFormulas(b)
  {
    if a == [] {
      assert a + b == b;
    } else {
      assert (a + b)[1..] == a[1..] + b;
      InlineFormulasConcat(a[1..], b);
    }
  }

  lemma {:induction false} FormulasOfConcat(a: seq<TopNode>, b: seq<TopNode>)
    ensures FormulasOf(a + b) == FormulasOf(a) + FormulasOf(b)
  {
    if a == [] {
      assert a + b == b;
    } else {
      assert (a + b)[1..] == a[1..] + b;
      FormulasOfConcat(a[1..], b);
    }
  }

  lemma FormulasOfOne(n: TopNode)
    ensures FormulasOf([n]) == if n.Paragraph? then InlineFormulas(n.content) else [Formula(true, n.latex)]
  {
    assert [n][1..] == [] && FormulasOf([]) == [];
  }

  lemma {:induction false} NodesOfRun(run: seq<Segment>)
    requires NoBlocks(run)
    ensures InlineFormulas(InlineNodes(run)) == FormulasIn(run)
    ensures Newlines(RawAll(run)) ==> FormulasIn(run) == []
  {
    if run != [] {
      var s := run[0];
      NodesOfRun(run[1..]);
      InlineFormulasConcat(InlineOne(s), InlineNodes(run[1..]));
      NewlinesSplit(Raw(s), RawAll(run[1..]));
      assert s.Inline? ==> Raw(s)[0] != '\n';
      assert InlineNodes(run) == InlineOne(s) + InlineNodes(run[1..]);
    }
  }

  lemma {:induction false} NoFormulasInBlanks(n: nat)
    ensures FormulasOf(Repeat(EMPTY, n)) == []
  {
    if n > 0 {
      NoFormulasInBlanks(n - 1);
      assert Repeat(EMPTY, n)[1..] == Repeat(EMPTY, n - 1);
    }
  }

  lemma FormulasOfRun(run: seq<Segment>, before: bool, after: bool)
    requires NoBlocks(run)
    ensures FormulasOf(RunNodes(run, before, after)) == FormulasIn(run)
  {
    NodesOfRun(run);
    var n := |RawAll(run)|;
    NoFormulasInBlanks(1 + n);
    NoFormulasInBlanks(0);
    NoFormulasInBlanks(if n > 0 then n - 1 else 0);
    FormulasOfOne(Paragraph(InlineNodes(run)));
    hide InlineNodes, FormulasOf, FormulasIn, RawAll, Repeat, Newlines;
    assert InlineFormulas([]) == [] && FormulasOf([]) == [] by { assert Repeat(EMPTY, 0) == []; }
  }

  lemma {:induction false} FormulasFrom(run: seq<Segment>, before: bool, segs: seq<Segment>)
    requires NoBlocks(run)
    ensures FormulasOf(DocumentFrom(run, before, segs)) == FormulasIn(run) + FormulasIn(segs)
    decreases |segs|
  {
    hide RunNodes, Trim;
    if segs == [] {
      FormulasOfRun(run, before, false);
    } else {
      var s, rest := segs[0], segs[1..];
      FormulasInConcat([s], rest);
      assert [s] + rest == segs;
      if s.Block? {
        var block, later := [BlockMath(Trim(s.body))], DocumentFrom([], true, rest);
        FormulasOfRun(run, before, true);
        FormulasFrom([], true, rest);
        FormulasOfConcat(RunNodes(run, before, true) + block, later);
        FormulasOfConcat(RunNodes(run, before, true), block);
      } else {
        FormulasInConcat(run, [s]);
        FormulasFrom(run + [s], before, rest);
      }
    }
  }

  /** The formulas of a message are the formula nodes of its document, in order, each as it was
      but trimmed, and block or inline as it was. */
  lemma FormulasKept(segs: seq<Segment>)
    ensures FormulasOf(Document(segs)) == FormulasIn(segs)
  {
    FormulasFrom([], false, segs);
  }

  // ---------------------------------------------------------------------------------------
  // Typed text

  /** The lines of a paragraph, with a hard break between each two. */
  function TypedLines(lines: seq<string>): seq<InlineNode> {
    if lines == [] then []
    else if |lines| == 1 then [TextNode(lines[0])]
    else [TextNode(lines[0]), HardBreak] + TypedLines(lines[1..])
  }

  function Typed(paragraphs: seq<seq<string>>): seq<TopNode> {
    seq(|paragraphs|, k requires 0 <= k < |paragraphs| => Paragraph(TypedLines(paragraphs[k])))
  }

  function AllLines(paragraphs: seq<seq<string>>): seq<string> {
    if paragraphs == [] then [] else paragraphs[0] + AllLines(paragraphs[1..])
  }

  lemma {:induction false} LinesSpelled(lines: seq<string>)
    ensures SerializeInline(TypedLines(lines)) == JoinWith("\n", lines)
  {
    if |lines| == 1 {
      assert TypedLines(lines)[1..] == [] && SerializeInline([]) == "";
    } else if |lines| > 1 {
      var rest := TypedLines(lines[1..]);
      LinesSpelled(lines[1..]);
      assert TypedLines(lines)[1..] == [HardBreak] + rest;
      assert ([HardBreak] + rest)[1..] == rest;
      assert SerializeInline([HardBreak] + rest) == "\n" + SerializeInline(rest);
    }
  }

  lemma {:induction false} JoinInTwo(sep: string, a: seq<string>, b: seq<string>)
    requires a != [] && b != []
    ensures JoinWith(sep, a + b) == JoinWith(sep, a) + sep + JoinWith(sep, b)
  {
    assert (a + b)[1..] == a[1..] + b;
    if |a| > 1 {
      JoinInTwo(sep, a[1..], b);
    } else {
      assert a[1..] + b == b;
    }
  }

  lemma {:induction false} AllLinesOf(paragraphs: seq<seq<string>>)
    requires paragraphs != [] && forall k :: 0 <= k < |paragraphs| ==> paragraphs[k] != []
    ensures AllLines(paragraphs) != []
    ensures JoinWith("\n", AllLines(paragraphs))
            == JoinWith("\n", paragraphs[0]) + (if |paragraphs| > 1 then "\n" else "") + JoinWith("\n", AllLines(paragraphs[1..]))
  {
    var first, rest := paragraphs[0], AllLines(paragraphs[1..]);
    if |paragraphs| > 1 {
      AllLinesOf(paragraphs[1..]);
      hide JoinWith;
      JoinInTwo("\n", first, rest);
    } else {
      assert first + rest == first && JoinWith("\n", rest) == "";
    }
  }

  lemma JoinedFirst(doc: seq<TopNode>, i: nat)
    requires i < |doc| && forall k :: 0 <= k < |doc| ==> doc[k].Paragraph?
    ensures Joined(doc, i) == (if i > 0 then "\n" else "") + SerializeInline(doc[i].content) + Joined(doc, i + 1)
  {
    assert i > 0 ==> Separator(doc, i) == "\n";
  }

  lemma {:induction false} TypedFrom(paragraphs: seq<seq<string>>, i: nat)
    requires i <= |paragraphs| && forall k :: 0 <= k < |paragraphs| ==> paragraphs[k] != []
    ensures Joined(Typed(paragraphs), i)
            == (if 0 < i < |paragraphs| then "\n" else "") + JoinWith("\n", AllLines(paragraphs[i..]))
    decreases |paragraphs| - i
  {
    hide TypedLines, Joined, JoinWith, AllLines, SerializeInline;
    if i < |paragraphs| {
      var later := paragraphs[i..];
      TypedFrom(paragraphs, i + 1);
      AllLinesOf(later);
      LinesSpelled(paragraphs[i]);
      JoinedFirst(Typed(paragraphs), i);
      assert later[1..] == paragraphs[i + 1..] && later[0] == paragraphs[i];
    } else {
      TypedNothing(Typed(paragraphs));
      assert paragraphs[i..] == [];
    }
  }

  lemma TypedNothing(doc: seq<TopNode>)
    ensures Joined(doc, |doc|) == "" && JoinWith("\n", AllLines([])) == ""
  {}

  lemma NoCaret(doc: seq<TopNode>)
    requires forall k :: 0 <= k < |doc| ==> doc[k].Paragraph?
    ensures Value(doc) == NormalizeNewlines(Joined(doc, 0))
  {
    hide Joined, NormalizeNewlines;
  }

  /** Text typed in paragraphs and lines is the message of those lines, with one newline between
      any two; a hard break and a new paragraph are the same. */
  lemma TypedText(paragraphs: seq<seq<string>>)
    requires forall k :: 0 <= k < |paragraphs| ==> paragraphs[k] != []
    ensures Value(Typed(paragraphs)) == NormalizeNewlines(JoinWith("\n", AllLines(paragraphs)))
  {
    hide Joined, NormalizeNewlines, TypedLines, JoinWith, AllLines, Value;
    TypedFrom(paragraphs, 0);
    NoCaret(Typed(paragraphs));
    var text := JoinWith("\n", AllLines(paragraphs));
    assert paragraphs[0..] == paragraphs && "" + text == text;
  }
}
