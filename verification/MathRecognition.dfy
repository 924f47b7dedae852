/** Which pieces of a message are formulas: what the cutting does with formulas, dollars and code
    among plain text. */
module MathRecognition {
  import opened Prelude
  import opened Whitespace
  import opened ComposerDocument
  import opened MathContent

  /** The scan has nothing to do at this character. */
  predicate IsPlain(s: string, k: nat)
    requires k < |s|
  {
    s[k] != '$' && s[k] != '\\' && s[k] != '`' && s[k] != '~' && s[k] != '\t'
    && (s[k] == ' ' ==> k > 0 && s[k - 1] != '\n')
  }

  lemma PlainAt(word: char -> bool, s: string, i: nat)
    requires i < |s| && IsPlain(s, i)
    ensures At(word, s, i) == Skip(i + 1)
  {
    FirstCharacter(s, "    ", i);
    FirstCharacter(s, "\\(", i);
    FirstCharacter(s, "\\[", i);
    FirstCharacter(s, "$$", i);
  }

  lemma {:induction false} PlainRun(word: char -> bool, s: string, i: nat, j: nat, start: nat)
    requires start <= i <= j <= |s| && forall k :: i <= k < j ==> IsPlain(s, k)
    ensures SplitFrom(word, s, i, start) == SplitFrom(word, s, j, start)
    decreases j - i
  {
    hide At, IsPlain;
    if i < j {
      PlainAt(word, s, i);
      PlainRun(word, s, i + 1, j, start);
    }
  }

  lemma SecondCharacter(s: string, needle: string, i: nat)
    requires |needle| == 2
    ensures StartsWith(s, needle, i) ==> i + 1 < |s| && s[i + 1] == needle[1]
  {}

  /** A single dollar in no escape is taken or left by its own rules. */
  lemma DollarAt(word: char -> bool, s: string, i: nat)
    requires i < |s| && s[i] == '$' && (i + 1 < |s| ==> s[i + 1] != '$') && (i > 0 ==> s[i - 1] != '\\')
    ensures At(word, s, i) == SingleAt(word, s, i)
  {
    FirstCharacter(s, "    ", i);
    FirstCharacter(s, "\\(", i);
    FirstCharacter(s, "\\[", i);
    SecondCharacter(s, "$$", i);
  }

  lemma {:induction false} CloseIs(s: string, i: nat, j: nat)
    requires 0 < i <= j < |s| && (forall k :: i <= k < j ==> s[k] != '$')
    requires s[j] == '$' && s[j - 1] != '\\' && (j + 1 < |s| ==> s[j + 1] != '$')
    ensures DollarClose(s, i) == Some(j)
    decreases j - i
  {
    if i < j {
      CloseIs(s, i + 1, j);
    }
  }

  lemma TrimKeeps(s: string)
    requires s != "" && !IsSpace(s[0]) && !IsSpace(s[|s| - 1])
    ensures Trim(s) == s
  {}

  // ---------------------------------------------------------------------------------------
  // Formulas in backslash delimiters

  /** Without backslashes and dollars a formula's body holds no delimiter. */
  predicate Simple(body: string) {
    forall k :: 0 <= k < |body| ==> body[k] != '\\' && body[k] != '$'
  }

  /** The needle, which starts with that character, is next found at j. */
  lemma {:induction false} NextIs(s: string, needle: string, i: nat, j: nat)
    requires needle != "" && i <= j && StartsWith(s, needle, j) && forall k :: i <= k < j ==> s[k] != needle[0]
    ensures IndexOf(s, needle, i) == Some(j)
    decreases j - i
  {
    if i < j {
      FirstCharacter(s, needle, i);
      NextIs(s, needle, i + 1, j);
    }
  }

  lemma {:induction false} NotBefore(s: string, needle: string, i: nat, j: nat)
    requires needle != "" && i <= j <= |s| && forall k :: i <= k < j ==> s[k] != needle[0]
    ensures FindUnescaped(s, needle, i).Some? ==> FindUnescaped(s, needle, i).value >= j
  {
    var r := FindUnescaped(s, needle, i);
    if r.Some? && r.value < j {
      FirstCharacter(s, needle, r.value);
    }
  }

  /** The first closer behind a simple body is found, and no opener in front of it. */
  lemma Closes(s: string, i: nat, block: bool, close: nat)
    requires StartsWith(s, Opener(block), i) && i + 2 < close && StartsWith(s, Closer(block), close)
    requires forall k :: i + 2 <= k < close ==> s[k] != '\\'
    ensures FindUnescaped(s, Closer(block), i + 2) == Some(close)
    ensures Innermost(s, Opener(block), i, close) == i
  {
    NextIs(s, Closer(block), i + 2, close);
    NotBefore(s, Opener(block), i + 2, close);
    hide IndexOf;
  }

  lemma BackslashAt(word: char -> bool, s: string, i: nat, block: bool, close: nat)
    requires StartsWith(s, Opener(block), i) && i + 2 <= close && StartsWith(s, Closer(block), close)
    requires (i > 0 ==> s[i - 1] != '\\') && Simple(s[i + 2..close]) && Trim(s[i + 2..close]) != ""
    ensures At(word, s, i) == Formula(MakeFormula(block, Backslash, s[i + 2..close]), close + 2)
  {
    var body := s[i + 2..close];
    assert forall k :: i + 2 <= k < close ==> s[k] == body[k - i - 2];
    assert body != "" by { assert Trim("") == ""; }
    OpenerAt(s, i, block);
    assert !Escaped(s, i);
    hide FindUnescaped, Innermost, Trim, IndexOf, Escaped, CodeEnd, IsIndentedCode;
    Closes(s, i, block, close);
    assert SlashAt(s, i, block) == Formula(MakeFormula(block, Backslash, body), close + 2);
    hide SlashAt;
  }

  /** Text in which the scan has nothing to do: no dollar, backslash, backtick, tilde or tab, and no
      space at the start of a line. `first` says that it starts the message. */
  predicate PlainText(t: string, first: bool) {
    && (forall k :: 0 <= k < |t| ==> t[k] != '$' && t[k] != '\\' && t[k] != '`' && t[k] != '~' && t[k] != '\t')
    && (forall k :: 0 < k < |t| && t[k - 1] == '\n' ==> t[k] != ' ')
    && (first && t != "" ==> t[0] != ' ')
  }

  predicate IsFormula(s: Segment) {
    !s.Text? && s.style == Backslash && Simple(s.body) && Trim(s.body) != ""
  }

  /** Formulas in backslash delimiters, with at most one plain text between any two of them. */
  predicate Recognizable(segs: seq<Segment>, first: bool) {
    segs == []
    || ((if segs[0].Text? then segs[0].value != "" && PlainText(segs[0].value, first) && (|segs| > 1 ==> !segs[1].Text?)
         else IsFormula(segs[0]))
        && Recognizable(segs[1..], false))
  }

  lemma PlainInText(s: string, i: nat, t: string, k: nat)
    requires i + |t| <= |s| && s[i..i + |t|] == t && PlainText(t, i == 0) && (i > 0 ==> s[i - 1] != '\n') && k < |t|
    ensures IsPlain(s, i + k) && s[i + k] == t[k] != '\\'
  {
    var piece := s[i..i + |t|];
    assert piece[k] == s[i + k] == t[k];
    if k > 0 {
      assert piece[k - 1] == s[i + k - 1] == t[k - 1];
    }
  }

  lemma TextIsPlain(s: string, i: nat, t: string)
    requires i + |t| <= |s| && s[i..i + |t|] == t && PlainText(t, i == 0) && (i > 0 ==> s[i - 1] != '\n')
    ensures forall k :: i <= k < i + |t| ==> IsPlain(s, k)
    ensures t != "" ==> s[i + |t| - 1] != '\\'
  {
    hide PlainText, IsPlain;
    forall k | i <= k < i + |t| ensures IsPlain(s, k) {
      PlainInText(s, i, t, k - i);
    }
    if t != "" {
      PlainInText(s, i, t, |t| - 1);
    }
  }

  lemma RawOfFormula(f: Segment)
    requires IsFormula(f)
    ensures !f.Text? && Raw(f) == Opener(f.Block?) + f.body + Closer(f.Block?) && f == MakeFormula(f.Block?, Backslash, f.body)
  {}

  lemma Slices(s: string, j: nat, a: string, b: string, c: string, rest: string)
    requires j <= |s| && s[j..] == a + b + c + rest
    ensures j + |a| + |b| + |c| <= |s|
    ensures s[j..j + |a|] == a && s[j + |a|..j + |a| + |b|] == b && s[j + |a| + |b|..j + |a| + |b| + |c|] == c
    ensures s[j + |a| + |b| + |c|..] == rest
  {
    var t := s[j..];
    assert |t| == |s| - j == |a| + |b| + |c| + |rest|;
    Slice(s, j, 0, |a|);
    Slice(s, j, |a|, |a| + |b|);
    Slice(s, j, |a| + |b|, |a| + |b| + |c|);
    Slice(s, j, |a| + |b| + |c|, |t|);
    assert t[..|a|] == a && t[|a|..|a| + |b|] == b && t[|a| + |b|..|a| + |b| + |c|] == c && t[|a| + |b| + |c|..] == rest;
    assert t[0..|a|] == t[..|a|] && t[|a| + |b| + |c|..|t|] == t[|a| + |b| + |c|..];
    assert s[j + |a| + |b| + |c|..|s|] == s[j + |a| + |b| + |c|..];
  }

  lemma Slice(s: string, j: nat, from: nat, to: nat)
    requires j <= |s| && from <= to <= |s| - j
    ensures s[j..][from..to] == s[j + from..j + to]
  {}

  lemma Marks(block: bool)
    ensures |Opener(block)| == |Closer(block)| == 2 && Closer(block)[1] != '\\' && Closer(block)[1] != '\n'
  {}

  lemma MarkStands(s: string, i: nat, mark: string)
    requires |mark| == 2 && i + 2 <= |s| && s[i..i + 2] == mark
    ensures StartsWith(s, mark, i) && s[i + 1] == mark[1]
  {
    assert s[i + 1] == s[i..i + 2][1];
  }

  lemma FormulaStands(s: string, j: nat, f: Segment, rest: string)
    requires j <= |s| && IsFormula(f) && s[j..] == Raw(f) + rest
    ensures var close := j + 2 + |f.body|;
            && |Raw(f)| == |f.body| + 4 && close + 2 <= |s| && s[close + 2..] == rest && s[close + 1] !in {'\\', '\n'}
            && StartsWith(s, Opener(f.Block?), j) && s[j + 2..close] == f.body && StartsWith(s, Closer(f.Block?), close)
  {
    hide *;
    RawOfFormula(f);
    Marks(f.Block?);
    Slices(s, j, Opener(f.Block?), f.body, Closer(f.Block?), rest);
    MarkStands(s, j, Opener(f.Block?));
    MarkStands(s, j + 2 + |f.body|, Closer(f.Block?));
  }

  lemma IsMadeOf(f: Segment)
    requires IsFormula(f)
    ensures !f.Text? && f == MakeFormula(f.Block?, Backslash, f.body) && Simple(f.body) && Trim(f.body) != ""
  {}

  /** A formula that stands at j is cut out there. */
  lemma FormulaAt(word: char -> bool, s: string, j: nat, f: Segment, rest: string)
    requires j <= |s| && IsFormula(f) && s[j..] == Raw(f) + rest && (j > 0 ==> s[j - 1] != '\\')
    ensures var end := j + |Raw(f)|;
            j < end <= |s| && At(word, s, j) == Formula(f, end) && s[end..] == rest && s[end - 1] !in {'\\', '\n'}
  {
    hide *;
    IsMadeOf(f);
    FormulaStands(s, j, f, rest);
    BackslashAt(word, s, j, f.Block?, j + 2 + |f.body|);
  }

  lemma RawIsText(s: Segment)
    ensures s.Text? ==> Raw(s) == s.value
  {}

  lemma RawOfNext(f: Segment, rest: seq<Segment>, segs: seq<Segment>)
    requires segs != [] && segs[0] == f && segs[1..] == rest
    ensures RawAll(segs) == Raw(f) + RawAll(rest)
  {}

  /** A formula at j, with nothing but text since `start`, and what follows it. */
  lemma FormulaThenRest(word: char -> bool, s: string, start: nat, j: nat, f: Segment, rest: string)
    requires start <= j <= |s| && IsFormula(f) && s[j..] == Raw(f) + rest && (j > 0 ==> s[j - 1] != '\\')
    ensures var end := j + |Raw(f)|;
            && j < end <= |s| && s[end..] == rest && s[end - 1] !in {'\\', '\n'}
            && SplitFrom(word, s, j, start) == TextOf(s[start..j]) + [f] + SplitFrom(word, s, end, end)
  {
    hide At, SplitFrom, Raw, IsFormula;
    FormulaAt(word, s, j, f, rest);
    FormulaNext(word, s, j, start, []);
  }

  lemma Halves(s: string, i: nat, t: string, rest: string)
    requires i <= |s| && s[i..] == t + rest
    ensures i + |t| <= |s| && s[i..i + |t|] == t && s[i + |t|..] == rest
  {
    assert |s[i..]| == |t| + |rest|;
    assert s[i..][..|t|] == t && s[i..][|t|..] == rest;
  }

  /** A plain text at i, and what follows it. */
  lemma TextThenRest(word: char -> bool, s: string, i: nat, t: string, rest: string)
    requires i <= |s| && s[i..] == t + rest && t != "" && PlainText(t, i == 0) && (i > 0 ==> s[i - 1] != '\n')
    ensures var j := i + |t|;
            && j <= |s| && s[i..j] == t && s[j..] == rest && s[j - 1] != '\\'
            && SplitFrom(word, s, i, i) == SplitFrom(word, s, j, i)
  {
    var j := i + |t|;
    hide *;
    Halves(s, i, t, rest);
    TextIsPlain(s, i, t);
    PlainRun(word, s, i, j, i);
  }

  lemma {:induction false} CutsFrom(word: char -> bool, s: string, i: nat, segs: seq<Segment>)
    requires i <= |s| && s[i..] == RawAll(segs) && Recognizable(segs, i == 0) && (i > 0 ==> s[i - 1] !in {'\\', '\n'})
    ensures SplitFrom(word, s, i, i) == segs
    decreases |segs|, 0
  {
    hide At, SplitFrom, IsFormula, PlainText, Raw;
    if segs == [] {
      Finish(word, s, i);
    } else if segs[0].Text? {
      RawOfNext(segs[0], segs[1..], segs);
      RawIsText(segs[0]);
      CutsText(word, s, i, segs[0].value, segs[1..]);
      assert segs == [Text(segs[0].value)] + segs[1..];
    } else {
      CutsFormula(word, s, i, i, segs[0], segs[1..], segs);
      hide *;
      BehindNothing(s, i, segs[0], segs);
    }
  }

  lemma {:induction false} CutsFormula(word: char -> bool, s: string, start: nat, j: nat, f: Segment, rest: seq<Segment>, segs: seq<Segment>)
    requires start <= j <= |s| && segs != [] && segs[0] == f && segs[1..] == rest && s[j..] == RawAll(segs)
    requires IsFormula(f) && Recognizable(rest, false) && (j > 0 ==> s[j - 1] != '\\')
    ensures SplitFrom(word, s, j, start) == TextOf(s[start..j]) + [f] + rest
    decreases |rest|, 1
  {
    hide *;
    RawOfNext(f, rest, segs);
    FormulaThenRest(word, s, start, j, f, RawAll(rest));
    CutsFrom(word, s, j + |Raw(f)|, rest);
  }

  lemma {:induction false} CutsText(word: char -> bool, s: string, i: nat, t: string, rest: seq<Segment>)
    requires i <= |s| && s[i..] == t + RawAll(rest) && t != "" && PlainText(t, i == 0) && (i > 0 ==> s[i - 1] != '\n')
    requires Recognizable(rest, false) && (rest != [] ==> !rest[0].Text?)
    ensures SplitFrom(word, s, i, i) == [Text(t)] + rest
    decreases |rest|, 1
  {
    hide At, SplitFrom, IsFormula, PlainText, Raw;
    TextThenRest(word, s, i, t, RawAll(rest));
    var j := i + |t|;
    if rest == [] {
      Finish(word, s, i);
      assert s[i..] == t && [Text(t)] + [] == [Text(t)];
    } else {
      CutsFormula(word, s, i, j, rest[0], rest[1..], rest);
      assert [rest[0]] + rest[1..] == rest;
      hide *;
      assert [Text(t)] + [rest[0]] + rest[1..] == [Text(t)] + ([rest[0]] + rest[1..]);
    }
  }

  lemma BehindNothing(s: string, i: nat, f: Segment, segs: seq<Segment>)
    requires i <= |s| && segs != [] && segs[0] == f
    ensures TextOf(s[i..i]) + [f] + segs[1..] == segs
  {}

  /** Formulas in backslash delimiters among plain texts are cut out as they were put together. */
  lemma CutsBack(word: char -> bool, segs: seq<Segment>)
    requires Recognizable(segs, true)
    ensures Split(word, RawAll(segs)) == segs
  {
    var s := RawAll(segs);
    assert s[0..] == s;
    CutsFrom(word, s, 0, segs);
  }

  // ---------------------------------------------------------------------------------------
  // Formulas between dollars

  /** A pair of single dollars around a text without dollars is a formula exactly if it has no blank
      inside its ends, no digit behind the first, and no word on either side. */
  lemma SingleDollarsExactly(word: char -> bool, s: string, i: nat, j: nat)
    requires i + 1 < j < |s| && s[i] == '$' == s[j] && forall k :: i < k < j ==> s[k] != '$'
    requires (i > 0 ==> s[i - 1] != '\\') && s[j - 1] != '\\' && (j + 1 < |s| ==> s[j + 1] != '$') && Trim(s[i + 1..j]) != ""
    ensures At(word, s, i)
            == if (i > 0 ==> !word(s[i - 1])) && !IsSpace(s[i + 1]) && !('0' <= s[i + 1] <= '9')
                  && !IsSpace(s[j - 1]) && (j + 1 < |s| ==> !word(s[j + 1]))
               then Formula(Inline(Dollars, s[i + 1..j]), j + 1) else Skip(i + 1)
  {
    hide *;
    DollarAt(word, s, i);
    CloseIs(s, i + 1, j);
    SingleCloses(word, s, i, j);
  }

  lemma SingleCloses(word: char -> bool, s: string, i: nat, j: nat)
    requires i + 1 < j < |s| && s[i] == '$' && DollarClose(s, i + 1) == Some(j) && Trim(s[i + 1..j]) != ""
    ensures SingleAt(word, s, i)
            == if (i > 0 ==> !word(s[i - 1])) && !IsSpace(s[i + 1]) && !('0' <= s[i + 1] <= '9')
                  && !IsSpace(s[j - 1]) && (j + 1 < |s| ==> !word(s[j + 1]))
               then Formula(Inline(Dollars, s[i + 1..j]), j + 1) else Skip(i + 1)
  {
    hide Trim, DollarClose, IsSpace, Escaped;
  }

  /** A pair of double dollars around a text without dollars is always a block. */
  lemma DoubleDollars(word: char -> bool, s: string, i: nat, j: nat)
    requires StartsWith(s, "$$", i) && i + 2 <= j && StartsWith(s, "$$", j) && (i > 0 ==> s[i - 1] != '\\')
    requires Simple(s[i + 2..j]) && Trim(s[i + 2..j]) != ""
    ensures At(word, s, i) == Formula(Block(Dollars, s[i + 2..j]), j + 2)
  {
    var body := s[i + 2..j];
    assert forall k :: i + 2 <= k < j ==> s[k] == body[k - i - 2];
    assert body != "" by { assert Trim("") == ""; }
    DoubleDollarAt(word, s, i);
    hide At, IndexOf, Trim;
    NextIs(s, "$$", i + 2, j);
    assert !Escaped(s, j);
  }

  lemma DoubleDollarAt(word: char -> bool, s: string, i: nat)
    requires StartsWith(s, "$$", i) && (i > 0 ==> s[i - 1] != '\\')
    ensures At(word, s, i) == DoubleAt(s, i)
  {
    FirstCharacter(s, "$$", i);
    FirstCharacter(s, "    ", i);
    FirstCharacter(s, "\\(", i);
    FirstCharacter(s, "\\[", i);
    hide DoubleAt;
  }

  // ---------------------------------------------------------------------------------------
  // Code

  /** A run of exactly n marks, and the next run of at least as many. */
  predicate Span(s: string, i: nat, n: nat, j: nat, mark: char) {
    && n > 0 && i + n <= j && j + n <= |s|
    && (forall k :: i <= k < i + n ==> s[k] == mark) && (forall k :: i + n <= k < j ==> s[k] != mark)
    && (forall k :: j <= k < j + n ==> s[k] == mark) && s[i + n] != mark
  }

  lemma {:induction false} RunIs(s: string, i: nat, n: nat, mark: char)
    requires i + n < |s| && (forall k :: i <= k < i + n ==> s[k] == mark) && s[i + n] != mark
    ensures RunLength(s, i, mark) == n
    decreases n
  {
    if n > 0 {
      RunIs(s, i + 1, n - 1, mark);
    }
  }

  lemma SpanEnds(s: string, i: nat, n: nat, j: nat, mark: char)
    requires Span(s, i, n, j, mark)
    ensures s[i] == mark && RunEnd(s, i, mark) == Some(j + n)
  {
    RunIs(s, i, n, mark);
    assert s[j..j + n] == Repeat(mark, n);
    NextIs(s, Repeat(mark, n), i + n, j);
    hide RunLength, IndexOf, Repeat;
  }

  /** Whatever stands in a code span, the scan goes on behind it. */
  lemma SkipsSpan(word: char -> bool, s: string, i: nat, n: nat, j: nat)
    requires Span(s, i, n, j, '`') && (i > 0 ==> s[i - 1] != '\\')
    ensures At(word, s, i) == Skip(j + n)
  {
    SpanEnds(s, i, n, j, '`');
    FirstCharacter(s, "    ", i);
    hide RunEnd, SlashAt, DoubleAt, SingleAt;
  }

  /** So does it behind a fenced block of tildes, which stand at the start of a line. */
  lemma SkipsFence(word: char -> bool, s: string, i: nat, n: nat, j: nat)
    requires Span(s, i, n, j, '~') && n >= 3 && (i > 0 ==> s[i - 1] == '\n')
    ensures At(word, s, i) == Skip(j + n)
  {
    SpanEnds(s, i, n, j, '~');
    FirstCharacter(s, "    ", i);
    assert s[i..i + 3] == "~~~";
    hide RunEnd, SlashAt, DoubleAt, SingleAt;
  }

  /** And behind a line that is indented by a tab or four spaces. */
  lemma SkipsIndented(word: char -> bool, s: string, i: nat, j: nat)
    requires i < j <= |s| && (i > 0 ==> s[i - 1] == '\n') && (s[i] == '\t' || StartsWith(s, "    ", i))
    requires (forall k :: i <= k < j - 1 ==> s[k] != '\n') && (s[j - 1] == '\n' || (j == |s|))
    ensures At(word, s, i) == Skip(j)
  {
    hide CodeEnd, SlashAt, DoubleAt, SingleAt;
    match IndexOf(s, "\n", i) {
      case Some(k) =>
        assert s[k] == s[k..k + 1][0] == '\n';
        if s[j - 1] == '\n' {
          assert s[j - 1..j] == "\n" && StartsWith(s, "\n", j - 1);
        }
      case None =>
        if s[j - 1] == '\n' {
          assert s[j - 1..j] == "\n" && StartsWith(s, "\n", j - 1);
        }
    }
  }

  /** A message of plain text around one piece that the scan skips is one text. */
  lemma LiteralAround(word: char -> bool, s: string, i: nat, j: nat)
    requires i < j <= |s| && At(word, s, i) == Skip(j)
    requires (forall k :: 0 <= k < i ==> IsPlain(s, k)) && forall k :: j <= k < |s| ==> IsPlain(s, k)
    ensures Split(word, s) == [Text(s)]
  {
    hide At, IsPlain, SplitFrom;
    PlainRun(word, s, 0, i, 0);
    SkipNext(word, s, i, 0);
    PlainRun(word, s, j, |s|, 0);
    Finish(word, s, 0);
    assert s[0..] == s && TextOf(s) == [Text(s)];
  }

  /** Whatever a code span, a fenced block or an indented line among plain text holds is literal. */
  lemma CodeIsLiteral(word: char -> bool, s: string, i: nat, n: nat, j: nat)
    requires i < j && j + n <= |s| && (forall k :: 0 <= k < i ==> IsPlain(s, k)) && forall k :: j + n <= k < |s| ==> IsPlain(s, k)
    requires || (Span(s, i, n, j, '`') && (i > 0 ==> s[i - 1] != '\\'))
             || (Span(s, i, n, j, '~') && n >= 3 && (i > 0 ==> s[i - 1] == '\n'))
    ensures Split(word, s) == [Text(s)]
  {
    hide At, IsPlain, SplitFrom;
    if Span(s, i, n, j, '`') && (i > 0 ==> s[i - 1] != '\\') {
      SkipsSpan(word, s, i, n, j);
    } else {
      SkipsFence(word, s, i, n, j);
    }
    LiteralAround(word, s, i, j + n);
  }
}
