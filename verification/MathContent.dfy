/** Cutting a message into literal text and formulas: the scanning loop against a recursive
    specification, and what the segments have to do with the message. */
module MathContent {
  import opened Prelude
  import opened Whitespace
  import opened ComposerDocument

  // ---------------------------------------------------------------------------------------
  // Searching

  predicate StartsWith(s: string, needle: string, i: nat) {
    i + |needle| <= |s| && s[i..i + |needle|] == needle
  }

  /** An odd number of backslashes stands in front. */
  predicate Escaped(s: string, i: nat)
    requires i <= |s|
  {
    i > 0 && s[i - 1] == '\\' && !Escaped(s, i - 1)
  }

  method IsEscaped(s: string, index: nat) returns (r: bool)
    requires index <= |s|
    ensures r == Escaped(s, index)
  {
    var slashCount, i := 0, index;
    while i > 0 && s[i - 1] == '\\'
      invariant 0 <= i <= index
      invariant Escaped(s, index) == if slashCount % 2 == 0 then Escaped(s, i) else !Escaped(s, i)
    {
      slashCount, i := slashCount + 1, i - 1;
    }
    return slashCount % 2 == 1;
  }

  /** `indexOf`. */
  function IndexOf(s: string, needle: string, from: nat): (r: Option<nat>)
    ensures r.Some? ==> from <= r.value && StartsWith(s, needle, r.value)
    ensures forall k: nat :: from <= k && StartsWith(s, needle, k) ==> r.Some? && r.value <= k
    decreases |s| - from
  {
    if from + |needle| > |s| then None
    else if StartsWith(s, needle, from) then Some(from)
    else IndexOf(s, needle, from + 1)
  }

  /** The first unescaped one of the occurrences found one behind the other. */
  function FindUnescaped(s: string, needle: string, from: nat): (r: Option<nat>)
    requires needle != ""
    ensures r.Some? ==> from <= r.value && StartsWith(s, needle, r.value) && !Escaped(s, r.value)
    decreases |s| - from
  {
    match IndexOf(s, needle, from)
    case None => None
    case Some(i) => if !Escaped(s, i) then Some(i) else FindUnescaped(s, needle, i + |needle|)
  }

  method FindUnescapedFrom(s: string, needle: string, from: nat) returns (r: Option<nat>)
    requires needle != ""
    ensures r == FindUnescaped(s, needle, from)
  {
    hide IndexOf, Escaped;
    var index := IndexOf(s, needle, from);
    ghost var start := from;
    while index.Some?
      invariant index == IndexOf(s, needle, start) && FindUnescaped(s, needle, from) == FindUnescaped(s, needle, start)
      decreases |s| - start
    {
      var escaped := IsEscaped(s, index.value);
      if !escaped {
        return index;
      }
      start := index.value + |needle|;
      index := IndexOf(s, needle, index.value + |needle|);
    }
    return None;
  }

  ghost predicate AllEscaped(s: string, needle: string, from: nat) {
    forall k: nat :: from <= k && StartsWith(s, needle, k) ==> Escaped(s, k)
  }

  /** Occurrences of two different characters never overlap, so none is passed over. */
  lemma {:induction false} NoneLeft(s: string, needle: string, from: nat)
    requires |needle| == 2 && needle[0] != needle[1]
    ensures FindUnescaped(s, needle, from).None? <==> AllEscaped(s, needle, from)
    decreases |s| - from
  {
    match IndexOf(s, needle, from)
    case None =>
    case Some(i) =>
      if Escaped(s, i) {
        NoneLeft(s, needle, i + 2);
        assert s[i] == needle[0] && s[i + 1] == needle[1];
        forall k: nat | from <= k && StartsWith(s, needle, k)
          ensures k == i || i + 2 <= k
        {
          assert s[k] == needle[0];
        }
      }
  }

  function RunLength(s: string, start: nat, c: char): (n: nat)
    requires start <= |s|
    ensures start + n <= |s|
    decreases |s| - start
  {
    if start < |s| && s[start] == c then 1 + RunLength(s, start + 1, c) else 0
  }

  method CountRun(s: string, start: nat, c: char) returns (length: nat)
    requires start <= |s|
    ensures length == RunLength(s, start, c)
  {
    length := 0;
    while start + length < |s| && s[start + length] == c
      invariant start + length <= |s| && RunLength(s, start, c) == length + RunLength(s, start + length, c)
    {
      length := length + 1;
    }
  }

  // ---------------------------------------------------------------------------------------
  // Code, which stays literal

  predicate IsIndentedCode(s: string, i: nat)
    requires i < |s|
  {
    (i == 0 || s[i - 1] == '\n') && (s[i] == '\t' || StartsWith(s, "    ", i))
  }

  function LineStart(s: string, i: nat): (k: nat)
    requires i <= |s|
    ensures k <= i
  {
    if i == 0 || s[i - 1] == '\n' then i else LineStart(s, i - 1)
  }

  predicate IsFenceMarker(s: string, i: nat)
    requires i < |s|
  {
    var k := LineStart(s, i);
    i - k <= 3 && (forall j :: k <= j < i ==> s[j] == ' ') && StartsWith(s, "~~~", i)
  }

  /** Behind the next run of as many marks. */
  function RunEnd(s: string, i: nat, c: char): (r: Option<nat>)
    requires i < |s| && s[i] == c
    ensures r.Some? ==> i < r.value <= |s|
  {
    var n := RunLength(s, i, c);
    match IndexOf(s, Repeat(c, n), i + n)
    case Some(k) => Some(k + n)
    case None => None
  }

  function CodeEnd(s: string, i: nat): (r: Option<nat>)
    requires i < |s|
    ensures r.Some? ==> i < r.value <= |s|
  {
    if s[i] == '~' && IsFenceMarker(s, i) then RunEnd(s, i, '~')
    else if s[i] == '`' && !Escaped(s, i) then RunEnd(s, i, '`')
    else None
  }

  function LineEnd(s: string, i: nat): (k: nat)
    requires i < |s|
    ensures i < k <= |s|
  {
    match IndexOf(s, "\n", i)
    case Some(k) => k + 1
    case None => |s|
  }

  // ---------------------------------------------------------------------------------------
  // Formulas

  datatype Next = Skip(to: nat) | Formula(segment: Segment, end: nat)

  /** The last unescaped opener before the closer, of those found one behind the other. */
  function Innermost(s: string, opener: string, open: nat, close: nat): (r: nat)
    requires opener != "" && open < close
    ensures open <= r < close
    decreases close - open
  {
    match FindUnescaped(s, opener, open + 2)
    case Some(n) => if n < close then Innermost(s, opener, n, close) else open
    case None => open
  }

  method FindInnermost(s: string, opener: string, open: nat, close: nat) returns (r: nat)
    requires opener != "" && open < close
    ensures r == Innermost(s, opener, open, close)
  {
    hide FindUnescaped, Escaped, StartsWith;
    r := open;
    var nestedOpen := FindUnescapedFrom(s, opener, r + 2);
    while nestedOpen.Some? && nestedOpen.value < close
      invariant open <= r < close && nestedOpen == FindUnescaped(s, opener, r + 2)
      invariant Innermost(s, opener, open, close) == Innermost(s, opener, r, close)
      decreases close - r
    {
      r := nestedOpen.value;
      nestedOpen := FindUnescapedFrom(s, opener, r + 2);
    }
  }

  function Opener(block: bool): string {
    if block then "\\[" else "\\("
  }

  function Closer(block: bool): string {
    if block then "\\]" else "\\)"
  }

  function MakeFormula(block: bool, style: Style, body: string): Segment {
    if block then Block(style, body) else Inline(style, body)
  }

  /** What follows at \( or \[. */
  function SlashAt(s: string, i: nat, block: bool): (r: Next)
    requires StartsWith(s, Opener(block), i)
    ensures Advances(s, i, r)
  {
    match FindUnescaped(s, Closer(block), i + 2)
    case None => Skip(i + 1)
    case Some(close) =>
      var inner := Innermost(s, Opener(block), i, close);
      var body := s[i + 2..close];
      if inner != i then Skip(inner)
      else if Trim(body) == "" then Skip(i + 1)
      else
        Spelled(s, i, Opener(block), Closer(block), close);
        Formula(MakeFormula(block, Backslash, body), close + 2)
  }

  /** What follows at $$. */
  function DoubleAt(s: string, i: nat): (r: Next)
    requires StartsWith(s, "$$", i)
    ensures Advances(s, i, r)
  {
    match FindUnescaped(s, "$$", i + 2)
    case None => Skip(i + 1)
    case Some(close) =>
      var body := s[i + 2..close];
      if Trim(body) == "" then Skip(i + 1)
      else
        Spelled(s, i, "$$", "$$", close);
        Formula(Block(Dollars, body), close + 2)
  }

  /** The next dollar that is neither escaped nor followed by another. */
  function DollarClose(s: string, from: nat): (r: Option<nat>)
    ensures r.Some? ==> from <= r.value < |s| && s[r.value] == '$'
    decreases |s| - from
  {
    if from >= |s| then None
    else if s[from] == '$' && !Escaped(s, from) && !(from + 1 < |s| && s[from + 1] == '$') then Some(from)
    else DollarClose(s, from + 1)
  }

  method FindDollarClose(s: string, from: nat) returns (r: Option<nat>)
    requires from <= |s|
    ensures r == DollarClose(s, from)
  {
    var close := from;
    while close < |s|
      invariant from <= close <= |s| && DollarClose(s, from) == DollarClose(s, close)
    {
      if s[close] == '$' {
        var escaped := IsEscaped(s, close);
        if !escaped && !(close + 1 < |s| && s[close + 1] == '$') {
          return Some(close);
        }
      }
      close := close + 1;
    }
    return None;
  }

  predicate IsDigit(c: char) {
    '0' <= c <= '9'
  }

  /** The boundaries that a single dollar needs in front and behind. */
  predicate MayOpen(word: char -> bool, s: string, i: nat)
    requires i < |s|
  {
    !(i > 0 && word(s[i - 1])) && i + 1 < |s| && !IsSpace(s[i + 1]) && !IsDigit(s[i + 1])
  }

  predicate MayClose(word: char -> bool, s: string, close: nat)
    requires 0 < close < |s|
  {
    !IsSpace(s[close - 1]) && !(close + 1 < |s| && word(s[close + 1]))
  }

  /** What follows at a single $. */
  function SingleAt(word: char -> bool, s: string, i: nat): (r: Next)
    requires i < |s| && s[i] == '$'
    ensures Advances(s, i, r)
  {
    if !MayOpen(word, s, i) then Skip(i + 1)
    else match DollarClose(s, i + 1)
      case None => Skip(i + 1)
      case Some(close) =>
        var body := s[i + 1..close];
        if Trim(body) == "" || !MayClose(word, s, close) then Skip(i + 1)
        else
          SpelledOne(s, i, close);
          Formula(Inline(Dollars, body), close + 1)
  }

  /** The scan goes on behind i; a formula is spelled by the piece it takes, and not blank. */
  ghost predicate Advances(s: string, i: nat, r: Next) {
    match r
    case Skip(to) => i < to <= |s|
    case Formula(segment, end) =>
      i < end <= |s| && Raw(segment) == s[i..end] && !segment.Text? && Trim(segment.body) != ""
  }

  lemma Spelled(s: string, i: nat, opener: string, closer: string, close: nat)
    requires |opener| == 2 && |closer| == 2 && StartsWith(s, opener, i) && i + 2 <= close && StartsWith(s, closer, close)
    ensures s[i..close + 2] == opener + s[i + 2..close] + closer
  {
    assert s[i..close + 2] == s[i..i + 2] + s[i + 2..close] + s[close..close + 2];
  }

  lemma SpelledOne(s: string, i: nat, close: nat)
    requires i < close < |s| && s[i] == '$' == s[close]
    ensures s[i..close + 1] == "$" + s[i + 1..close] + "$"
  {
    assert s[i..i + 1] == "$" && s[close..close + 1] == "$";
    assert s[i..close + 1] == s[i..i + 1] + s[i + 1..close] + s[close..close + 1];
  }

  /** What the scan does at a character. Which characters are part of words is a matter of
      Unicode's tables, so it is a parameter. */
  function At(word: char -> bool, s: string, i: nat): (r: Next)
    requires i < |s|
    ensures Advances(s, i, r)
  {
    if IsIndentedCode(s, i) then Skip(LineEnd(s, i))
    else if CodeEnd(s, i).Some? then Skip(CodeEnd(s, i).value)
    else if Escaped(s, i) then Skip(i + 1)
    else if StartsWith(s, "\\(", i) then SlashAt(s, i, false)
    else if StartsWith(s, "\\[", i) then SlashAt(s, i, true)
    else if StartsWith(s, "$$", i) then DoubleAt(s, i)
    else if s[i] == '$' then SingleAt(word, s, i)
    else Skip(i + 1)
  }

  // ---------------------------------------------------------------------------------------
  // The whole message

  function TextOf(t: string): seq<Segment> {
    if t == "" then [] else [Text(t)]
  }

  /** The segments from `start` on, with nothing but text up to i. */
  function SplitFrom(word: char -> bool, s: string, i: nat, start: nat): seq<Segment>
    requires start <= i <= |s|
    decreases |s| - i
  {
    if i == |s| then TextOf(s[start..])
    else match At(word, s, i)
      case Skip(to) => SplitFrom(word, s, to, start)
      case Formula(segment, end) => TextOf(s[start..i]) + [segment] + SplitFrom(word, s, end, end)
  }

  function Split(word: char -> bool, s: string): seq<Segment> {
    SplitFrom(word, s, 0, 0)
  }

  lemma {:induction false} SpellsFrom(word: char -> bool, s: string, i: nat, start: nat)
    requires start <= i <= |s|
    ensures RawAll(SplitFrom(word, s, i, start)) == s[start..]
    decreases |s| - i
  {
    hide At, SplitFrom, RawAll, Raw;
    if i == |s| {
      Finish(word, s, start);
      RawOfText(s[start..]);
    } else if At(word, s, i).Skip? {
      SkipNext(word, s, i, start);
      SpellsFrom(word, s, At(word, s, i).to, start);
    } else {
      var Formula(segment, end) := At(word, s, i);
      FormulaNext(word, s, i, start, []);
      SpellsFrom(word, s, end, end);
      var later := SplitFrom(word, s, end, end);
      RawOfPieces(s[start..i], segment, later);
      assert s[start..] == s[start..i] + s[i..end] + s[end..];
      assert SplitFrom(word, s, i, start) == TextOf(s[start..i]) + [segment] + later;
    }
  }

  lemma RawOfText(t: string)
    ensures RawAll(TextOf(t)) == t
  {
    assert t != "" ==> RawAll([Text(t)][1..]) == "";
  }

  lemma RawOfFirst(segment: Segment, later: seq<Segment>)
    ensures RawAll([segment] + later) == Raw(segment) + RawAll(later)
  {
    hide Raw;
    assert ([segment] + later)[1..] == later;
  }

  lemma RawOfPieces(t: string, segment: Segment, later: seq<Segment>)
    ensures RawAll(TextOf(t) + [segment] + later) == t + Raw(segment) + RawAll(later)
  {
    RawOfFirst(segment, later);
    RawOfFirst(Text(t), [segment] + later);
    assert Raw(Text(t)) == t;
    assert TextOf(t) == if t == "" then [] else [Text(t)];
    hide *;
    if t == "" {
      assert TextOf(t) + [segment] == [segment] && t + Raw(segment) == Raw(segment);
    } else {
      Assoc([Text(t)], [segment], later);
      Assoc(t, Raw(segment), RawAll(later));
    }
  }

  /** The segments' pieces always put the message together again. */
  lemma SplitSpells(word: char -> bool, s: string)
    ensures RawAll(Split(word, s)) == s
  {
    SpellsFrom(word, s, 0, 0);
  }

  /** No text is empty and no formula blank, and no text follows a text. */
  ghost predicate Proper(segs: seq<Segment>) {
    && (forall k :: 0 <= k < |segs| ==> if segs[k].Text? then segs[k].value != "" else Trim(segs[k].body) != "")
    && (forall k :: 0 < k < |segs| && segs[k - 1].Text? ==> !segs[k].Text?)
  }

  lemma ProperPieces(t: string, segment: Segment, later: seq<Segment>)
    requires !segment.Text? && Trim(segment.body) != "" && Proper(later)
    ensures Proper(TextOf(t) + [segment] + later)
  {
    hide Trim;
    var front := TextOf(t) + [segment];
    var all := front + later;
    assert front[|front| - 1] == segment && (|front| == 2 ==> front[0] == Text(t));
    assert forall k :: 0 <= k < |all| ==> all[k] == if k < |front| then front[k] else later[k - |front|];
  }

  lemma {:induction false} ProperFrom(word: char -> bool, s: string, i: nat, start: nat)
    requires start <= i <= |s|
    ensures Proper(SplitFrom(word, s, i, start))
    decreases |s| - i
  {
    hide At, SplitFrom, Proper;
    if i == |s| {
      Finish(word, s, start);
      ProperText(s[start..]);
    } else if At(word, s, i).Skip? {
      SkipNext(word, s, i, start);
      ProperFrom(word, s, At(word, s, i).to, start);
    } else {
      var Formula(segment, end) := At(word, s, i);
      FormulaNext(word, s, i, start, []);
      ProperFrom(word, s, end, end);
      ProperPieces(s[start..i], segment, SplitFrom(word, s, end, end));
    }
  }

  lemma ProperText(t: string)
    ensures Proper(TextOf(t))
  {}

  lemma SplitIsProper(word: char -> bool, s: string)
    ensures Proper(Split(word, s))
  {
    ProperFrom(word, s, 0, 0);
  }

  // ---------------------------------------------------------------------------------------
  // The scanning loop

  /** Behind an opener that has no closer there is nothing to see, and neither behind a later one. */
  lemma Unclosed(word: char -> bool, s: string, i: nat, start: nat, block: bool)
    requires start <= i < |s| && StartsWith(s, Opener(block), i) && !Escaped(s, i)
    requires AllEscaped(s, Closer(block), i + 2)
    ensures i + 2 <= |s| && SplitFrom(word, s, i, start) == SplitFrom(word, s, i + 2, start)
  {
    NoneLeft(s, Closer(block), i + 2);
    assert s[i] == Opener(block)[0] == '\\' && s[i + 1] == Opener(block)[1];
    OpenerAt(s, i, block);
    assert At(word, s, i) == SlashAt(s, i, block) == Skip(i + 1);
    assert At(word, s, i + 1) == Skip(i + 2) by {
      assert Escaped(s, i + 1);
    }
  }

  lemma OpenerAt(s: string, i: nat, block: bool)
    requires StartsWith(s, Opener(block), i)
    ensures s[i] == '\\' && !IsIndentedCode(s, i) && CodeEnd(s, i).None?
    ensures StartsWith(s, "\\(", i) <==> !block
    ensures StartsWith(s, "\\[", i) <==> block
  {
    assert s[i] == Opener(block)[0] && s[i + 1] == Opener(block)[1];
    FirstCharacter(s, "    ", i);
  }

  lemma FirstCharacter(s: string, needle: string, i: nat)
    requires needle != ""
    ensures StartsWith(s, needle, i) ==> i < |s| && s[i] == needle[0]
  {}

  /** A backslash formula at i, or where the scan goes on; `exhausted` remembers that there is
      no closer of this kind any more. */
  method ReadSlash(s: string, i: nat, block: bool, exhausted: bool) returns (r: Next, exhausted': bool)
    requires i < |s| && StartsWith(s, Opener(block), i) && !exhausted
    ensures r == SlashAt(s, i, block)
    ensures exhausted' ==> AllEscaped(s, Closer(block), i + 2)
  {
    exhausted' := exhausted;
    var close := FindUnescapedFrom(s, Closer(block), i + 2);
    if close.None? {
      NoneLeft(s, Closer(block), i + 2);
      return Skip(i + 1), true;
    }
    var innermostOpen := FindInnermost(s, Opener(block), i, close.value);
    if innermostOpen != i {
      return Skip(innermostOpen), exhausted';
    }
    var body := s[i + 2..close.value];
    if Trim(body) != "" {
      return Formula(MakeFormula(block, Backslash, body), close.value + 2), exhausted';
    }
    return Skip(i + 1), exhausted';
  }

  method ReadDollars(word: char -> bool, s: string, i: nat) returns (r: Next)
    requires i < |s| && s[i] == '$' && !Escaped(s, i)
    ensures r == if StartsWith(s, "$$", i) then DoubleAt(s, i) else SingleAt(word, s, i)
  {
    if StartsWith(s, "$$", i) {
      var close := FindUnescapedFrom(s, "$$", i + 2);
      if close.Some? && Trim(s[i + 2..close.value]) != "" {
        return Formula(Block(Dollars, s[i + 2..close.value]), close.value + 2);
      }
      return Skip(i + 1);
    }
    if MayOpen(word, s, i) {
      var close := FindDollarClose(s, i + 1);
      if close.Some? && Trim(s[i + 1..close.value]) != "" && MayClose(word, s, close.value) {
        return Formula(Inline(Dollars, s[i + 1..close.value]), close.value + 1);
      }
    }
    return Skip(i + 1);
  }

  /** Behind a code span or fence that starts here. */
  method ReadCode(s: string, i: nat) returns (r: Option<nat>)
    requires i < |s|
    ensures r == CodeEnd(s, i)
  {
    var fence := s[i] == '~' && IsFenceMarker(s, i);
    var escaped := IsEscaped(s, i);
    if !fence && (s[i] != '`' || escaped) {
      return None;
    }
    var run := CountRun(s, i, s[i]);
    var close := IndexOf(s, Repeat(s[i], run), i + run);
    return if close.Some? then Some(close.value + run) else None;
  }

  /** Adds text to the text in front, if there is any. */
  method PushText(segments: seq<Segment>, value: string) returns (r: seq<Segment>)
    ensures value == "" ==> r == segments
    ensures (segments == [] || !segments[|segments| - 1].Text?) ==> r == segments + TextOf(value)
  {
    if value == "" {
      return segments;
    }
    if segments != [] && segments[|segments| - 1].Text? {
      var previous := segments[|segments| - 1];
      return segments[..|segments| - 1] + [Text(previous.value + value)];
    }
    return segments + [Text(value)];
  }

  lemma FormulaNext(word: char -> bool, s: string, i: nat, start: nat, done: seq<Segment>)
    requires start <= i < |s| && At(word, s, i).Formula?
    ensures var Formula(segment, end) := At(word, s, i);
            done + SplitFrom(word, s, i, start) == done + TextOf(s[start..i]) + [segment] + SplitFrom(word, s, end, end)
    ensures SplitFrom(word, s, i, start) == TextOf(s[start..i]) + [At(word, s, i).segment] + SplitFrom(word, s, At(word, s, i).end, At(word, s, i).end)
  {
    var Formula(segment, end) := At(word, s, i);
    assert SplitFrom(word, s, i, start) == TextOf(s[start..i]) + [segment] + SplitFrom(word, s, end, end);
    hide *;
    Regroup4(done, TextOf(s[start..i]), [segment], SplitFrom(word, s, end, end));
  }

  lemma Regroup4<T>(a: seq<T>, b: seq<T>, c: seq<T>, d: seq<T>)
    ensures a + (b + c + d) == a + b + c + d
  {}

  lemma SkipNext(word: char -> bool, s: string, i: nat, start: nat)
    requires start <= i < |s| && At(word, s, i).Skip?
    ensures i < At(word, s, i).to <= |s|
    ensures SplitFrom(word, s, i, start) == SplitFrom(word, s, At(word, s, i).to, start)
  {}

  /** The scanning loop. */
  method SplitMathContent(word: char -> bool, source: string) returns (segments: seq<Segment>)
    ensures segments == Split(word, source)
  {
    hide At, SplitFrom, CodeEnd, IsIndentedCode, LineEnd, AllEscaped, Escaped, SlashAt, DoubleAt, SingleAt;
    segments := [];
    var textStart, index := 0, 0;
    var inlineExhausted, blockExhausted := false, false;
    while index < |source|
      invariant textStart <= index <= |source|
      invariant Split(word, source) == segments + SplitFrom(word, source, index, textStart)
      invariant segments != [] ==> !segments[|segments| - 1].Text?
      invariant inlineExhausted ==> AllEscaped(source, Closer(false), index + 1)
      invariant blockExhausted ==> AllEscaped(source, Closer(true), index + 1)
      decreases |source| - index
    {
      Branches(word, source, index);
      if inlineExhausted {
        StillEscaped(source, Closer(false), index + 1);
      }
      if blockExhausted {
        StillEscaped(source, Closer(true), index + 1);
      }
      var next;
      if IsIndentedCode(source, index) {
        next := Skip(LineEnd(source, index));
      } else {
        var code := ReadCode(source, index);
        var escaped := IsEscaped(source, index);
        if code.Some? {
          next := Skip(code.value);
        } else if !escaped && (StartsWith(source, "\\(", index) || StartsWith(source, "\\[", index)) {
          var block := StartsWith(source, "\\[", index);
          if if block then blockExhausted else inlineExhausted {
            Unclosed(word, source, index, textStart, block);
            index := index + 2;
            continue;
          }
          var exhausted;
          next, exhausted := ReadSlash(source, index, block, false);
          if exhausted {
            StillEscaped(source, Closer(block), index + 2);
          }
          inlineExhausted, blockExhausted := inlineExhausted || (!block && exhausted), blockExhausted || (block && exhausted);
        } else if !escaped && source[index] == '$' {
          next := ReadDollars(word, source, index);
        } else {
          next := Skip(index + 1);
        }
      }
      assert next == At(word, source, index);
      match next
      case Skip(to) =>
        SkipNext(word, source, index, textStart);
        index := to;
      case Formula(segment, end) =>
        FormulaNext(word, source, index, textStart, segments);
        segments := PushText(segments, source[textStart..index]);
        segments := segments + [segment];
        index, textStart := end, end;
    }
    Finish(word, source, textStart);
    segments := PushText(segments, source[textStart..]);
  }

  lemma Finish(word: char -> bool, s: string, start: nat)
    requires start <= |s|
    ensures SplitFrom(word, s, |s|, start) == TextOf(s[start..])
  {}

  lemma StillEscaped(s: string, needle: string, from: nat)
    requires AllEscaped(s, needle, from)
    ensures forall k: nat :: from <= k ==> AllEscaped(s, needle, k)
  {}

  /** The branches of `At`, one by one. */
  lemma Branches(word: char -> bool, s: string, i: nat)
    requires i < |s|
    ensures Advances(s, i, At(word, s, i))
    ensures At(word, s, i) ==
            if IsIndentedCode(s, i) then Skip(LineEnd(s, i))
            else if CodeEnd(s, i).Some? then Skip(CodeEnd(s, i).value)
            else if !Escaped(s, i) && StartsWith(s, "\\[", i) then SlashAt(s, i, true)
            else if !Escaped(s, i) && StartsWith(s, "\\(", i) then SlashAt(s, i, false)
            else if !Escaped(s, i) && s[i] == '$' then if StartsWith(s, "$$", i) then DoubleAt(s, i) else SingleAt(word, s, i)
            else Skip(i + 1)
  {
    assert !(StartsWith(s, "\\[", i) && StartsWith(s, "\\(", i)) by {
      if StartsWith(s, "\\[", i) {
        assert s[i + 1] == "\\["[1];
      }
      if StartsWith(s, "\\(", i) {
        assert s[i + 1] == "\\("[1];
      }
    }
    assert StartsWith(s, "$$", i) ==> s[i] == "$$"[0];
  }
}
