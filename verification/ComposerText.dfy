/** The composer's conversion as a function on messages: what it does to every text, which
    texts it leaves alone, and when doing it twice is doing it once. */
module ComposerText {
  import opened Prelude
  import opened Whitespace
  import opened ComposerDocument
  import opened ComposerRoundTrip
  import opened MathContent
  import opened MathRecognition

  /** A message after a trip through the composer. */
  function Converted(word: char -> bool, value: string): string {
    Value(Document(Split(word, NormalizeNewlines(value))))
  }

  method Convert(word: char -> bool, value: string) returns (r: string)
    ensures r == Converted(word, value)
  {
    var segments := SplitMathContent(word, NormalizeNewlines(value));
    var blocks := ValueToDocument(segments);
    r := DocumentToValue(blocks);
  }

  /** Every message comes back with its own segments in their canonical form. */
  lemma ConvertedIsCanonical(word: char -> bool, value: string)
    ensures Converted(word, value) == Canonical(Split(word, NormalizeNewlines(value)))
    ensures NoReturns(Converted(word, value))
  {
    var segs := Split(word, NormalizeNewlines(value));
    SplitSpells(word, NormalizeNewlines(value));
    NormalizeDropsReturns(value);
    RoundTrip(segs);
    NormalizeDropsReturns(Unnormalized(Document(segs)));
  }

  // ---------------------------------------------------------------------------------------
  // Which messages stay as they are

  /** The segment is written the way the composer writes it, if a block has just ended or not. */
  predicate IsTidy(adjacent: bool, s: Segment) {
    s.Text? || (!(adjacent && s.Block?) && s.style == Backslash && Trim(s.body) == s.body)
  }

  /** All formulas are in backslash delimiters and trimmed, and no block stands right behind
      a block. */
  predicate Tidy(adjacent: bool, segs: seq<Segment>)
    decreases |segs|
  {
    segs == [] || (IsTidy(adjacent, segs[0]) && Tidy(segs[0].Block? || (adjacent && Raw(segs[0]) == ""), segs[1..]))
  }

  lemma {:induction false} StartEdge(s: string) returns (a: string)
    ensures s == a + TrimStart(s) && (a != "" ==> IsSpace(a[0]))
  {
    if s != "" && IsSpace(s[0]) {
      var rest := StartEdge(s[1..]);
      a := [s[0]] + rest;
      assert s == [s[0]] + s[1..];
    } else {
      a := "";
    }
  }

  lemma {:induction false} EndEdge(s: string) returns (b: string)
    ensures s == TrimEnd(s) + b && (b != "" ==> IsSpace(b[0]))
  {
    if s != "" && IsSpace(s[|s| - 1]) {
      var rest := EndEdge(s[..|s| - 1]);
      b := rest + [s[|s| - 1]];
      assert s == s[..|s| - 1] + [s[|s| - 1]];
    } else {
      b := "";
    }
  }

  /** What trimming takes away starts with white space, and what it leaves does not. */
  lemma Edges(s: string) returns (a: string, b: string)
    requires Trim(s) != ""
    ensures s == a + Trim(s) + b && (a != "" ==> IsSpace(a[0])) && (b != "" ==> IsSpace(b[0])) && !IsSpace(Trim(s)[0])
  {
    a := StartEdge(s);
    b := EndEdge(TrimStart(s));
    TrimStartStarts(s);
    TrimEndIsPrefix(TrimStart(s));
    assert Trim(s)[0] == TrimStart(s)[0];
    hide TrimStart, TrimEnd;
    assert a + (Trim(s) + b) == a + Trim(s) + b;
  }

  /** A formula that is not tidy is seen to be changed, whatever follows it. */
  lemma UntidyShows(adjacent: bool, s: Segment, r: string, c: string)
    requires !s.Text? && Trim(s.body) != ""
    requires (if adjacent && s.Block? then "\n" else "") + Out(s) + c == Raw(s) + r
    ensures IsTidy(adjacent, s)
  {
    DelimiterShows(adjacent, s, r, c);
    assert "" + Out(s) == Out(s);
    BodyShows(s, r, c);
  }

  lemma DelimiterShows(adjacent: bool, s: Segment, r: string, c: string)
    requires !s.Text?
    requires (if adjacent && s.Block? then "\n" else "") + Out(s) + c == Raw(s) + r
    ensures !(adjacent && s.Block?) && s.style == Backslash
  {
    assert Raw(s)[0] == if s.style == Backslash then '\\' else '$';
    assert Out(s)[0] == '\\';
    hide Raw, Out;
    FirstIs(if adjacent && s.Block? then "\n" else "", Out(s) + c);
    FirstIs(Raw(s), r + "x");
    assert (Raw(s) + r)[0] == Raw(s)[0];
    assert ((if adjacent && s.Block? then "\n" else "") + Out(s) + c)[0] == if adjacent && s.Block? then '\n' else '\\';
  }

  lemma BodyShows(s: Segment, r: string, c: string)
    requires !s.Text? && s.style == Backslash && Trim(s.body) != "" && Out(s) + c == Raw(s) + r
    ensures Trim(s.body) == s.body
  {
    var open, close := Opener(s.Block?), Closer(s.Block?);
    Delimited(s);
    var a, b := Edges(s.body);
    hide *;
    Unwrap(open, Trim(s.body), s.body, close, c, r);
    NothingInside(a, Trim(s.body), b, s.body, close + c, close + r);
  }

  lemma Delimited(s: Segment)
    requires !s.Text? && s.style == Backslash
    ensures Out(s) == Opener(s.Block?) + Trim(s.body) + Closer(s.Block?)
    ensures Raw(s) == Opener(s.Block?) + s.body + Closer(s.Block?)
    ensures forall x :: Closer(s.Block?) + x != "" && (Closer(s.Block?) + x)[0] == '\\'
  {
    hide Trim;
  }

  lemma NothingInside(a: string, t: string, b: string, body: string, x: string, y: string)
    requires t != "" && !IsSpace(t[0]) && (a != "" ==> IsSpace(a[0])) && (b != "" ==> IsSpace(b[0]))
    requires x != "" && x[0] == '\\' && y != "" && y[0] == '\\' && body == a + t + b && t + x == body + y
    ensures body == t
  {
    assert body + y == a + (t + (b + y));
    NothingAround(a, t, b, x, y);
    assert "" + t + "" == t;
  }

  lemma Unwrap(open: string, t: string, body: string, close: string, c: string, r: string)
    requires (open + t + close) + c == (open + body + close) + r
    ensures t + (close + c) == body + (close + r)
  {
    assert (open + t + close) + c == open + (t + (close + c));
    assert (open + body + close) + r == open + (body + (close + r));
    SameStart(open, t + (close + c), body + (close + r));
  }

  lemma FirstIs(x: string, y: string)
    requires y != ""
    ensures (x + y)[0] == if x != "" then x[0] else y[0]
  {}

  lemma NothingAround(a: string, t: string, b: string, x: string, y: string)
    requires t != "" && !IsSpace(t[0]) && (a != "" ==> IsSpace(a[0])) && (b != "" ==> IsSpace(b[0]))
    requires x != "" && x[0] == '\\' && y != "" && y[0] == '\\' && t + x == a + (t + (b + y))
    ensures a == b == ""
  {
    FirstIs(t, x);
    FirstIs(a, t + (b + y));
    FirstIs(t, b + y);
    assert a == "";
    assert "" + (t + (b + y)) == t + (b + y);
    SameStart(t, x, b + y);
    FirstIs(b, y);
  }

  lemma SameStart(x: string, a: string, b: string)
    ensures x + a == x + b <==> a == b
  {
    assert (x + a)[|x|..] == a && (x + b)[|x|..] == b;
  }

  /** Spelling proper segments canonically changes nothing exactly if they are tidy. */
  lemma {:induction false} TidyExactly(adjacent: bool, segs: seq<Segment>)
    requires forall k :: 0 <= k < |segs| && !segs[k].Text? ==> Trim(segs[k].body) != ""
    ensures CanonicalFrom(adjacent, segs) == RawAll(segs) <==> Tidy(adjacent, segs)
    decreases |segs|
  {
    if segs != [] {
      var s, rest := segs[0], segs[1..];
      var next := s.Block? || (adjacent && Raw(s) == "");
      var gap, r, c := if adjacent && s.Block? then "\n" else "", RawAll(rest), CanonicalFrom(next, rest);
      TidyExactly(next, rest);
      assert CanonicalFrom(adjacent, segs) == gap + Out(s) + c && RawAll(segs) == Raw(s) + r;
      assert Tidy(adjacent, segs) <==> IsTidy(adjacent, s) && Tidy(next, rest);
      assert IsTidy(adjacent, s) ==> gap == "" && Out(s) == Raw(s);
      hide CanonicalFrom, RawAll, Tidy, Trim, Out, Raw;
      if IsTidy(adjacent, s) {
        assert gap + Out(s) == Raw(s);
        SameStart(Raw(s), c, r);
      } else if gap + Out(s) + c == Raw(s) + r {
        UntidyShows(adjacent, s, r, c);
      }
    }
  }

  /** The composer leaves a message as it is exactly if it has no carriage return, its formulas
      are in trimmed backslash delimiters, and no two blocks touch. */
  lemma FixedExactly(word: char -> bool, value: string)
    ensures Converted(word, value) == value <==> NoReturns(value) && Tidy(false, Split(word, value))
  {
    ConvertedIsCanonical(word, value);
    NormalizeDropsReturns(value);
    if NoReturns(value) {
      SplitSpells(word, value);
      SplitIsProper(word, value);
      hide Split, Converted, NormalizeNewlines, Tidy;
      TidyExactly(false, Split(word, value));
    }
  }

  /** So converting twice is converting once exactly if the message converted once is cut into
      formulas in trimmed backslash delimiters, with no two blocks touching. */
  lemma IdempotentExactly(word: char -> bool, value: string)
    ensures var once := Converted(word, value);
            Converted(word, once) == once <==> Tidy(false, Split(word, once))
  {
    ConvertedIsCanonical(word, value);
    FixedExactly(word, Converted(word, value));
  }

  /** The canonical segments are tidy: it is enough that the second cut finds the same ones. */
  lemma {:induction false} CanonicalIsTidy(adjacent: bool, segs: seq<Segment>)
    ensures Tidy(adjacent, CanonicalSegments(adjacent, segs))
    decreases |segs|
  {
    hide Trim, Raw, IsTidy, CanonicalSegment, Tidy;
    if segs == [] {
      TidyNothing(adjacent);
    } else {
      var s := segs[0];
      var next := s.Block? || (adjacent && Raw(s) == "");
      CanonicalIsTidy(next, segs[1..]);
      CanonicalOne(s);
      GapIsTidy(adjacent, CanonicalSegment(s), CanonicalSegments(next, segs[1..]));
    }
  }

  lemma TidyNothing(adjacent: bool)
    ensures Tidy(adjacent, [])
  {}

  lemma GapIsTidy(adjacent: bool, one: Segment, later: seq<Segment>)
    requires IsTidy(false, one) && Tidy(one.Block? || (adjacent && Raw(one) == ""), later)
    ensures Tidy(adjacent, (if adjacent && one.Block? then [NEWLINE] else []) + [one] + later)
  {
    hide Raw, IsTidy, Tidy;
    var inner := [one] + later;
    if adjacent && one.Block? {
      NewlineIsTidy();
      TidyFirst(false, one, later);
      TidyFirst(adjacent, NEWLINE, inner);
      assert [NEWLINE] + [one] + later == [NEWLINE] + inner;
    } else {
      TidyUnless(adjacent, one);
      TidyFirst(adjacent, one, later);
      assert [] + [one] + later == inner;
    }
  }

  lemma TidyFirst(adjacent: bool, s: Segment, rest: seq<Segment>)
    ensures Tidy(adjacent, [s] + rest) <==> IsTidy(adjacent, s) && Tidy(s.Block? || (adjacent && Raw(s) == ""), rest)
  {
    assert ([s] + rest)[1..] == rest;
    hide IsTidy, Raw;
  }

  lemma CanonicalOne(s: Segment)
    ensures var one := CanonicalSegment(s);
            IsTidy(false, one) && one.Block? == s.Block? && (Raw(one) == "" <==> Raw(s) == "")
  {
    if !s.Text? {
      TrimTwice(s.body);
    }
  }

  lemma NewlineIsTidy()
    ensures forall adjacent :: IsTidy(adjacent, NEWLINE)
    ensures !NEWLINE.Block? && Raw(NEWLINE) != ""
  {}

  lemma TidyUnless(adjacent: bool, s: Segment)
    requires IsTidy(false, s) && !(adjacent && s.Block?)
    ensures IsTidy(adjacent, s)
  {}

  lemma SameCutSuffices(word: char -> bool, value: string)
    ensures var segs, once := Split(word, NormalizeNewlines(value)), Converted(word, value);
            Split(word, once) == CanonicalSegments(false, segs) ==> Converted(word, once) == once
  {
    CanonicalIsTidy(false, Split(word, NormalizeNewlines(value)));
    IdempotentExactly(word, value);
  }

  // ---------------------------------------------------------------------------------------
  // A message that changes twice

  const FIRST := "$a $x$ b$"
  const SECOND := "$a \\(x\\) b$"
  const THIRD := "\\(a \\(x\\) b\\)"

  /** The first dollar finds its closer behind a blank, the last has nothing behind it. */
  lemma FirstDollar(word: char -> bool)
    ensures At(word, FIRST, 0) == Skip(1)
  {
    var s := FIRST;
    assert s[0] == '$' && s[1] == 'a' && s[2] == ' ' && s[3] == '$' && s[4] == 'x';
    CloseIs(s, 1, 3);
    DollarAt(word, s, 0);
    hide At, DollarClose, Escaped;
  }

  lemma LastDollar(word: char -> bool)
    ensures At(word, FIRST, 8) == Skip(9)
  {
    var s := FIRST;
    assert s[7] == 'b' && s[8] == '$' && |s| == 9;
    DollarAt(word, s, 8);
    hide At, DollarClose, Escaped;
  }

  lemma MiddleDollars(word: char -> bool)
    requires !word(' ')
    ensures At(word, FIRST, 3) == Formula(Inline(Dollars, "x"), 6)
  {
    var s := FIRST;
    assert s[2] == ' ' && s[3] == '$' && s[4] == 'x' && s[5] == '$' && s[6] == ' ';
    DollarAt(word, s, 3);
    CloseIs(s, 4, 5);
    assert s[4..5] == "x";
    TrimKeeps("x");
  }

  lemma PlainBetween()
    ensures IsPlain(FIRST, 1) && IsPlain(FIRST, 2) && IsPlain(FIRST, 6) && IsPlain(FIRST, 7)
    ensures FIRST[0..3] == "$a " && FIRST[6..] == " b$" && |FIRST| == 9
  {}

  lemma FirstCut(word: char -> bool)
    requires !word(' ')
    ensures Split(word, FIRST) == [Text("$a "), Inline(Dollars, "x"), Text(" b$")]
  {
    hide At, IsPlain, SplitFrom, Raw;
    FirstDollar(word);
    LastDollar(word);
    MiddleDollars(word);
    PlainBetween();
    PlainRun(word, FIRST, 1, 3, 0);
    PlainRun(word, FIRST, 6, 8, 6);
    FormulaNext(word, FIRST, 3, 0, []);
    SkipNext(word, FIRST, 0, 0);
    SkipNext(word, FIRST, 8, 6);
    Finish(word, FIRST, 6);
    assert TextOf("$a ") == [Text("$a ")] && TextOf(" b$") == [Text(" b$")];
  }

  lemma OuterDollars(word: char -> bool)
    ensures |SECOND| == 11 && At(word, SECOND, 0) == Formula(Inline(Dollars, SECOND[1..10]), 11)
  {
    var s := SECOND;
    assert s[0] == '$' && s[1] == 'a' && s[2] == ' ' && s[3] == '\\' && s[4] == '(' && s[5] == 'x' && s[6] == '\\' && s[7] == ')'
           && s[8] == ' ' && s[9] == 'b' && s[10] == '$' && |s| == 11;
    CloseIs(s, 1, 10);
    TrimKeeps(s[1..10]);
    DollarAt(word, s, 0);
    hide At, DollarClose, Trim, Escaped;
  }

  lemma SecondCut(word: char -> bool)
    ensures Split(word, SECOND) == [Inline(Dollars, SECOND[1..10])]
  {
    hide At, SplitFrom, Raw;
    OuterDollars(word);
    FormulaNext(word, SECOND, 0, 0, []);
    Finish(word, SECOND, 11);
    assert TextOf(SECOND[0..0]) == [] && TextOf(SECOND[11..]) == [];
  }

  lemma CanonicalOfFirst(s: Segment, rest: seq<Segment>)
    requires !s.Block?
    ensures CanonicalFrom(false, [s] + rest) == Out(s) + CanonicalFrom(false, rest)
  {
    assert ([s] + rest)[1..] == rest;
    hide Out;
    assert "" + Out(s) == Out(s);
  }

  /** A legacy formula between two lone dollars: once it is in backslash delimiters, the two
      dollars are the delimiters of a larger formula. */
  lemma TwiceIsNotOnce(word: char -> bool)
    requires !word(' ')
    ensures Converted(word, FIRST) == SECOND && Converted(word, SECOND) == THIRD
  {
    assert NoReturns(FIRST) && NoReturns(SECOND);
    NormalizeDropsReturns(FIRST);
    NormalizeDropsReturns(SECOND);
    ConvertedIsCanonical(word, FIRST);
    ConvertedIsCanonical(word, SECOND);
    FirstCut(word);
    SecondCut(word);
    hide Converted, Split, NormalizeNewlines;
    FirstSpelled();
    SecondSpelled();
  }

  lemma FirstSpelled()
    ensures Canonical([Text("$a "), Inline(Dollars, "x"), Text(" b$")]) == SECOND
  {
    var a, x, b := Text("$a "), Inline(Dollars, "x"), Text(" b$");
    CanonicalOfFirst(a, [x, b]);
    CanonicalOfFirst(x, [b]);
    CanonicalOfFirst(b, []);
    TrimKeeps("x");
    assert [a] + [x, b] == [a, x, b] && [x] + [b] == [x, b] && [b] + [] == [b];
    assert Out(a) == "$a " && Out(x) == "\\(" + "x" + "\\)" && Out(b) == " b$" && CanonicalFrom(false, []) == "";
    hide CanonicalFrom, Out, Trim;
    assert "$a " + ("\\(" + "x" + "\\)" + (" b$" + "")) == SECOND;
  }

  lemma SecondSpelled()
    ensures Canonical([Inline(Dollars, SECOND[1..10])]) == THIRD
  {
    var x := Inline(Dollars, SECOND[1..10]);
    CanonicalOfFirst(x, []);
    TrimKeeps(SECOND[1..10]);
    assert [x] + [] == [x] && CanonicalFrom(false, []) == "" && Out(x) == "\\(" + SECOND[1..10] + "\\)";
    hide CanonicalFrom, Out, Trim;
    assert SECOND[1..10] == "a \\(x\\) b";
    assert "\\(" + "a \\(x\\) b" + "\\)" + "" == THIRD;
  }
}
