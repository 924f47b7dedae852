/** How the updater rewrites one value of the deployment's environment file. */
module EnvFile {
  import opened Whitespace

  /** The line boundaries of str.splitlines, in text read with universal newlines. */
  predicate IsBreak(c: char) {
    var u := c as int;
    10 <= u <= 13 || 0x1c <= u <= 0x1e || u == 0x85 || u == 0x2028 || u == 0x2029
  }

  /** The white space of str. */
  predicate IsBlank(c: char) {
    var u := c as int;
    || IsBreak(c) || u == 9 || u == 0x1f || u == 32 || u == 0xa0 || u == 0x1680 || 0x2000 <= u <= 0x200a
    || u == 0x202f || u == 0x205f || u == 0x3000
  }

  predicate NoBreaks(s: string) {
    forall k :: 0 <= k < |s| ==> !IsBreak(s[k])
  }

  function SplitLines(s: string): seq<string> {
    if s == "" then []
    else
      var rest := SplitLines(s[1..]);
      if IsBreak(s[0]) || rest == [] then [[s[0]]] + rest else [[s[0]] + rest[0]] + rest[1..]
  }

  function Join(lines: seq<string>): string {
    if lines == [] then "" else lines[0] + Join(lines[1..])
  }

  function SkipBlanks(s: string): string {
    if s != "" && IsBlank(s[0]) then SkipBlanks(s[1..]) else s
  }

  /** The line gives the key a value: blanks, the key, blanks, an equals sign. */
  predicate Assigns(key: string, line: string) {
    var t := SkipBlanks(line);
    key <= t && var u := SkipBlanks(t[|key|..]); u != "" && u[0] == '='
  }

  predicate HasKey(lines: seq<string>, key: string) {
    exists k :: 0 <= k < |lines| && Assigns(key, lines[k])
  }

  function Assignment(key: string, value: string): string {
    key + "=" + value + "\n"
  }

  /** The first assignment of the key replaced, later ones dropped. */
  function Replaced(lines: seq<string>, key: string, line: string, done: bool): seq<string>
    decreases |lines|
  {
    if lines == [] then []
    else if Assigns(key, lines[0]) then (if done then [] else [line]) + Replaced(lines[1..], key, line, true)
    else [lines[0]] + Replaced(lines[1..], key, line, done)
  }

  predicate EndsInNewline(s: string) {
    s != "" && s[|s| - 1] == '\n'
  }

  /** The last line with a newline at its end. */
  function Terminated(lines: seq<string>): seq<string> {
    if lines == [] || EndsInNewline(lines[|lines| - 1]) then lines
    else lines[|lines| - 1 := lines[|lines| - 1] + "\n"]
  }

  function WrittenLines(lines: seq<string>, key: string, value: string): seq<string> {
    var line := Assignment(key, value);
    if HasKey(lines, key) then Replaced(lines, key, line, false) else Terminated(lines) + [line]
  }

  /** The new content of the file. */
  function Written(original: string, key: string, value: string): string {
    Join(WrittenLines(SplitLines(original), key, value))
  }

  lemma LoopStep(lines: seq<string>, i: nat, key: string, line: string, output: seq<string>, done: bool)
    requires i < |lines|
    ensures output + Replaced(lines[i..], key, line, done) ==
            (if !Assigns(key, lines[i]) then output + [lines[i]] else if done then output else output + [line])
            + Replaced(lines[i + 1..], key, line, done || Assigns(key, lines[i]))
  {
    hide Assigns;
    assert lines[i..][1..] == lines[i + 1..] && lines[i..][0] == lines[i];
  }

  method WriteEnvValue(original: string, key: string, value: string) returns (content: string)
    ensures content == Written(original, key, value)
  {
    hide Assigns, Join, SplitLines, Assignment;
    var lines, line := SplitLines(original), Assignment(key, value);
    assert lines[0..] == lines;
    var output: seq<string> := [];
    var replaced := false;
    for i := 0 to |lines|
      invariant Replaced(lines, key, line, false) == output + Replaced(lines[i..], key, line, replaced)
      invariant replaced <==> HasKey(lines[..i], key)
      invariant !replaced ==> output == lines[..i]
    {
      LoopStep(lines, i, key, line, output, replaced);
      assert lines[..i + 1] == lines[..i] + [lines[i]];
      HasKeySnoc(lines[..i], lines[i], key);
      if Assigns(key, lines[i]) {
        if !replaced {
          output := output + [line];
          replaced := true;
        }
        continue;
      }
      output := output + [lines[i]];
    }
    assert lines[..|lines|] == lines && output + [] == output;
    if !replaced {
      if output != [] && !EndsInNewline(output[|output| - 1]) {
        output := output[|output| - 1 := output[|output| - 1] + "\n"];
      }
      output := output + [line];
    }
    content := Join(output);
  }

  lemma HasKeySnoc(lines: seq<string>, line: string, key: string)
    ensures HasKey(lines + [line], key) <==> HasKey(lines, key) || Assigns(key, line)
  {
    var all := lines + [line];
    assert all[|lines|] == line;
    assert forall k :: 0 <= k < |lines| ==> all[k] == lines[k];
  }

  // ---------------------------------------------------------------------------------------
  // Lines and texts

  /** A line: something, with a break at most at its end. */
  predicate IsLine(l: string) {
    l != "" && NoBreaks(l[..|l| - 1])
  }

  predicate Complete(l: string) {
    l != "" && IsBreak(l[|l| - 1])
  }

  /** Lines as splitting leaves them: only the last may lack its break. */
  ghost predicate WellCut(lines: seq<string>) {
    forall k :: 0 <= k < |lines| ==> IsLine(lines[k]) && (k < |lines| - 1 ==> Complete(lines[k]))
  }

  lemma WellCutRest(lines: seq<string>)
    requires WellCut(lines) && lines != []
    ensures IsLine(lines[0]) && WellCut(lines[1..]) && (|lines| > 1 ==> Complete(lines[0]))
  {}

  lemma WellCutCons(line: string, rest: seq<string>)
    requires IsLine(line) && WellCut(rest) && (rest != [] ==> Complete(line))
    ensures WellCut([line] + rest)
  {}

  lemma {:induction false} SplitIsWellCut(s: string)
    ensures WellCut(SplitLines(s)) && (SplitLines(s) == [] <==> s == "") && Join(SplitLines(s)) == s
  {
    if s != "" {
      var rest := SplitLines(s[1..]);
      SplitIsWellCut(s[1..]);
      if IsBreak(s[0]) || rest == [] {
        WellCutCons([s[0]], rest);
        assert SplitLines(s)[1..] == rest && [s[0]] + s[1..] == s;
      } else {
        var first := [s[0]] + rest[0];
        WellCutRest(rest);
        assert first[..|first| - 1] == [s[0]] + rest[0][..|rest[0]| - 1];
        WellCutCons(first, rest[1..]);
        assert SplitLines(s)[1..] == rest[1..];
        assert first + Join(rest[1..]) == [s[0]] + (rest[0] + Join(rest[1..]));
      }
    }
  }

  lemma {:induction false} SplitOfLine(l: string, rest: string)
    requires IsLine(l) && (rest == "" || Complete(l))
    ensures SplitLines(l + rest) == [l] + SplitLines(rest)
  {
    var s := l + rest;
    if |l| == 1 {
      assert s[1..] == rest && [s[0]] == l;
    } else {
      assert s[1..] == l[1..] + rest && s[0] == l[0];
      assert l[1..][..|l| - 2] == l[..|l| - 1][1..];
      SplitOfLine(l[1..], rest);
      assert !IsBreak(l[..|l| - 1][0]);
      assert [l[0]] + l[1..] == l;
    }
  }

  lemma {:induction false} SplitOfJoin(lines: seq<string>)
    requires WellCut(lines)
    ensures SplitLines(Join(lines)) == lines
  {
    if lines != [] {
      WellCutRest(lines);
      SplitOfJoin(lines[1..]);
      if |lines| == 1 {
        assert Join(lines[1..]) == "";
      }
      SplitOfLine(lines[0], Join(lines[1..]));
      assert [lines[0]] + lines[1..] == lines;
    }
  }

  // ---------------------------------------------------------------------------------------
  // What the rewriting does

  predicate IsKey(key: string) {
    key != "" && NoBreaks(key) && forall k :: 0 <= k < |key| ==> !IsBlank(key[k])
  }

  lemma AssignmentAssigns(key: string, value: string)
    requires IsKey(key) && NoBreaks(value)
    ensures Assigns(key, Assignment(key, value)) && IsLine(Assignment(key, value)) && Complete(Assignment(key, value))
  {
    var line := Assignment(key, value);
    assert !IsBlank(line[0]) && line[..|key|] == key;
    assert line[|key|..][0] == '=';
    assert line[..|line| - 1] == key + "=" + value;
  }

  predicate Blanks(s: string) {
    forall k :: 0 <= k < |s| ==> IsBlank(s[k])
  }

  lemma {:induction false} SkipAll(blanks: string, rest: string)
    requires Blanks(blanks) && (rest != "" ==> !IsBlank(rest[0]))
    ensures SkipBlanks(blanks + rest) == rest
  {
    if blanks == "" {
      assert blanks + rest == rest;
    } else {
      assert (blanks + rest)[1..] == blanks[1..] + rest;
      SkipAll(blanks[1..], rest);
    }
  }

  lemma {:induction false} Skipped(s: string) returns (blanks: string)
    ensures s == blanks + SkipBlanks(s) && Blanks(blanks)
  {
    if s != "" && IsBlank(s[0]) {
      var rest := Skipped(s[1..]);
      blanks := [s[0]] + rest;
      assert s == [s[0]] + s[1..];
    } else {
      blanks := "";
    }
  }

  /** The pieces of an assignment. */
  ghost predicate Pieces(line: string, key: string, a: string, b: string, rest: string) {
    Blanks(a) && Blanks(b) && line == a + key + b + "=" + rest
  }

  /** A line assigns the key exactly if it is blanks, the key, blanks, an equals sign and whatever
      follows. */
  lemma AssignsExactly(key: string, line: string)
    requires IsKey(key)
    ensures Assigns(key, line) <==> exists a, b, rest :: Pieces(line, key, a, b, rest)
  {
    if Assigns(key, line) {
      var t := SkipBlanks(line);
      var a := Skipped(line);
      var b := Skipped(t[|key|..]);
      var rest := SkipBlanks(t[|key|..])[1..];
      assert t == key + t[|key|..] && SkipBlanks(t[|key|..]) == "=" + rest;
      assert line == a + (key + (b + ("=" + rest))) == a + key + b + "=" + rest;
      assert Pieces(line, key, a, b, rest);
    }
    if a, b, rest :| Pieces(line, key, a, b, rest) {
      var t := key + (b + ("=" + rest));
      assert line == a + t && t[0] == key[0] && t[|key|..] == b + ("=" + rest);
      SkipAll(a, t);
      assert !IsBlank('=');
      SkipAll(b, "=" + rest);
      assert key <= t;
    }
  }

  /** A commented line assigns nothing: it is no assignment that a rewriting may touch. */
  lemma CommentAssignsNothing(key: string, blanks: string, rest: string)
    requires IsKey(key) && key[0] != '#' && Blanks(blanks)
    ensures !Assigns(key, blanks + "#" + rest)
  {
    assert blanks + "#" + rest == blanks + ("#" + rest);
    SkipAll(blanks, "#" + rest);
  }

  /** Spaces and tabs are such blanks. */
  lemma IndentedAssigns(key: string, value: string)
    requires IsKey(key)
    ensures Assigns(key, " \t" + key + " \t= " + value)
  {
    var a, rest := " \t", " " + value;
    assert Blanks(a);
    assert a + key + " \t= " + value == a + key + a + "=" + rest;
    assert Pieces(a + key + " \t= " + value, key, a, a, rest);
    AssignsExactly(key, a + key + " \t= " + value);
  }

  function Keeping(lines: seq<string>, key: string): seq<string> {
    if lines == [] then []
    else if Assigns(key, lines[0]) then [lines[0]] + Keeping(lines[1..], key) else Keeping(lines[1..], key)
  }

  function Dropping(lines: seq<string>, key: string): seq<string> {
    if lines == [] then []
    else if Assigns(key, lines[0]) then Dropping(lines[1..], key) else [lines[0]] + Dropping(lines[1..], key)
  }

  lemma {:induction false} ReplacedEffect(lines: seq<string>, key: string, line: string, done: bool)
    requires WellCut(lines) && Assigns(key, line) && IsLine(line) && Complete(line)
    ensures var r := Replaced(lines, key, line, done);
            && WellCut(r)
            && Dropping(r, key) == Dropping(lines, key)
            && Keeping(r, key) == (if !done && HasKey(lines, key) then [line] else [])
            && Replaced(r, key, line, done) == r
            && (lines == [] ==> r == [])
    decreases |lines|
  {
    if lines != [] {
      var first, rest := lines[0], lines[1..];
      WellCutRest(lines);
      var assigns := Assigns(key, first);
      ReplacedEffect(rest, key, line, done || assigns);
      HasKeyCons(lines, key);
      var tail := Replaced(rest, key, line, done || assigns);
      var r := Replaced(lines, key, line, done);
      hide Assigns, IsLine, Complete, HasKey;
      if assigns {
        if done {
          assert r == [] + tail == tail;
        } else {
          assert r == [line] + tail && r[1..] == tail;
          WellCutCons(line, tail);
          assert [line] + [] == [line];
        }
      } else {
        assert r == [first] + tail && r[1..] == tail;
        WellCutCons(first, tail);
      }
    }
  }

  lemma HasKeyCons(lines: seq<string>, key: string)
    requires lines != []
    ensures HasKey(lines, key) <==> Assigns(key, lines[0]) || HasKey(lines[1..], key)
  {
    if HasKey(lines, key) {
      var k :| 0 <= k < |lines| && Assigns(key, lines[k]);
      assert k > 0 ==> lines[1..][k - 1] == lines[k];
    }
    if HasKey(lines[1..], key) {
      var k :| 0 <= k < |lines[1..]| && Assigns(key, lines[1..][k]);
      assert lines[k + 1] == lines[1..][k];
    }
  }

  /** The text with a newline at its end. */
  function TerminatedText(s: string): string {
    if s == "" || EndsInNewline(s) then s else s + "\n"
  }

  lemma {:induction false} JoinOfTerminated(lines: seq<string>)
    requires forall k :: 0 <= k < |lines| ==> lines[k] != ""
    ensures Join(Terminated(lines)) == TerminatedText(Join(lines)) && (Join(lines) == "" <==> lines == [])
  {
    if |lines| == 1 {
      assert Join(lines[1..]) == "" && lines[0] + "" == lines[0];
      assert Terminated(lines)[1..] == [];
    } else if |lines| > 1 {
      var rest := lines[1..];
      JoinOfTerminated(rest);
      assert Terminated(lines)[0] == lines[0] && Terminated(lines)[1..] == Terminated(rest);
      assert rest[|rest| - 1] == lines[|lines| - 1];
      TerminatedConcat(lines[0], Join(rest));
    }
  }

  lemma TerminatedConcat(a: string, b: string)
    requires b != ""
    ensures TerminatedText(a + b) == a + TerminatedText(b)
  {
    assert a + b + "\n" == a + (b + "\n");
  }

  lemma {:induction false} JoinOfConcat(a: seq<string>, b: seq<string>)
    ensures Join(a + b) == Join(a) + Join(b)
  {
    if a == [] {
      assert a + b == b && "" + Join(b) == Join(b);
    } else {
      var first, rest := a[0], a[1..];
      JoinOfConcat(rest, b);
      assert (a + b)[1..] == rest + b && (a + b)[0] == first;
      assert first + (Join(rest) + Join(b)) == (first + Join(rest)) + Join(b);
    }
  }

  lemma LastLine(s: string)
    requires s != ""
    ensures var lines := SplitLines(s);
            && lines != [] && s == Join(lines[..|lines| - 1]) + lines[|lines| - 1]
            && lines[|lines| - 1] != "" && lines[|lines| - 1][|lines[|lines| - 1]| - 1] == s[|s| - 1]
  {
    hide SplitLines, Join;
    SplitIsWellCut(s);
    var lines := SplitLines(s);
    var front, last := lines[..|lines| - 1], lines[|lines| - 1];
    assert lines == front + [last];
    JoinOfSnoc(front, last);
    assert (Join(front) + last)[|Join(front)| + |last| - 1] == last[|last| - 1];
  }

  /** Text after a break is split on its own. */
  lemma SplitOfConcat(a: string, b: string)
    requires a == "" || IsBreak(a[|a| - 1])
    ensures SplitLines(a + b) == SplitLines(a) + SplitLines(b)
  {
    if a == "" {
      assert a + b == b;
    } else {
      hide SplitLines, Join;
      SplitIsWellCut(a);
      SplitIsWellCut(b);
      LastLine(a);
      JoinOfConcat(SplitLines(a), SplitLines(b));
      SplitOfJoin(SplitLines(a) + SplitLines(b));
    }
  }

  lemma {:induction false} SkipBlanksConcat(a: string, b: string)
    ensures SkipBlanks(a + b) == if SkipBlanks(a) == "" then SkipBlanks(b) else SkipBlanks(a) + b
    decreases |a|
  {
    if a == "" {
      assert a + b == b;
    } else if IsBlank(a[0]) {
      assert (a + b)[1..] == a[1..] + b;
      SkipBlanksConcat(a[1..], b);
    }
  }

  /** A newline at its end does not make a line assign a key. */
  lemma AssignsWithNewline(key: string, line: string)
    requires IsKey(key)
    ensures Assigns(key, line + "\n") <==> Assigns(key, line)
    ensures !Assigns(key, "\n")
  {
    SkipBlanksConcat(line, "\n");
    var t := SkipBlanks(line);
    assert SkipBlanks("\n") == SkipBlanks("\n"[1..]) == "";
    if t != "" {
      if key <= t + "\n" {
        assert key[|key| - 1] != '\n';
        assert (t + "\n")[|key| - 1] == key[|key| - 1];
        assert key <= t;
      }
      if key <= t {
        SkipBlanksConcat(t[|key|..], "\n");
        assert (t + "\n")[|key|..] == t[|key|..] + "\n";
      }
    }
  }

  lemma {:induction false} NoKeyKeepsNothing(lines: seq<string>, key: string)
    ensures !HasKey(lines, key) <==> Keeping(lines, key) == []
  {
    if lines != [] {
      HasKeyCons(lines, key);
      NoKeyKeepsNothing(lines[1..], key);
    }
  }

  lemma {:induction false} KeepingConcat(a: seq<string>, b: seq<string>, key: string)
    ensures Keeping(a + b, key) == Keeping(a, key) + Keeping(b, key)
    ensures Dropping(a + b, key) == Dropping(a, key) + Dropping(b, key)
  {
    hide Assigns;
    if a == [] {
      assert a + b == b;
    } else {
      assert (a + b)[1..] == a[1..] + b && (a + b)[0] == a[0];
      KeepingConcat(a[1..], b, key);
    }
  }

  /** Putting a newline at the end of a file changes no assignment, if those there are end in one. */
  lemma TerminatedKeeps(s: string, key: string)
    requires IsKey(key) && forall l :: l in Keeping(SplitLines(s), key) ==> EndsInNewline(l)
    ensures Keeping(SplitLines(TerminatedText(s)), key) == Keeping(SplitLines(s), key)
  {
    if s != "" && !EndsInNewline(s) {
      LastLine(s);
      hide SplitLines, Join;
      var lines := SplitLines(s);
      var front, last := lines[..|lines| - 1], lines[|lines| - 1];
      assert lines == front + [last];
      KeepingConcat(front, [last], key);
      KeepingOne(last, key);
      KeepingOne(last + "\n", key);
      KeepingOne("\n", key);
      AssignsWithNewline(key, last);
      assert !EndsInNewline(last);
      KeepingMember(lines, key, last);
      hide Assigns;
      if IsBreak(s[|s| - 1]) {
        SplitOfConcat(s, "\n");
        SplitOfNewline();
        KeepingConcat(lines, ["\n"], key);
      } else {
        SplitOfUnfinished(s);
        KeepingConcat(front, [last + "\n"], key);
      }
    }
  }

  lemma {:induction false} KeepingMember(lines: seq<string>, key: string, line: string)
    requires line in lines
    ensures Assigns(key, line) ==> line in Keeping(lines, key)
  {
    if line in lines[1..] {
      KeepingMember(lines[1..], key, line);
    }
  }

  lemma SplitOfNewline()
    ensures SplitLines("\n") == ["\n"]
  {
    assert SplitLines("\n") == ["\n"] + SplitLines("");
  }

  lemma KeepingOne(line: string, key: string)
    ensures Keeping([line], key) == if Assigns(key, line) then [line] else []
  {
    hide Assigns;
    assert [line][1..] == [];
  }

  /** A newline behind an unfinished line finishes it. */
  lemma SplitOfUnfinished(s: string)
    requires s != "" && !IsBreak(s[|s| - 1])
    ensures var lines := SplitLines(s);
            lines != [] && SplitLines(s + "\n") == lines[..|lines| - 1] + [lines[|lines| - 1] + "\n"]
  {
    hide SplitLines, Join;
    SplitIsWellCut(s);
    LastLine(s);
    var lines := SplitLines(s);
    var front, last := lines[..|lines| - 1], lines[|lines| - 1];
    JoinOfSnoc(front, last + "\n");
    assert s + "\n" == Join(front) + (last + "\n");
    assert (last + "\n")[..|last|] == last;
    SplitOfJoin(front + [last + "\n"]);
  }

  /** After the rewrite the file assigns the key exactly once, to the value; every other line
      is there as before, in its place. */
  lemma WrittenAssignsOnce(s: string, key: string, value: string)
    requires IsKey(key) && NoBreaks(value)
    ensures var lines := SplitLines(Written(s, key, value));
            && Keeping(lines, key) == [Assignment(key, value)]
            && Dropping(lines, key) == Dropping(SplitLines(if HasKey(SplitLines(s), key) then s else TerminatedText(s)), key)
  {
    var lines, line := SplitLines(s), Assignment(key, value);
    AssignmentAssigns(key, value);
    SplitIsWellCut(s);
    if HasKey(lines, key) {
      ReplacedEffect(lines, key, line, false);
      SplitOfJoin(Replaced(lines, key, line, false));
    } else {
      JoinOfTerminated(lines);
      JoinOfSnoc(Terminated(lines), line);
      var text := TerminatedText(s);
      SplitOfConcat(text, line);
      SplitOfLine(line, "");
      assert line + "" == line && SplitLines(line) == [line] + [] == [line];
      NoKeyKeepsNothing(lines, key);
      TerminatedKeeps(s, key);
      KeepingConcat(SplitLines(text), [line], key);
      assert Keeping([line], key) == [line] && Dropping([line], key) == [];
    }
  }

  lemma {:induction false} JoinOfSnoc(lines: seq<string>, line: string)
    ensures Join(lines + [line]) == Join(lines) + line
  {
    if lines == [] {
      assert lines + [line] == [line] && Join([line][1..]) == "";
    } else {
      JoinOfSnoc(lines[1..], line);
      assert (lines + [line])[1..] == lines[1..] + [line];
    }
  }

  lemma {:induction false} ReplacingItself(lines: seq<string>, key: string, line: string)
    requires Keeping(lines, key) == [line]
    ensures Replaced(lines, key, line, false) == lines && HasKey(lines, key)
  {
    HasKeyCons(lines, key);
    if Assigns(key, lines[0]) {
      assert Keeping(lines[1..], key) == [];
      ReplacingNothing(lines[1..], key, line);
    } else {
      ReplacingItself(lines[1..], key, line);
    }
  }

  lemma {:induction false} ReplacingNothing(lines: seq<string>, key: string, line: string)
    requires Keeping(lines, key) == []
    ensures Replaced(lines, key, line, true) == lines
  {
    if lines != [] {
      ReplacingNothing(lines[1..], key, line);
    }
  }

  /** Writing the same value twice is writing it once. */
  lemma WrittenTwice(s: string, key: string, value: string)
    requires IsKey(key) && NoBreaks(value)
    ensures Written(Written(s, key, value), key, value) == Written(s, key, value)
  {
    var once := Written(s, key, value);
    WrittenAssignsOnce(s, key, value);
    ReplacingItself(SplitLines(once), key, Assignment(key, value));
    SplitIsWellCut(once);
  }

  // ---------------------------------------------------------------------------------------
  // Two keys

  /** What follows the key in a line that assigns it. */
  lemma KeyEnds(key: string, line: string)
    requires Assigns(key, line)
    ensures var t := SkipBlanks(line); |key| < |t| && (t[|key|] == '=' || IsBlank(t[|key|]))
  {
    var t := SkipBlanks(line);
    assert t[|key|..] != "" && t[|key|..][0] == t[|key|];
  }

  lemma KeyNotLonger(j: string, k: string, line: string)
    requires IsKey(k) && '=' !in k && Assigns(j, line) && Assigns(k, line)
    ensures |k| <= |j|
  {
    var t := SkipBlanks(line);
    KeyEnds(j, line);
    assert forall m :: 0 <= m < |k| ==> t[m] == k[m] && k[m] in k && !IsBlank(k[m]);
  }

  /** A line assigns one key. */
  lemma OneKey(j: string, k: string, line: string)
    requires IsKey(j) && IsKey(k) && '=' !in j && '=' !in k && Assigns(j, line) && Assigns(k, line)
    ensures j == k
  {
    var t := SkipBlanks(line);
    KeyNotLonger(j, k, line);
    KeyNotLonger(k, j, line);
    assert t[..|j|] == j && t[..|k|] == k;
  }

  lemma {:induction false} KeepingAfterDropping(lines: seq<string>, j: string, k: string)
    requires IsKey(j) && IsKey(k) && '=' !in j && '=' !in k && j != k
    ensures Keeping(Dropping(lines, k), j) == Keeping(lines, j)
  {
    if lines != [] {
      KeepingAfterDropping(lines[1..], j, k);
      if Assigns(k, lines[0]) && Assigns(j, lines[0]) {
        OneKey(j, k, lines[0]);
        assert false;
      }
      hide Assigns;
    }
  }

  /** Writing one key leaves the assignment of another that was written before. */
  lemma WrittenKeepsOther(s: string, key: string, value: string, other: string, line: string)
    requires IsKey(key) && NoBreaks(value) && IsKey(other) && '=' !in key && '=' !in other && key != other
    requires Keeping(SplitLines(s), other) == [line] && EndsInNewline(line)
    ensures Keeping(SplitLines(Written(s, key, value)), other) == [line]
  {
    var after := SplitLines(Written(s, key, value));
    var before := SplitLines(if HasKey(SplitLines(s), key) then s else TerminatedText(s));
    WrittenAssignsOnce(s, key, value);
    TerminatedKeeps(s, other);
    KeepingAfterDropping(after, other, key);
    KeepingAfterDropping(before, other, key);
  }

  ghost predicate LinesWithoutReturns(lines: seq<string>) {
    forall k :: 0 <= k < |lines| ==> NoReturns(lines[k])
  }

  lemma {:induction false} JoinWithoutReturns(lines: seq<string>)
    ensures NoReturns(Join(lines)) <==> LinesWithoutReturns(lines)
  {
    if lines != [] {
      JoinWithoutReturns(lines[1..]);
      ReturnsSplit(lines[0], Join(lines[1..]));
      hide NoReturns;
      assert LinesWithoutReturns(lines) <==> NoReturns(lines[0]) && LinesWithoutReturns(lines[1..]) by {
        assert forall k :: 0 < k < |lines| ==> lines[k] == lines[1..][k - 1];
      }
    }
  }

  lemma {:induction false} ReplacedWithoutReturns(lines: seq<string>, key: string, line: string, done: bool)
    requires LinesWithoutReturns(lines) && NoReturns(line)
    ensures LinesWithoutReturns(Replaced(lines, key, line, done))
    decreases |lines|
  {
    hide NoReturns, Assigns;
    if lines != [] {
      ReplacedWithoutReturns(lines[1..], key, line, done || Assigns(key, lines[0]));
    }
  }

  lemma WrittenWithoutReturns(s: string, key: string, value: string)
    requires NoReturns(s) && NoBreaks(key) && NoBreaks(value)
    ensures NoReturns(Written(s, key, value))
  {
    var lines, line := SplitLines(s), Assignment(key, value);
    SplitIsWellCut(s);
    JoinWithoutReturns(lines);
    JoinWithoutReturns(WrittenLines(lines, key, value));
    assert NoReturns(line);
    if HasKey(lines, key) {
      ReplacedWithoutReturns(lines, key, line, false);
    } else if lines != [] {
      ReturnsSplit(lines[|lines| - 1], "\n");
    }
  }
}
