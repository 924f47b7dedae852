/** White space as the regular expression class \s and String.prototype.trim see it, and line ends. */
module Whitespace {

  predicate IsSpace(c: char) {
    var u := c as int;
    || 9 <= u <= 13 || u == 32 || u == 0xa0 || u == 0x1680 || 0x2000 <= u <= 0x200a
    || u == 0x2028 || u == 0x2029 || u == 0x202f || u == 0x205f || u == 0x3000 || u == 0xfeff
  }

  function TrimStart(s: string): string {
    if s != [] && IsSpace(s[0]) then TrimStart(s[1..]) else s
  }

  function TrimEnd(s: string): string {
    if s != [] && IsSpace(s[|s| - 1]) then TrimEnd(s[..|s| - 1]) else s
  }

  function Trim(s: string): string {
    TrimEnd(TrimStart(s))
  }

  lemma {:induction false} TrimEndIsPrefix(s: string)
    ensures TrimEnd(s) <= s && (TrimEnd(s) != [] ==> !IsSpace(TrimEnd(s)[|TrimEnd(s)| - 1]))
  {
    if s != [] && IsSpace(s[|s| - 1]) {
      TrimEndIsPrefix(s[..|s| - 1]);
    }
  }

  lemma {:induction false} TrimStartStarts(s: string)
    ensures TrimStart(s) != [] ==> !IsSpace(TrimStart(s)[0])
  {
    if s != [] && IsSpace(s[0]) {
      TrimStartStarts(s[1..]);
    }
  }

  lemma TrimTwice(s: string)
    ensures Trim(Trim(s)) == Trim(s)
  {
    TrimStartStarts(s);
    TrimEndIsPrefix(TrimStart(s));
  }

  /** Carriage returns, alone or before a newline, become newlines. */
  function NormalizeNewlines(s: string): string {
    if s == "" then ""
    else if s[0] != '\r' then [s[0]] + NormalizeNewlines(s[1..])
    else "\n" + NormalizeNewlines(if |s| > 1 && s[1] == '\n' then s[2..] else s[1..])
  }

  predicate NoReturns(s: string) {
    forall k :: 0 <= k < |s| ==> s[k] != '\r'
  }

  lemma {:induction false} NormalizeDropsReturns(s: string)
    ensures NoReturns(NormalizeNewlines(s))
    ensures NormalizeNewlines(s) == s <==> NoReturns(s)
  {
    if s != "" {
      NormalizeDropsReturns(s[1..]);
      if |s| > 1 {
        NormalizeDropsReturns(s[2..]);
      }
    }
  }

  lemma ReturnsSplit(a: string, b: string)
    ensures NoReturns(a + b) <==> NoReturns(a) && NoReturns(b)
  {
    assert forall k :: 0 <= k < |a| ==> (a + b)[k] == a[k];
    assert forall k :: 0 <= k < |b| ==> (a + b)[|a| + k] == b[k];
  }

  /** Trimming takes away the blanks at both ends and nothing else. */
  lemma {:induction false} TrimExactly(a: string, t: string, b: string)
    requires (forall k :: 0 <= k < |a| ==> IsSpace(a[k])) && forall k :: 0 <= k < |b| ==> IsSpace(b[k])
    requires t != "" ==> !IsSpace(t[0]) && !IsSpace(t[|t| - 1])
    ensures Trim(a + t + b) == t
    decreases |a| + |b|
  {
    var s := a + t + b;
    if a != "" {
      assert s[1..] == a[1..] + t + b && s[0] == a[0];
      TrimExactly(a[1..], t, b);
    } else if b != "" {
      var c := b[..|b| - 1];
      assert s == t + b && s[..|s| - 1] == t + c && s[|s| - 1] == b[|b| - 1];
      assert "" + t + c == t + c;
      TrimExactly("", t, c);
      if t == "" {
        assert s[1..] == b[1..] && s[0] == b[0];
        assert "" + "" + b[1..] == b[1..];
        TrimExactly("", "", b[1..]);
      } else {
        assert TrimStart(s) == s && TrimStart(t + c) == t + c;
      }
    } else {
      assert s == t;
    }
  }

  function JoinWith(sep: string, lines: seq<string>): string {
    if lines == [] then "" else if |lines| == 1 then lines[0] else lines[0] + sep + JoinWith(sep, lines[1..])
  }

  lemma {:induction false} NormalizeBehind(line: string, rest: string)
    requires NoReturns(line)
    ensures NormalizeNewlines(line + rest) == line + NormalizeNewlines(rest)
  {
    if line == "" {
      assert line + rest == rest;
    } else {
      NormalizeBehind(line[1..], rest);
      assert (line + rest)[1..] == line[1..] + rest;
      assert line == [line[0]] + line[1..];
    }
  }

  predicate IsLineEnd(sep: string) {
    sep == "\n" || sep == "\r" || sep == "\r\n"
  }

  lemma NormalizeLineEnd(sep: string, rest: string)
    requires IsLineEnd(sep) && (sep == "\r" && rest != "" ==> rest[0] != '\n')
    ensures NormalizeNewlines(sep + rest) == "\n" + NormalizeNewlines(rest)
  {
    assert (sep + rest)[|sep|..] == rest;
  }

  lemma StartOfLines(sep: string, lines: seq<string>)
    requires sep == "\r" && forall k :: 0 <= k < |lines| ==> '\n' !in lines[k]
    ensures JoinWith(sep, lines) != "" ==> JoinWith(sep, lines)[0] != '\n'
  {}

  lemma NormalizeFirst(sep: string, line: string, rest: string)
    requires IsLineEnd(sep) && (sep == "\r" && rest != "" ==> rest[0] != '\n') && NoReturns(line)
    ensures NormalizeNewlines(line + sep + rest) == line + "\n" + NormalizeNewlines(rest)
  {
    hide *;
    NormalizeBehind(line, sep + rest);
    NormalizeLineEnd(sep, rest);
    assert line + sep + rest == line + (sep + rest);
  }

  /** Lines that end in any of the three ways become the same lines, ended by newlines. */
  lemma {:induction false} LineEndsNormalized(sep: string, lines: seq<string>)
    requires IsLineEnd(sep) && forall k :: 0 <= k < |lines| ==> NoReturns(lines[k]) && '\n' !in lines[k]
    ensures NormalizeNewlines(JoinWith(sep, lines)) == JoinWith("\n", lines)
  {
    if |lines| > 0 {
      NormalizeDropsReturns(lines[0]);
    }
    if |lines| > 1 {
      if sep == "\r" {
        StartOfLines(sep, lines[1..]);
      }
      hide NormalizeNewlines, IsLineEnd, NoReturns;
      LineEndsNormalized(sep, lines[1..]);
      NormalizeFirst(sep, lines[0], JoinWith(sep, lines[1..]));
    }
  }
}
