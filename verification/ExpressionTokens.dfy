/** What a token is, said without scanning: numerals and names of greatest length, and symbols. */
module ExpressionTokens {
  import opened Prelude
  import opened ExpressionGrammar
  import opened ExpressionLexer
  import opened Whitespace

  predicate AllDigits(s: string, i: nat, j: nat)
    requires j <= |s|
  {
    forall k :: i <= k < j ==> IsDigit(s[k])
  }

  /** Digits, and then perhaps a point and more digits; at least one digit in all. */
  predicate MantissaWith(s: string, i: nat, a: nat, m: nat)
    requires m <= |s|
  {
    i <= a <= m && AllDigits(s, i, a) && (if a == m then i < a else s[a] == '.' && AllDigits(s, a + 1, m) && i + 1 < m)
  }

  /** Nothing, or an e with a sign or none and at least one digit. */
  predicate IsExponent(s: string, m: nat, j: nat)
    requires m <= j <= |s|
  {
    m == j
    || (s[m] in {'e', 'E'}
        && ((m + 1 < j && AllDigits(s, m + 1, j)) || (m + 2 < j && s[m + 1] in {'+', '-'} && AllDigits(s, m + 2, j))))
  }

  ghost predicate IsNumeralFrom(s: string, i: nat, j: nat)
    requires j <= |s|
  {
    exists a: nat, m: nat :: m <= j && MantissaWith(s, i, a, m) && IsExponent(s, m, j)
  }

  lemma {:induction false} DigitsExactly(s: string, i: nat)
    requires i <= |s|
    ensures AllDigits(s, i, Digits(s, i)) && !DigitAt(s, Digits(s, i))
    decreases |s| - i
  {
    if DigitAt(s, i) {
      DigitsExactly(s, i + 1);
    }
  }

  /** A run of digits from i does not go beyond the run read from there. */
  lemma RunWithin(s: string, i: nat, a: nat)
    requires i <= a <= |s| && AllDigits(s, i, a)
    ensures a <= Digits(s, i) && (!DigitAt(s, a) ==> a == Digits(s, i))
  {
    DigitsExactly(s, i);
  }

  lemma MantissaRead(s: string, i: nat)
    requires i <= |s| && i < Mantissa(s, i)
    ensures MantissaWith(s, i, Digits(s, i), Mantissa(s, i))
  {
    DigitsExactly(s, i);
    if DigitAt(s, i) {
      DigitsExactly(s, Digits(s, i));
      if CharAt(s, Digits(s, i), '.') {
        DigitsExactly(s, Digits(s, i) + 1);
      }
    } else {
      DigitsExactly(s, i + 1);
    }
    hide AllDigits;
  }

  lemma ExponentRead(s: string, m: nat)
    requires m <= |s|
    ensures IsExponent(s, m, Exponent(s, m))
  {
    if m + 1 <= |s| {
      DigitsExactly(s, m + 1);
    }
    if m + 2 <= |s| {
      DigitsExactly(s, m + 2);
    }
    hide AllDigits;
  }

  /** A mantissa from i goes no further than the one read, and as far if no digit and no point follows. */
  lemma MantissaWithin(s: string, i: nat, a: nat, m: nat)
    requires m <= |s| && MantissaWith(s, i, a, m)
    ensures m <= Mantissa(s, i) && (!DigitAt(s, m) && !CharAt(s, m, '.') ==> m == Mantissa(s, i))
  {
    RunWithin(s, i, a);
    if a < m {
      RunWithin(s, a + 1, m);
    }
  }

  lemma ExponentWithin(s: string, m: nat, j: nat)
    requires m <= j <= |s| && IsExponent(s, m, j)
    ensures j <= Exponent(s, m)
  {
    if m < j {
      if m + 1 < j && AllDigits(s, m + 1, j) {
        RunWithin(s, m + 1, j);
      } else {
        RunWithin(s, m + 2, j);
      }
    }
  }

  /** The numeral read is the longest there is. */
  lemma LongestNumeral(s: string, i: nat)
    requires i <= |s|
    ensures var k := NumberEnd(s, i);
            && (i < k ==> IsNumeralFrom(s, i, k))
            && forall j :: k < j <= |s| ==> !IsNumeralFrom(s, i, j)
  {
    var k := NumberEnd(s, i);
    if i < k {
      MantissaRead(s, i);
      ExponentRead(s, Mantissa(s, i));
    }
    forall j | k < j <= |s| && IsNumeralFrom(s, i, j)
      ensures false
    {
      var a: nat, m: nat :| m <= j && MantissaWith(s, i, a, m) && IsExponent(s, m, j);
      MantissaWithin(s, i, a, m);
      ExponentWithin(s, m, j);
    }
  }

  predicate IsWordChar(c: char) {
    IsLetter(c) || IsDigit(c)
  }

  /** A token stands at i and ends at k, and no longer numeral or name could be read there. */
  ghost predicate StandsAt(finite: string -> bool, s: string, i: nat, t: Token, k: nat)
    requires i < |s|
  {
    i < k <= |s|
    && match t
       case TNum(text) =>
         text == s[i..k] && finite(text) && IsNumeralFrom(s, i, k) && forall j :: k < j <= |s| ==> !IsNumeralFrom(s, i, j)
       case TName(text) =>
         && text == LowerAll(s[i..k]) && IsLetter(s[i]) && (forall m :: i <= m < k ==> IsWordChar(s[m]))
         && (k < |s| ==> !IsWordChar(s[k]))
       case _ => s[i..k] == Spell(t)
  }

  lemma {:induction false} NameEnds(s: string, i: nat, k: nat)
    requires i <= k <= |s| && (forall m :: i <= m < k ==> IsWordChar(s[m])) && (k < |s| ==> !IsWordChar(s[k]))
    ensures NameEnd(s, i) == k
    decreases k - i
  {
    if i < k {
      NameEnds(s, i + 1, k);
    }
  }

  lemma {:induction false} NameRun(s: string, i: nat)
    requires i <= |s|
    ensures var k := NameEnd(s, i); (forall m :: i <= m < k ==> IsWordChar(s[m])) && (k < |s| ==> !IsWordChar(s[k]))
    decreases |s| - i
  {
    if i < |s| && IsWordChar(s[i]) {
      NameRun(s, i + 1);
    }
  }

  lemma NumeralStarts(s: string, i: nat, j: nat)
    requires i < |s| && j <= |s| && IsNumeralFrom(s, i, j)
    ensures i < j && (IsDigit(s[i]) || s[i] == '.')
  {
    var a: nat, m: nat :| m <= j && MantissaWith(s, i, a, m) && IsExponent(s, m, j);
  }

  lemma SymbolExactly(c: char, t: Token)
    requires !t.TNum? && !t.TName?
    ensures Symbol(c) == Some(t) <==> Spell(t) == [c]
    ensures Spell(t) == [c] ==> !IsDigit(c) && c != '.' && !IsLetter(c)
  {}

  lemma SymbolIsNoWord(c: char)
    ensures Symbol(c).Some? ==> !Symbol(c).value.TNum? && !Symbol(c).value.TName?
  {}

  /** The token read at a character is the one that stands there. */
  lemma NextTokenExactly(finite: string -> bool, s: string, i: nat, t: Token, k: nat)
    requires i < |s|
    ensures NextToken(finite, s, i) == Lexed(t, k) <==> StandsAt(finite, s, i, t, k)
  {
    hide NumberEnd, IsNumeralFrom, NameEnd, LowerAll, Symbol, Spell;
    LongestNumeral(s, i);
    NameRun(s, i);
    SymbolIsNoWord(s[i]);
    match t {
      case TNum(text) =>
        if StandsAt(finite, s, i, t, k) {
          NumeralStarts(s, i, k);
          assert k == NumberEnd(s, i);
        }
      case TName(text) =>
        if StandsAt(finite, s, i, t, k) {
          NameEnds(s, i, k);
        }
      case _ =>
        SymbolExactly(s[i], t);
        assert s[i..i + 1] == [s[i]];
        assert |Spell(t)| == 1 by { SpellOne(t); }
    }
  }

  lemma SpellOne(t: Token)
    requires !t.TNum? && !t.TName?
    ensures |Spell(t)| == 1
  {}

  /** The text from i on holds these tokens, each standing where the one before it and blanks end. */
  ghost predicate Scanned(finite: string -> bool, s: string, i: nat, ts: seq<Token>)
    requires i <= |s|
    decreases |s| - i
  {
    if i == |s| then ts == []
    else if IsSpace(s[i]) then Scanned(finite, s, i + 1, ts)
    else ts != [] && exists k: nat :: i < k <= |s| && StandsAt(finite, s, i, ts[0], k) && Scanned(finite, s, k, ts[1..])
  }

  /** The tokenizer reads exactly the tokens a text holds, if it holds any. */
  lemma {:induction false} LexExactly(finite: string -> bool, s: string, i: nat, ts: seq<Token>)
    requires i <= |s|
    ensures Lex(finite, s, i) == Some(ts) <==> Scanned(finite, s, i, ts)
    decreases |s| - i
  {
    hide StandsAt, NextToken;
    if i < |s| {
      if IsSpace(s[i]) {
        LexExactly(finite, s, i + 1, ts);
      } else {
        if Scanned(finite, s, i, ts) {
          var k: nat :| i < k <= |s| && StandsAt(finite, s, i, ts[0], k) && Scanned(finite, s, k, ts[1..]);
          NextTokenExactly(finite, s, i, ts[0], k);
          LexExactly(finite, s, k, ts[1..]);
          assert [ts[0]] + ts[1..] == ts;
        }
        if Lex(finite, s, i) == Some(ts) {
          var next := NextToken(finite, s, i);
          NextTokenExactly(finite, s, i, next.token, next.next);
          var rest := Lex(finite, s, next.next).value;
          LexExactly(finite, s, next.next, rest);
          assert ts == [next.token] + rest && ts[1..] == rest;
        }
      }
    }
  }

  const UPPER_CASE := ["ABCDEFG", "HIJKLMN", "OPQRSTU", "VWXYZ"]
  const LOWER_CASE := ["abcdefg", "hijklmn", "opqrstu", "vwxyz"]

  /** A capital letter becomes the small one. */
  lemma SmallLetters(row: nat, k: nat)
    requires row < 4 && k < |UPPER_CASE[row]|
    ensures |LOWER_CASE[row]| == |UPPER_CASE[row]| && Lower(UPPER_CASE[row][k]) == LOWER_CASE[row][k] == Lower(LOWER_CASE[row][k])
  {
    var upper, lower := UPPER_CASE[row], LOWER_CASE[row];
    assert |upper| == if row == 3 then 5 else 7;
  }
}
