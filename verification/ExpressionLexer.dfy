/** The tokenizer: the scanning loop against a recursive specification, and the proof that
    tokens written out with blanks between them are read back unchanged. */
module ExpressionLexer {
  import opened Prelude
  import opened ExpressionGrammar
  import opened Whitespace

  const MAX_EXPRESSION_LENGTH := 240
  const MAX_TOKENS := 96

  // ---------------------------------------------------------------------------------------
  // Characters

  predicate IsDigit(c: char) {
    '0' <= c <= '9'
  }

  predicate IsLower(c: char) {
    'a' <= c <= 'z' || c == '_'
  }

  predicate IsLetter(c: char) {
    IsLower(c) || 'A' <= c <= 'Z'
  }

  function Lower(c: char): (d: char)
    ensures IsLetter(c) ==> IsLower(d)
    ensures IsDigit(c) ==> d == c
    ensures IsLower(c) ==> d == c
  {
    if 'A' <= c <= 'Z' then (c as int + 32) as char else c
  }

  function LowerAll(s: string): (r: string)
    ensures |r| == |s| && forall k :: 0 <= k < |s| ==> r[k] == Lower(s[k])
  {
    seq(|s|, k requires 0 <= k < |s| => Lower(s[k]))
  }

  predicate CharAt(s: string, i: nat, c: char) {
    i < |s| && s[i] == c
  }

  predicate DigitAt(s: string, i: nat) {
    i < |s| && IsDigit(s[i])
  }

  // ---------------------------------------------------------------------------------------
  // One token

  /** Where the run of digits from i ends. */
  function Digits(s: string, i: nat): (k: nat)
    requires i <= |s|
    ensures i <= k <= |s|
    decreases |s| - i
  {
    if DigitAt(s, i) then Digits(s, i + 1) else i
  }

  /** Digits with an optional point, or a point with digits; i itself if there is neither. */
  function Mantissa(s: string, i: nat): (k: nat)
    requires i <= |s|
    ensures i <= k <= |s|
  {
    if DigitAt(s, i) then
      var k := Digits(s, i);
      if CharAt(s, k, '.') then Digits(s, k + 1) else k
    else if CharAt(s, i, '.') && DigitAt(s, i + 1) then Digits(s, i + 1)
    else i
  }

  /** An exponent counts only with a digit in it. */
  function Exponent(s: string, i: nat): (k: nat)
    requires i <= |s|
    ensures i <= k <= |s|
  {
    if CharAt(s, i, 'e') || CharAt(s, i, 'E') then
      var m := if CharAt(s, i + 1, '+') || CharAt(s, i + 1, '-') then i + 2 else i + 1;
      if DigitAt(s, m) then Digits(s, m) else i
    else i
  }

  function NumberEnd(s: string, i: nat): (k: nat)
    requires i <= |s|
    ensures i <= k <= |s|
  {
    var k := Mantissa(s, i);
    if k == i then i else Exponent(s, k)
  }

  function NameEnd(s: string, i: nat): (k: nat)
    requires i <= |s|
    ensures i <= k <= |s|
    decreases |s| - i
  {
    if i < |s| && (IsLetter(s[i]) || IsDigit(s[i])) then NameEnd(s, i + 1) else i
  }

  datatype Lexeme = NoToken | Lexed(token: Token, next: nat)

  function Symbol(c: char): Option<Token> {
    match c
    case '+' => Some(TOp(Add))
    case '-' => Some(TOp(Sub))
    case '*' => Some(TOp(Mul))
    case '/' => Some(TOp(Div))
    case '^' => Some(TOp(Pow))
    case '(' => Some(TOpen)
    case ')' => Some(TClose)
    case ',' => Some(TComma)
    case _ => None
  }

  /** The token at a character that is not a blank. Whether a numeral's value is finite is
      a matter of floating point, so it is a parameter. */
  function NextToken(finite: string -> bool, s: string, i: nat): (r: Lexeme)
    requires i < |s|
    ensures r.Lexed? ==> i < r.next <= |s|
  {
    if IsDigit(s[i]) || s[i] == '.' then
      var k := NumberEnd(s, i);
      if i < k && finite(s[i..k]) then Lexed(TNum(s[i..k]), k) else NoToken
    else if IsLetter(s[i]) then
      Lexed(TName(LowerAll(s[i..NameEnd(s, i)])), NameEnd(s, i))
    else match Symbol(s[i])
      case Some(t) => Lexed(t, i + 1)
      case None => NoToken
  }

  // ---------------------------------------------------------------------------------------
  // All tokens

  /** The tokens from i on; None if some character starts none. */
  function Lex(finite: string -> bool, s: string, i: nat): Option<seq<Token>>
    requires i <= |s|
    decreases |s| - i
  {
    if i == |s| then Some([])
    else if IsSpace(s[i]) then Lex(finite, s, i + 1)
    else match NextToken(finite, s, i)
      case NoToken => None
      case Lexed(t, k) => Prefixed([t], Lex(finite, s, k))
  }

  function Prefixed(front: seq<Token>, rest: Option<seq<Token>>): Option<seq<Token>> {
    if rest.Some? then Some(front + rest.value) else None
  }

  function Tokens(finite: string -> bool, s: string): Option<seq<Token>> {
    if s == "" || |s| > MAX_EXPRESSION_LENGTH then None
    else
      var ts := Lex(finite, s, 0);
      if ts.None? || ts.value == [] || |ts.value| > MAX_TOKENS then None else ts
  }

  method Tokenize(finite: string -> bool, source: string) returns (r: Option<seq<Token>>)
    ensures r == Tokens(finite, source)
  {
    if source == "" || |source| > MAX_EXPRESSION_LENGTH {
      return None;
    }
    var tokens: seq<Token> := [];
    var i := 0;
    PrefixedByNothing(Lex(finite, source, 0));
    while i < |source|
      invariant 0 <= i <= |source|
      invariant Lex(finite, source, 0) == Prefixed(tokens, Lex(finite, source, i))
    {
      if IsSpace(source[i]) {
        i := i + 1;
        continue;
      }
      var next := NextToken(finite, source, i);
      if next.NoToken? {
        return None;
      }
      PrefixedTwice(tokens, [next.token], Lex(finite, source, next.next));
      tokens, i := tokens + [next.token], next.next;
    }
    assert tokens + [] == tokens;
    if tokens == [] || |tokens| > MAX_TOKENS {
      return None;
    }
    return Some(tokens);
  }

  lemma PrefixedByNothing(rest: Option<seq<Token>>)
    ensures Prefixed([], rest) == rest
  {
    if rest.Some? {
      assert [] + rest.value == rest.value;
    }
  }

  lemma PrefixedTwice(a: seq<Token>, b: seq<Token>, rest: Option<seq<Token>>)
    ensures Prefixed(a, Prefixed(b, rest)) == Prefixed(a + b, rest)
  {
    if rest.Some? {
      assert a + (b + rest.value) == (a + b) + rest.value;
    }
  }

  // ---------------------------------------------------------------------------------------
  // Writing tokens out

  predicate IsNumeral(s: string) {
    s != "" && NumberEnd(s, 0) == |s|
  }

  predicate IsName(s: string) {
    && s != "" && IsLower(s[0])
    && forall k :: 0 <= k < |s| ==> IsLower(s[k]) || IsDigit(s[k])
  }

  /** The token is one the tokenizer can produce. */
  predicate Spellable(finite: string -> bool, t: Token) {
    (t.TNum? ==> IsNumeral(t.text) && finite(t.text)) && (t.TName? ==> IsName(t.text))
  }

  function Spell(t: Token): string {
    match t
    case TNum(text) => text
    case TName(text) => text
    case TOp(op) => (match op case Add => "+" case Sub => "-" case Mul => "*" case Div => "/" case Pow => "^")
    case TOpen => "("
    case TClose => ")"
    case TComma => ","
  }

  /** The tokens, each followed by a blank. */
  function SpellAll(ts: seq<Token>): string {
    if ts == [] then "" else Spell(ts[0]) + " " + SpellAll(ts[1..])
  }

  function Min(a: nat, b: nat): nat {
    if a < b then a else b
  }

  /** Digits in a piece of the text are the digits in the text, as far as the piece goes. */
  lemma {:induction false} DigitsInPiece(s: string, i: nat, k: nat, j: nat)
    requires i <= j <= k <= |s|
    ensures i + Digits(s[i..k], j - i) == Min(Digits(s, j), k)
    decreases k - j
  {
    if j < k && DigitAt(s, j) {
      DigitsInPiece(s, i, k, j + 1);
    }
  }

  /** A run of digits does not cross a character that is none. */
  lemma {:induction false} DigitsStop(s: string, j: nat, k: nat)
    requires j <= k < |s| && !IsDigit(s[k])
    ensures Digits(s, j) <= k
    decreases k - j
  {
    if DigitAt(s, j) {
      DigitsStop(s, j + 1, k);
    }
  }

  /** Nothing at k can extend a number. */
  predicate Blank(s: string, k: nat) {
    k < |s| ==> s[k] == ' '
  }

  lemma DigitsBeforeBlank(s: string, i: nat, k: nat, j: nat)
    requires i <= j <= k <= |s| && Blank(s, k)
    ensures Digits(s, j) == i + Digits(s[i..k], j - i) <= k
  {
    DigitsInPiece(s, i, k, j);
    if k < |s| {
      DigitsStop(s, j, k);
    }
  }

  /** Before a blank, a piece shows the characters of the text. */
  lemma SameInPiece(s: string, i: nat, k: nat, j: nat)
    requires i <= j <= k <= |s| && Blank(s, k)
    ensures DigitAt(s[i..k], j - i) <==> DigitAt(s, j)
    ensures forall c :: c != ' ' ==> (CharAt(s[i..k], j - i, c) <==> CharAt(s, j, c))
  {}

  lemma MantissaBeforeBlank(s: string, i: nat, k: nat)
    requires i <= k <= |s| && Blank(s, k)
    ensures Mantissa(s, i) == i + Mantissa(s[i..k], 0) <= k
  {
    SameInPiece(s, i, k, i);
    DigitsBeforeBlank(s, i, k, i);
    if i < k {
      SameInPiece(s, i, k, i + 1);
      DigitsBeforeBlank(s, i, k, i + 1);
    }
    var d := Digits(s, i);
    SameInPiece(s, i, k, d);
    if d < k {
      DigitsBeforeBlank(s, i, k, d + 1);
    }
  }

  lemma ExponentBeforeBlank(s: string, i: nat, k: nat, j: nat)
    requires i <= j <= k <= |s| && Blank(s, k)
    ensures Exponent(s, j) == i + Exponent(s[i..k], j - i) <= k
  {
    SameInPiece(s, i, k, j);
    if j < k {
      SameInPiece(s, i, k, j + 1);
      DigitsBeforeBlank(s, i, k, j + 1);
    }
    if j + 1 < k {
      SameInPiece(s, i, k, j + 2);
      DigitsBeforeBlank(s, i, k, j + 2);
    }
  }

  /** A numeral followed by a blank is read to its end. */
  lemma NumeralRead(s: string, i: nat, k: nat)
    requires i < k <= |s| && Blank(s, k) && IsNumeral(s[i..k])
    ensures NumberEnd(s, i) == k && (IsDigit(s[i]) || s[i] == '.')
  {
    MantissaBeforeBlank(s, i, k);
    ExponentBeforeBlank(s, i, k, Mantissa(s, i));
    assert s[i..k][0] == s[i];
  }

  lemma {:induction false} NameRead(s: string, i: nat, j: nat, k: nat)
    requires i <= j <= k <= |s| && Blank(s, k)
    requires forall m :: i <= m < k ==> IsLower(s[m]) || IsDigit(s[m])
    ensures NameEnd(s, j) == k
    decreases k - j
  {
    if j < k {
      NameRead(s, i, j + 1, k);
    }
  }

  /** One token, written out with a blank after it, is the next token read. */
  lemma TokenRead(finite: string -> bool, t: Token, s: string, i: nat, k: nat)
    requires i <= k < |s| && s[i..k] == Spell(t) && s[k] == ' ' && Spellable(finite, t)
    ensures i < k && !IsSpace(s[i]) && NextToken(finite, s, i) == Lexed(t, k)
  {
    var piece := s[i..k];
    assert |piece| == k - i;
    assert forall m :: i <= m < k ==> s[m] == piece[m - i];
    match t
    case TNum(text) =>
      NumeralRead(s, i, k);
    case TName(text) =>
      NameRead(s, i, i, k);
      assert LowerAll(piece) == piece;
    case _ =>
      assert s[i] == piece[0];
  }

  lemma FirstWord(s: string, i: nat, ts: seq<Token>)
    requires i <= |s| && ts != [] && s[i..] == SpellAll(ts)
    ensures var k := i + |Spell(ts[0])|; k < |s| && s[i..k] == Spell(ts[0]) && s[k] == ' ' && s[k + 1..] == SpellAll(ts[1..])
  {
    var word, rest := Spell(ts[0]), SpellAll(ts[1..]);
    var tail := s[i..];
    assert tail == word + " " + rest && |tail| == |word| + 1 + |rest|;
    var k := i + |word|;
    assert s[i..k] == tail[..|word|] && s[k] == tail[|word|] && s[k + 1..] == tail[|word| + 1..];
  }

  predicate AllSpellable(finite: string -> bool, ts: seq<Token>) {
    forall t :: t in ts ==> Spellable(finite, t)
  }

  lemma LexStep(finite: string -> bool, ts: seq<Token>, s: string, i: nat, k: nat)
    requires ts != [] && i <= k < |s| && s[i..k] == Spell(ts[0]) && s[k] == ' ' && Spellable(finite, ts[0])
    requires Lex(finite, s, k + 1) == Some(ts[1..])
    ensures Lex(finite, s, i) == Some(ts)
  {
    TokenRead(finite, ts[0], s, i, k);
    assert Lex(finite, s, k) == Some(ts[1..]);
    assert [ts[0]] + ts[1..] == ts;
  }

  lemma LexEnd(finite: string -> bool, s: string, i: nat)
    requires i <= |s| && s[i..] == SpellAll([])
    ensures Lex(finite, s, i) == Some([])
  {
    assert |s[i..]| == |s| - i;
  }

  lemma AllSpellableRest(finite: string -> bool, ts: seq<Token>)
    requires ts != [] && AllSpellable(finite, ts)
    ensures Spellable(finite, ts[0]) && AllSpellable(finite, ts[1..])
  {}

  lemma {:induction false} SpelledFrom(finite: string -> bool, ts: seq<Token>, s: string, i: nat)
    requires i <= |s| && s[i..] == SpellAll(ts) && AllSpellable(finite, ts)
    ensures Lex(finite, s, i) == Some(ts)
    decreases |ts|
  {
    hide *;
    if ts == [] {
      LexEnd(finite, s, i);
    } else {
      AllSpellableRest(finite, ts);
      var rest, k := ts[1..], i + |Spell(ts[0])|;
      FirstWord(s, i, ts);
      SpelledFrom(finite, rest, s, k + 1);
      LexStep(finite, ts, s, i, k);
    }
  }

  /** Tokens written out and read again are the same tokens. */
  lemma SpellingRoundTrip(finite: string -> bool, ts: seq<Token>)
    requires AllSpellable(finite, ts)
    ensures Lex(finite, SpellAll(ts), 0) == Some(ts)
    ensures Tokens(finite, SpellAll(ts)) == Some(ts) <==> 0 < |ts| <= MAX_TOKENS && |SpellAll(ts)| <= MAX_EXPRESSION_LENGTH
  {
    var s := SpellAll(ts);
    assert s[0..] == s;
    SpelledFrom(finite, ts, s, 0);
  }

  // ---------------------------------------------------------------------------------------
  // Every token read can be written out

  /** A text cut off at the end of a numeral still holds that numeral. */
  lemma NumberEndCutOff(s: string, i: nat)
    requires i <= |s|
    ensures var k := NumberEnd(s, i); NumberEnd(s[..k], i) == k
  {
    var k := NumberEnd(s, i);
    var cut := s[..k];
    assert s[0..k] == cut;
    MantissaCutOff(s, i, k);
    var m := Mantissa(s, i);
    if m < k {
      var d := if CharAt(s, m + 1, '+') || CharAt(s, m + 1, '-') then m + 2 else m + 1;
      DigitsInPiece(s, 0, k, d);
      assert CharAt(cut, m, 'e') || CharAt(cut, m, 'E');
      assert DigitAt(cut, d);
      assert CharAt(cut, m + 1, '+') || CharAt(cut, m + 1, '-') <==> CharAt(s, m + 1, '+') || CharAt(s, m + 1, '-');
    }
  }

  lemma MantissaCutOff(s: string, i: nat, k: nat)
    requires i <= |s| && Mantissa(s, i) <= k <= |s|
    ensures Mantissa(s[..k], i) == Mantissa(s, i)
  {
    var cut := s[..k];
    assert s[0..k] == cut;
    DigitsInPiece(s, 0, k, i);
    var d := Digits(s, i);
    if DigitAt(s, i) {
      assert DigitAt(cut, i);
      assert d < k ==> (CharAt(cut, d, '.') <==> CharAt(s, d, '.'));
      if d < k {
        DigitsInPiece(s, 0, k, d + 1);
      }
    } else if CharAt(s, i, '.') && DigitAt(s, i + 1) {
      assert CharAt(cut, i, '.') && DigitAt(cut, i + 1);
      DigitsInPiece(s, 0, k, i + 1);
    }
  }

  lemma {:induction false} NameEndLetters(s: string, i: nat, m: nat)
    requires i <= |s| && i <= m < NameEnd(s, i)
    ensures IsLetter(s[m]) || IsDigit(s[m])
    decreases |s| - i
  {
    if i < m {
      NameEndLetters(s, i + 1, m);
    }
  }

  lemma TokenSpellable(finite: string -> bool, s: string, i: nat)
    requires i < |s|
    ensures var r := NextToken(finite, s, i); r.Lexed? ==> Spellable(finite, r.token)
  {
    if IsDigit(s[i]) || s[i] == '.' {
      NumberEndCutOff(s, i);
      var k := NumberEnd(s, i);
      var cut := s[..k];
      assert cut[i..k] == s[i..k];
      MantissaBeforeBlank(cut, i, k);
      ExponentBeforeBlank(cut, i, k, Mantissa(cut, i));
    } else if IsLetter(s[i]) {
      var k := NameEnd(s, i);
      forall m | i <= m < k
        ensures IsLetter(s[m]) || IsDigit(s[m])
      {
        NameEndLetters(s, i, m);
      }
      var name := LowerAll(s[i..k]);
      assert forall m :: 0 <= m < |name| ==> name[m] == Lower(s[i + m]);
    }
  }

  lemma {:induction false} TokensSpellable(finite: string -> bool, s: string, i: nat)
    requires i <= |s|
    ensures var r := Lex(finite, s, i); r.Some? ==> AllSpellable(finite, r.value)
    decreases |s| - i
  {
    if i < |s| {
      if IsSpace(s[i]) {
        TokensSpellable(finite, s, i + 1);
      } else {
        TokenSpellable(finite, s, i);
        var next := NextToken(finite, s, i);
        if next.Lexed? {
          TokensSpellable(finite, s, next.next);
        }
      }
    }
  }

  /** Rewriting a text by its tokens, lower-case and with blanks between, changes no token. */
  lemma RewritingKeepsTokens(finite: string -> bool, s: string)
    requires Lex(finite, s, 0).Some?
    ensures Lex(finite, SpellAll(Lex(finite, s, 0).value), 0) == Lex(finite, s, 0)
  {
    TokensSpellable(finite, s, 0);
    SpellingRoundTrip(finite, Lex(finite, s, 0).value);
  }
}
