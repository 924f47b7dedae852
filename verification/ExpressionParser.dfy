/** The recursive-descent parser: what each level accepts from a position, the parser object
    that computes it, and the proof that it accepts exactly the grammar. */
module ExpressionParser {
  import opened Prelude
  import opened ExpressionGrammar

  datatype Parsed = Fail | Done(node: Node, next: nat)

  datatype ParsedArgs = NoArgs | Args(args: seq<Node>, next: nat)

  /** The token joins two operands of a left-associative level. */
  predicate Joins(l: Level, t: Token) {
    t.TOp? && ((l.Additive? && (t.op.Add? || t.op.Sub?)) || (l.Multiplicative? && (t.op.Mul? || t.op.Div?)))
  }

  predicate IsSign(t: Token) {
    t == TOp(Add) || t == TOp(Sub)
  }

  function SignOf(t: Token): Sign {
    if t == TOp(Add) then Plus else Minus
  }

  function Below(l: Level): Level {
    if l.Additive? then Multiplicative else Prefix
  }

  predicate At(ts: seq<Token>, i: nat, t: Token) {
    i < |ts| && ts[i] == t
  }

  /** What a level reads from position i: a tree and the position after it. */
  function ParseAt(l: Level, ts: seq<Token>, i: nat): (r: Parsed)
    requires i <= |ts|
    ensures r.Done? ==> i < r.next <= |ts|
    decreases |ts| - i, Rank(l)
  {
    match l
    case Additive =>
      (match ParseAt(Multiplicative, ts, i) case Fail => Fail case Done(n, k) => Tail(Additive, ts, n, k))
    case Multiplicative =>
      (match ParseAt(Prefix, ts, i) case Fail => Fail case Done(n, k) => Tail(Multiplicative, ts, n, k))
    case Prefix =>
      if i < |ts| && IsSign(ts[i]) then
        (match ParseAt(Prefix, ts, i + 1) case Fail => Fail case Done(n, k) => Done(Unary(SignOf(ts[i]), n), k))
      else ParseAt(Power, ts, i)
    case Power =>
      (match ParseAt(Primary, ts, i)
       case Fail => Fail
       case Done(n, k) =>
         if At(ts, k, TOp(Pow)) then
           match ParseAt(Prefix, ts, k + 1) case Fail => Fail case Done(r, m) => Done(Binary(Pow, n, r), m)
         else Done(n, k))
    case Primary =>
      if i == |ts| then Fail
      else match ts[i]
        case TNum(text) => Done(Number(text), i + 1)
        case TName(name) => if At(ts, i + 1, TOpen) then ParseCall(name, ts, i + 2) else Done(Name(name), i + 1)
        case TOpen =>
          (match ParseAt(Additive, ts, i + 1)
           case Fail => Fail
           case Done(n, k) => if At(ts, k, TClose) then Done(n, k + 1) else Fail)
        case _ => Fail
  }

  /** The loop of a left-associative level, from an operand already read. */
  function Tail(l: Level, ts: seq<Token>, left: Node, i: nat): (r: Parsed)
    requires i <= |ts|
    ensures r.Done? ==> i <= r.next <= |ts|
    decreases |ts| - i, 5
  {
    if i < |ts| && Joins(l, ts[i]) then
      match ParseAt(Below(l), ts, i + 1)
      case Fail => Fail
      case Done(n, k) => Tail(l, ts, Binary(ts[i].op, left, n), k)
    else Done(left, i)
  }

  /** The rest of a call, from just after its opening bracket. */
  function ParseCall(name: string, ts: seq<Token>, i: nat): (r: Parsed)
    requires i <= |ts|
    ensures r.Done? ==> i < r.next <= |ts|
    decreases |ts| - i, 7
  {
    if At(ts, i, TClose) then Done(Call(name, []), i + 1)
    else match ParseArgs(ts, i)
      case NoArgs => Fail
      case Args(args, k) => if At(ts, k, TClose) then Done(Call(name, args), k + 1) else Fail
  }

  function ParseArgs(ts: seq<Token>, i: nat): (r: ParsedArgs)
    requires i <= |ts|
    ensures r.Args? ==> i < r.next <= |ts|
    decreases |ts| - i, 6
  {
    match ParseAt(Additive, ts, i)
    case Fail => NoArgs
    case Done(n, k) => Prepend([n], MoreArgs(ts, k))
  }

  function MoreArgs(ts: seq<Token>, i: nat): (r: ParsedArgs)
    requires i <= |ts|
    ensures r.Args? ==> i <= r.next <= |ts|
    decreases |ts| - i, 5
  {
    if At(ts, i, TComma) then ParseArgs(ts, i + 1) else Args([], i)
  }

  function Prepend(front: seq<Node>, r: ParsedArgs): (p: ParsedArgs)
    ensures p.Args? <==> r.Args?
    ensures p.Args? ==> p.next == r.next
  {
    if r.Args? then Args(front + r.args, r.next) else NoArgs
  }

  /** A whole token list. */
  function Parse(ts: seq<Token>): Option<Node> {
    match ParseAt(Additive, ts, 0)
    case Done(n, k) => if k == |ts| then Some(n) else None
    case Fail => None
  }

  // ---------------------------------------------------------------------------------------
  // The parser object

  /** The parser: a token list and a cursor moved by every method. A thrown error is None. */
  class Parser {
    const tokens: seq<Token>
    var index: nat

    constructor (tokens: seq<Token>)
      ensures this.tokens == tokens && index == 0
    {
      this.tokens := tokens;
      index := 0;
    }

    function Peek(): Option<Token>
      reads this
    {
      if index < |tokens| then Some(tokens[index]) else None
    }

    method Take() returns (t: Option<Token>)
      modifies this`index
      ensures t == old(Peek()) && index == old(index) + 1
    {
      t := Peek();
      index := index + 1;
    }

    method Expect(want: Token) returns (ok: bool)
      modifies this`index
      ensures ok == At(tokens, old(index), want) && index == old(index) + 1
    {
      var t := Take();
      ok := t == Some(want);
    }

    /** The tree returned and the cursor are what the level reads. */
    ghost predicate Read(r: Option<Node>, p: Parsed)
      reads this
    {
      match p case Fail => r == None case Done(n, k) => r == Some(n) && index == k
    }

    method ParseAll() returns (r: Option<Node>)
      requires index == 0
      modifies this`index
      ensures r == Parse(tokens)
    {
      r := ReadAdditive();
      if index != |tokens| {
        r := None;
      }
    }

    method ReadAdditive() returns (r: Option<Node>)
      requires index <= |tokens|
      modifies this`index
      ensures Read(r, ParseAt(Additive, tokens, old(index)))
      decreases |tokens| - index, 4
    {
      r := ReadMultiplicative();
      while r.Some? && index < |tokens| && Joins(Additive, tokens[index])
        invariant r.Some? ==> old(index) < index <= |tokens|
        invariant ParseAt(Additive, tokens, old(index)) == if r.Some? then Tail(Additive, tokens, r.value, index) else Fail
        decreases r.Some?, |tokens| - index
      {
        var left, op := r.value, tokens[index].op;
        var _ := Take();
        var right := ReadMultiplicative();
        r := if right.Some? then Some(Binary(op, left, right.value)) else None;
      }
    }

    method ReadMultiplicative() returns (r: Option<Node>)
      requires index <= |tokens|
      modifies this`index
      ensures Read(r, ParseAt(Multiplicative, tokens, old(index)))
      decreases |tokens| - index, 3
    {
      r := ReadUnary();
      while r.Some? && index < |tokens| && Joins(Multiplicative, tokens[index])
        invariant r.Some? ==> old(index) < index <= |tokens|
        invariant ParseAt(Multiplicative, tokens, old(index)) == if r.Some? then Tail(Multiplicative, tokens, r.value, index) else Fail
        decreases r.Some?, |tokens| - index
      {
        var left, op := r.value, tokens[index].op;
        var _ := Take();
        var right := ReadUnary();
        r := if right.Some? then Some(Binary(op, left, right.value)) else None;
      }
    }

    method ReadPower() returns (r: Option<Node>)
      requires index <= |tokens|
      modifies this`index
      ensures Read(r, ParseAt(Power, tokens, old(index)))
      decreases |tokens| - index, 1
    {
      r := ReadPrimary();
      if r.Some? && Peek() == Some(TOp(Pow)) {
        var left := r.value;
        var _ := Take();
        r := ReadUnary();
        if r.Some? {
          r := Some(Binary(Pow, left, r.value));
        }
      }
    }

    method ReadUnary() returns (r: Option<Node>)
      requires index <= |tokens|
      modifies this`index
      ensures Read(r, ParseAt(Prefix, tokens, old(index)))
      decreases |tokens| - index, 2
    {
      if index < |tokens| && IsSign(tokens[index]) {
        var sign := SignOf(tokens[index]);
        var _ := Take();
        r := ReadUnary();
        if r.Some? {
          r := Some(Unary(sign, r.value));
        }
      } else {
        r := ReadPower();
      }
    }

    method ReadPrimary() returns (r: Option<Node>)
      requires index <= |tokens|
      modifies this`index
      ensures Read(r, ParseAt(Primary, tokens, old(index)))
      decreases |tokens| - index, 0
    {
      var token := Peek();
      if token.None? {
        return None;
      }
      match token.value
      case TNum(text) =>
        var _ := Take();
        r := Some(Number(text));
      case TName(name) =>
        var _ := Take();
        if Peek() != Some(TOpen) {
          return Some(Name(name));
        }
        var _ := Take();
        r := ReadCall(name);
      case TOpen =>
        var _ := Take();
        r := ReadAdditive();
        if r.Some? {
          var closed := Expect(TClose);
          if !closed {
            r := None;
          }
        }
      case _ =>
        r := None;
    }

    method ReadCall(name: string) returns (r: Option<Node>)
      requires index <= |tokens|
      modifies this`index
      ensures Read(r, ParseCall(name, tokens, old(index)))
      decreases |tokens| - index, 5
    {
      var args: seq<Node> := [];
      if Peek() != Some(TClose) {
        var first := ReadAdditive();
        if first.None? {
          return None;
        }
        args := [first.value];
        while Peek() == Some(TComma)
          invariant old(index) < index <= |tokens|
          invariant !At(tokens, old(index), TClose)
          invariant ParseArgs(tokens, old(index)) == Prepend(args, MoreArgs(tokens, index))
          decreases |tokens| - index
        {
          var before := index;
          var _ := Take();
          var arg := ReadAdditive();
          if arg.None? {
            return None;
          }
          PrependTwice(args, [arg.value], MoreArgs(tokens, index));
          args := args + [arg.value];
        }
        assert args + [] == args;
      }
      var closed := Expect(TClose);
      r := if closed then Some(Call(name, args)) else None;
    }
  }

  lemma PrependTwice(a: seq<Node>, b: seq<Node>, r: ParsedArgs)
    ensures Prepend(a, Prepend(b, r)) == Prepend(a + b, r)
  {
    if r.Args? {
      assert a + (b + r.args) == (a + b) + r.args;
    }
  }
}
