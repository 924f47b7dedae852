/** Tokens, trees and the grammar of the expressions a function plot accepts. */
module ExpressionGrammar {

  datatype Op = Add | Sub | Mul | Div | Pow

  datatype Sign = Plus | Minus

  datatype Token = TNum(text: string) | TName(text: string) | TOp(op: Op) | TOpen | TClose | TComma

  /** A number keeps its lexeme; its value is a function of that. */
  datatype Node =
    | Number(text: string)
    | Name(name: string)
    | Unary(sign: Sign, value: Node)
    | Binary(op: Op, left: Node, right: Node)
    | Call(name: string, args: seq<Node>)

  function SignOp(s: Sign): Op {
    if s.Plus? then Add else Sub
  }

  /** The precedence levels, loosest first. */
  datatype Level = Additive | Multiplicative | Prefix | Power | Primary

  function Rank(l: Level): nat {
    match l
    case Additive => 4
    case Multiplicative => 3
    case Prefix => 2
    case Power => 1
    case Primary => 0
  }


  /** The grammar, declaratively: a tree derives a token list at a level if the list can
      be cut up in some way that fits. Sums and products group to the left, powers to the
      right, and a power binds tighter than a sign in front of it. */
  ghost predicate Derives(l: Level, n: Node, ts: seq<Token>)
    decreases |ts|, Rank(l)
  {
    match l
    case Additive =>
      || Derives(Multiplicative, n, ts)
      || (n.Binary? && (n.op.Add? || n.op.Sub?) && exists k: nat :: k < |ts| && InfixAt(n, ts, k, Additive, Multiplicative))
    case Multiplicative =>
      || Derives(Prefix, n, ts)
      || (n.Binary? && (n.op.Mul? || n.op.Div?) && exists k: nat :: k < |ts| && InfixAt(n, ts, k, Multiplicative, Prefix))
    case Prefix =>
      || Derives(Power, n, ts)
      || (n.Unary? && ts != [] && ts[0] == TOp(SignOp(n.sign)) && Derives(Prefix, n.value, ts[1..]))
    case Power =>
      || Derives(Primary, n, ts)
      || (n.Binary? && n.op.Pow? && exists k: nat :: k < |ts| && InfixAt(n, ts, k, Primary, Prefix))
    case Primary =>
      || (n.Number? && ts == [TNum(n.text)])
      || (n.Name? && ts == [TName(n.name)])
      || (n.Call? && |ts| >= 3 && ts[0] == TName(n.name) && ts[1] == TOpen && ts[|ts| - 1] == TClose
          && DerivesArgs(n.args, ts[2..|ts| - 1]))
      || (|ts| >= 2 && ts[0] == TOpen && ts[|ts| - 1] == TClose && Derives(Additive, n, ts[1..|ts| - 1]))
  }

  ghost predicate InfixAt(n: Node, ts: seq<Token>, k: nat, ll: Level, rl: Level)
    requires n.Binary? && k < |ts|
    decreases |ts|, 0
  {
    ts[k] == TOp(n.op) && |ts[..k]| < |ts| && Derives(ll, n.left, ts[..k]) && Derives(rl, n.right, ts[k + 1..])
  }

  /** Comma-separated arguments. */
  ghost predicate DerivesArgs(args: seq<Node>, ts: seq<Token>)
    decreases |ts|, 5
  {
    if args == [] then ts == []
    else if |args| == 1 then Derives(Additive, args[0], ts)
    else exists k: nat :: k < |ts| && ArgsAt(args, ts, k)
  }

  ghost predicate ArgsAt(args: seq<Node>, ts: seq<Token>, k: nat)
    requires |args| >= 2 && k < |ts|
    decreases |ts|, 0
  {
    ts[k] == TComma && Derives(Additive, args[0], ts[..k]) && DerivesArgs(args[1..], ts[k + 1..])
  }
}
