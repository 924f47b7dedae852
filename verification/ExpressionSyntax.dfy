/** The parser accepts exactly the grammar, and printing with the fewest brackets is its inverse. */
module ExpressionSyntax {
  import opened Prelude
  import opened ExpressionGrammar
  import opened ExpressionParser

  // ---------------------------------------------------------------------------------------
  // Everything the parser reads, the grammar derives

  /** A piece [i, k) of the list cut at m. */
  lemma Cut(ts: seq<Token>, i: nat, m: nat, k: nat)
    requires i <= m < k <= |ts|
    ensures ts[i..k][..m - i] == ts[i..m] && ts[i..k][m - i] == ts[m] && ts[i..k][m - i + 1..] == ts[m + 1..k]
  {}

  /** A piece [i, k) without its first a tokens and its last one. */
  lemma Inside(ts: seq<Token>, i: nat, k: nat, a: nat)
    requires i + a < k <= |ts|
    ensures ts[i..k][a..|ts[i..k]| - 1] == ts[i + a..k - 1]
  {
    var piece := ts[i..k];
    var inner := piece[a..|piece| - 1];
    assert forall j :: 0 <= j < |inner| ==> inner[j] == piece[a + j] == ts[i + a + j];
  }

  /** What it means for two neighbouring pieces to be joined by an operator. */
  lemma Joined(l: Level, ts: seq<Token>, i: nat, m: nat, k: nat, left: Node, right: Node, op: Op)
    requires i <= m < k <= |ts| && ts[m] == TOp(op)
    requires l.Additive? || l.Multiplicative? || l.Power?
    requires (l.Additive? || l.Multiplicative?) ==> Joins(l, ts[m])
    requires l.Power? ==> op.Pow?
    requires Derives(if l.Power? then Primary else l, left, ts[i..m])
    requires Derives(if l.Power? then Prefix else Below(l), right, ts[m + 1..k])
    ensures Derives(l, Binary(op, left, right), ts[i..k])
  {
    Cut(ts, i, m, k);
    var n := Binary(op, left, right);
    assert InfixAt(n, ts[i..k], m - i, if l.Power? then Primary else l, if l.Power? then Prefix else Below(l));
  }

  /** A cut of the piece [i, k) in terms of the whole list. */
  lemma Parts(n: Node, ts: seq<Token>, i: nat, k: nat, m: nat, ll: Level, rl: Level)
    requires i + m < k <= |ts| && n.Binary? && InfixAt(n, ts[i..k], m, ll, rl)
    ensures ts[i + m] == TOp(n.op) && Derives(ll, n.left, ts[i..i + m]) && Derives(rl, n.right, ts[i + m + 1..k])
  {
    Cut(ts, i, i + m, k);
  }

  lemma {:induction false} Sound(l: Level, ts: seq<Token>, i: nat)
    requires i <= |ts|
    ensures var r := ParseAt(l, ts, i); r.Done? ==> Derives(l, r.node, ts[i..r.next])
    decreases |ts| - i, Rank(l), 1
  {
    var r := ParseAt(l, ts, i);
    if r.Done? {
      match l
      case Additive =>
        Sound(Multiplicative, ts, i);
        var first := ParseAt(Multiplicative, ts, i);
        SoundTail(Additive, ts, i, first.node, first.next);
      case Multiplicative =>
        Sound(Prefix, ts, i);
        var first := ParseAt(Prefix, ts, i);
        SoundTail(Multiplicative, ts, i, first.node, first.next);
      case Prefix =>
        if IsSign(ts[i]) {
          Sound(Prefix, ts, i + 1);
          assert ts[i..r.next][1..] == ts[i + 1..r.next];
        } else {
          Sound(Power, ts, i);
        }
      case Power =>
        SoundPower(ts, i);
      case Primary =>
        SoundPrimary(ts, i);
    }
  }

  lemma {:induction false} SoundPower(ts: seq<Token>, i: nat)
    requires i <= |ts| && ParseAt(Power, ts, i).Done?
    ensures var r := ParseAt(Power, ts, i); Derives(Power, r.node, ts[i..r.next])
    decreases |ts| - i, Rank(Power), 0
  {
    var r := ParseAt(Power, ts, i);
    Sound(Primary, ts, i);
    var first := ParseAt(Primary, ts, i);
    if At(ts, first.next, TOp(Pow)) {
      Sound(Prefix, ts, first.next + 1);
      Joined(Power, ts, i, first.next, r.next, first.node, r.node.right, Pow);
    }
  }

  lemma {:induction false} SoundTail(l: Level, ts: seq<Token>, start: nat, left: Node, i: nat)
    requires l.Additive? || l.Multiplicative?
    requires start < i <= |ts| && Derives(l, left, ts[start..i])
    ensures var r := Tail(l, ts, left, i); r.Done? ==> Derives(l, r.node, ts[start..r.next])
    decreases |ts| - i, 5
  {
    if i < |ts| && Joins(l, ts[i]) && ParseAt(Below(l), ts, i + 1).Done? {
      var right := ParseAt(Below(l), ts, i + 1);
      Sound(Below(l), ts, i + 1);
      Joined(l, ts, start, i, right.next, left, right.node, ts[i].op);
      SoundTail(l, ts, start, Binary(ts[i].op, left, right.node), right.next);
    }
  }

  lemma {:induction false} SoundPrimary(ts: seq<Token>, i: nat)
    requires i < |ts| && ParseAt(Primary, ts, i).Done?
    ensures var r := ParseAt(Primary, ts, i); Derives(Primary, r.node, ts[i..r.next])
    decreases |ts| - i, Rank(Primary), 0
  {
    var r := ParseAt(Primary, ts, i);
    var piece := ts[i..r.next];
    if ts[i].TOpen? {
      Sound(Additive, ts, i + 1);
      Inside(ts, i, r.next, 1);
    } else if ts[i].TName? && At(ts, i + 1, TOpen) {
      if !At(ts, i + 2, TClose) {
        SoundArgs(ts, i + 2);
      }
      Inside(ts, i, r.next, 2);
    }
  }

  lemma {:induction false} SoundArgs(ts: seq<Token>, i: nat)
    requires i <= |ts|
    ensures var r := ParseArgs(ts, i); r.Args? ==> r.args != [] && DerivesArgs(r.args, ts[i..r.next])
    decreases |ts| - i, 6
  {
    var r := ParseArgs(ts, i);
    if r.Args? {
      var first := ParseAt(Additive, ts, i);
      Sound(Additive, ts, i);
      assert r == Prepend([first.node], MoreArgs(ts, first.next));
      if At(ts, first.next, TComma) {
        SoundArgs(ts, first.next + 1);
        Cut(ts, i, first.next, r.next);
        assert r.args[1..] == ParseArgs(ts, first.next + 1).args;
        assert ArgsAt(r.args, ts[i..r.next], first.next - i);
      } else {
        assert r.args == [first.node];
      }
    }
  }

  // ---------------------------------------------------------------------------------------
  // Everything the grammar derives, the parser reads, whatever follows

  /** Tokens a level would go on to read after a tree of its own. */
  predicate Continues(l: Level, t: Token) {
    match l
    case Primary => t.TOpen?
    case Power => t.TOpen? || t == TOp(Pow)
    case Prefix => t.TOpen? || t == TOp(Pow)
    case Multiplicative => t.TOpen? || t == TOp(Pow) || t == TOp(Mul) || t == TOp(Div)
    case Additive => t.TOpen? || t.TOp?
  }

  predicate Ends(l: Level, ts: seq<Token>, k: nat) {
    k < |ts| ==> !Continues(l, ts[k])
  }

  /** How a derivation can start. */
  lemma {:induction false} FirstToken(l: Level, n: Node, ts: seq<Token>)
    requires Derives(l, n, ts)
    ensures ts != [] && (ts[0].TNum? || ts[0].TName? || ts[0].TOpen? || (IsSign(ts[0]) && Rank(l) >= 2))
    decreases |ts|, Rank(l)
  {
    match l
    case Primary =>
    case Power =>
      if Derives(Primary, n, ts) {
        FirstToken(Primary, n, ts);
      } else {
        var k: nat :| k < |ts| && InfixAt(n, ts, k, Primary, Prefix);
        FirstToken(Primary, n.left, ts[..k]);
      }
    case Prefix =>
      if Derives(Power, n, ts) {
        FirstToken(Power, n, ts);
      }
    case _ =>
      if Derives(Below(l), n, ts) {
        FirstToken(Below(l), n, ts);
      } else {
        var k: nat :| k < |ts| && InfixAt(n, ts, k, l, Below(l));
        FirstToken(l, n.left, ts[..k]);
      }
  }

  lemma {:induction false} Complete(l: Level, n: Node, ts: seq<Token>, i: nat, k: nat)
    requires i <= k <= |ts| && Derives(l, n, ts[i..k]) && Ends(l, ts, k)
    ensures ParseAt(l, ts, i) == Done(n, k)
    decreases k - i, Rank(l), 1
  {
    match l
    case Primary =>
      CompletePrimary(n, ts, i, k);
    case Power =>
      CompletePower(n, ts, i, k);
    case Prefix =>
      FirstToken(Prefix, n, ts[i..k]);
      if Derives(Power, n, ts[i..k]) {
        FirstToken(Power, n, ts[i..k]);
        Complete(Power, n, ts, i, k);
      } else {
        assert ts[i..k][1..] == ts[i + 1..k];
        Complete(Prefix, n.value, ts, i + 1, k);
      }
    case _ =>
      CompleteLoop(l, n, ts, i, k);
  }

  lemma {:induction false} CompletePower(n: Node, ts: seq<Token>, i: nat, k: nat)
    requires i <= k <= |ts| && Derives(Power, n, ts[i..k]) && Ends(Power, ts, k)
    ensures ParseAt(Power, ts, i) == Done(n, k)
    decreases k - i, Rank(Power), 0
  {
    if Derives(Primary, n, ts[i..k]) {
      Complete(Primary, n, ts, i, k);
    } else {
      var m: nat :| m < |ts[i..k]| && InfixAt(n, ts[i..k], m, Primary, Prefix);
      Parts(n, ts, i, k, m, Primary, Prefix);
      Complete(Primary, n.left, ts, i, i + m);
      Complete(Prefix, n.right, ts, i + m + 1, k);
    }
  }

  /** A left-associative level reaches its loop with the derived tree in hand. */
  lemma {:induction false} CompleteLoop(l: Level, n: Node, ts: seq<Token>, i: nat, k: nat)
    requires l.Additive? || l.Multiplicative?
    requires i <= k <= |ts| && Derives(l, n, ts[i..k]) && Ends(Below(l), ts, k)
    ensures ParseAt(l, ts, i) == Tail(l, ts, n, k)
    decreases k - i, Rank(l), 0
  {
    if Derives(Below(l), n, ts[i..k]) {
      Complete(Below(l), n, ts, i, k);
    } else {
      var m: nat :| m < |ts[i..k]| && InfixAt(n, ts[i..k], m, l, Below(l));
      Parts(n, ts, i, k, m, l, Below(l));
      CompleteLoop(l, n.left, ts, i, i + m);
      Complete(Below(l), n.right, ts, i + m + 1, k);
    }
  }

  lemma {:induction false} CompletePrimary(n: Node, ts: seq<Token>, i: nat, k: nat)
    requires i <= k <= |ts| && Derives(Primary, n, ts[i..k]) && Ends(Primary, ts, k)
    ensures ParseAt(Primary, ts, i) == Done(n, k)
    decreases k - i, Rank(Primary), 0
  {
    var piece := ts[i..k];
    FirstToken(Primary, n, piece);
    assert piece[0] == ts[i] && Derives(Primary, n, piece);
    if ts[i].TOpen? {
      assert |piece| >= 2;
      Inside(ts, i, k, 1);
      Complete(Additive, n, ts, i + 1, k - 1);
    } else if n.Call? {
      Inside(ts, i, k, 2);
      if n.args != [] {
        CompleteArgs(n.args, ts, i + 2, k - 1);
        assert !At(ts, i + 2, TClose);
      }
    }
  }

  lemma {:induction false} CompleteArgs(args: seq<Node>, ts: seq<Token>, i: nat, k: nat)
    requires i <= k < |ts| && ts[k] == TClose && args != [] && DerivesArgs(args, ts[i..k])
    ensures ParseArgs(ts, i) == Args(args, k) && i < k && ts[i] != TClose
    decreases k - i, 5
  {
    if |args| == 1 {
      Complete(Additive, args[0], ts, i, k);
      FirstToken(Additive, args[0], ts[i..k]);
      assert [args[0]] + [] == args;
    } else {
      var m: nat :| m < |ts[i..k]| && ArgsAt(args, ts[i..k], m);
      Cut(ts, i, i + m, k);
      Complete(Additive, args[0], ts, i, i + m);
      FirstToken(Additive, args[0], ts[i..i + m]);
      CompleteArgs(args[1..], ts, i + m + 1, k);
      assert [args[0]] + args[1..] == args;
    }
  }

  /** The parser succeeds with a tree exactly on the token lists the grammar gives that tree. */
  lemma ParsesTheGrammar(ts: seq<Token>, n: Node)
    ensures Parse(ts) == Some(n) <==> Derives(Additive, n, ts)
  {
    assert ts[0..|ts|] == ts;
    if Parse(ts) == Some(n) {
      Sound(Additive, ts, 0);
    }
    if Derives(Additive, n, ts) {
      Complete(Additive, n, ts, 0, |ts|);
    }
  }

  /** So no token list has two readings. */
  lemma Unambiguous(ts: seq<Token>, m: Node, n: Node)
    requires Derives(Additive, m, ts) && Derives(Additive, n, ts)
    ensures m == n
  {
    ParsesTheGrammar(ts, m);
    ParsesTheGrammar(ts, n);
  }

  // ---------------------------------------------------------------------------------------
  // Printing with brackets only where the grammar needs them

  /** The tree can stand at the level without brackets. */
  predicate Fits(l: Level, n: Node) {
    match n
    case Unary(_, _) => Rank(l) >= Rank(Prefix)
    case Binary(op, _, _) =>
      if op.Pow? then Rank(l) >= Rank(Power)
      else if op.Mul? || op.Div? then Rank(l) >= Rank(Multiplicative)
      else Rank(l) >= Rank(Additive)
    case _ => true
  }

  function Print(l: Level, n: Node): seq<Token>
    decreases n, 1
  {
    if Fits(l, n) then Bare(n) else [TOpen] + Bare(n) + [TClose]
  }

  function Bare(n: Node): seq<Token>
    decreases n, 0
  {
    match n
    case Number(text) => [TNum(text)]
    case Name(name) => [TName(name)]
    case Unary(sign, value) => [TOp(SignOp(sign))] + Print(Prefix, value)
    case Binary(op, left, right) => Print(LeftLevel(op), left) + [TOp(op)] + Print(RightLevel(op), right)
    case Call(name, args) => [TName(name), TOpen] + PrintArgs(args) + [TClose]
  }

  function PrintArgs(args: seq<Node>): seq<Token>
    decreases args, 2
  {
    if args == [] then []
    else if |args| == 1 then Print(Additive, args[0])
    else Print(Additive, args[0]) + [TComma] + PrintArgs(args[1..])
  }

  function LeftLevel(op: Op): Level {
    match op
    case Pow => Primary
    case Mul => Multiplicative
    case Div => Multiplicative
    case _ => Additive
  }

  function RightLevel(op: Op): Level {
    match op
    case Add => Multiplicative
    case Sub => Multiplicative
    case _ => Prefix
  }

  /** The level a tree is produced at. */
  function HomeLevel(n: Node): Level {
    match n
    case Unary(_, _) => Prefix
    case Binary(op, _, _) => if op.Pow? then Power else LeftLevel(op)
    case _ => Primary
  }

  /** A looser level derives whatever a tighter one does. */
  lemma {:induction false} Looser(tight: Level, loose: Level, n: Node, ts: seq<Token>)
    requires Rank(tight) <= Rank(loose) && Derives(tight, n, ts)
    ensures Derives(loose, n, ts)
    decreases Rank(loose)
  {
    if tight != loose {
      var next := match loose case Power => Primary case Prefix => Power case _ => Below(loose);
      Looser(tight, next, n, ts);
    }
  }

  lemma {:induction false} PrintDerives(l: Level, n: Node)
    ensures Derives(l, n, Print(l, n))
    decreases n, 1
  {
    BareDerives(n);
    if Fits(l, n) {
      Looser(HomeLevel(n), l, n, Bare(n));
    } else {
      Looser(HomeLevel(n), Additive, n, Bare(n));
      BracketsDerive(n, Bare(n));
      Looser(Primary, l, n, Print(l, n));
    }
  }

  lemma InfixDerives(n: Node, left: seq<Token>, right: seq<Token>, ll: Level, rl: Level)
    requires n.Binary? && Derives(ll, n.left, left) && Derives(rl, n.right, right)
    ensures InfixAt(n, left + [TOp(n.op)] + right, |left|, ll, rl)
  {
    var ts := left + [TOp(n.op)] + right;
    assert ts[..|left|] == left && ts[|left| + 1..] == right;
  }

  lemma CallDerives(n: Node, inner: seq<Token>)
    requires n.Call? && DerivesArgs(n.args, inner)
    ensures Derives(Primary, n, [TName(n.name), TOpen] + inner + [TClose])
  {
    var ts := [TName(n.name), TOpen] + inner + [TClose];
    assert ts[2..|ts| - 1] == inner;
  }

  lemma BracketsDerive(n: Node, inner: seq<Token>)
    requires Derives(Additive, n, inner)
    ensures Derives(Primary, n, [TOpen] + inner + [TClose])
  {
    var ts := [TOpen] + inner + [TClose];
    assert ts[1..|ts| - 1] == inner;
  }

  lemma {:induction false} BareDerives(n: Node)
    ensures Derives(HomeLevel(n), n, Bare(n))
    decreases n, 0
  {
    match n
    case Unary(sign, value) =>
      PrintDerives(Prefix, value);
      assert Bare(n)[1..] == Print(Prefix, value);
    case Binary(op, left, right) =>
      PrintDerives(LeftLevel(op), left);
      PrintDerives(RightLevel(op), right);
      InfixDerives(n, Print(LeftLevel(op), left), Print(RightLevel(op), right), LeftLevel(op), RightLevel(op));
    case Call(name, args) =>
      ArgsDerive(args);
      CallDerives(n, PrintArgs(args));
    case _ =>
  }

  lemma {:induction false} ArgsDerive(args: seq<Node>)
    ensures DerivesArgs(args, PrintArgs(args))
    decreases args, 2
  {
    if args != [] {
      PrintDerives(Additive, args[0]);
      if |args| > 1 {
        ArgsDerive(args[1..]);
        var ts, k := PrintArgs(args), |Print(Additive, args[0])|;
        assert ts[..k] == Print(Additive, args[0]) && ts[k] == TComma && ts[k + 1..] == PrintArgs(args[1..]);
        assert ArgsAt(args, ts, k);
      }
    }
  }

  /** Every tree, of any size, is read back from its printing unchanged. */
  lemma RoundTrip(n: Node)
    ensures Parse(Print(Additive, n)) == Some(n)
  {
    PrintDerives(Additive, n);
    ParsesTheGrammar(Print(Additive, n), n);
  }

  // ---------------------------------------------------------------------------------------
  // No shorter token list parses to the same tree

  lemma {:induction false} PrintIsShortest(l: Level, n: Node, ts: seq<Token>)
    requires Derives(l, n, ts)
    ensures |Print(l, n)| <= |ts|
    decreases |ts|, Rank(l), 1
  {
    match l
    case Primary =>
      if |ts| >= 2 && ts[0] == TOpen {
        PrintIsShortest(Additive, n, ts[1..|ts| - 1]);
      } else if n.Call? {
        ArgsShortest(n.args, ts[2..|ts| - 1]);
      }
    case Power =>
      if Derives(Primary, n, ts) {
        PrintIsShortest(Primary, n, ts);
      } else {
        var k: nat :| k < |ts| && InfixAt(n, ts, k, Primary, Prefix);
        InfixShortest(n, ts, k);
      }
    case Prefix =>
      if Derives(Power, n, ts) {
        PrintIsShortest(Power, n, ts);
      } else {
        PrintIsShortest(Prefix, n.value, ts[1..]);
      }
    case _ =>
      if Derives(Below(l), n, ts) {
        PrintIsShortest(Below(l), n, ts);
      } else {
        var k: nat :| k < |ts| && InfixAt(n, ts, k, l, Below(l));
        InfixShortest(n, ts, k);
      }
  }

  lemma {:induction false} InfixShortest(n: Node, ts: seq<Token>, k: nat)
    requires k < |ts| && n.Binary? && InfixAt(n, ts, k, LeftLevel(n.op), RightLevel(n.op))
    ensures |Bare(n)| <= |ts|
    decreases |ts|, 0
  {
    PrintIsShortest(LeftLevel(n.op), n.left, ts[..k]);
    PrintIsShortest(RightLevel(n.op), n.right, ts[k + 1..]);
  }

  lemma {:induction false} ArgsShortest(args: seq<Node>, ts: seq<Token>)
    requires DerivesArgs(args, ts)
    ensures |PrintArgs(args)| <= |ts|
    decreases |ts|, 5
  {
    if |args| == 1 {
      PrintIsShortest(Additive, args[0], ts);
    } else if |args| > 1 {
      var k: nat :| k < |ts| && ArgsAt(args, ts, k);
      PrintIsShortest(Additive, args[0], ts[..k]);
      ArgsShortest(args[1..], ts[k + 1..]);
    }
  }

  /** The printing is minimal: any token list with the same reading is at least as long. */
  lemma MinimalBrackets(n: Node, ts: seq<Token>)
    requires Parse(ts) == Some(n)
    ensures |Print(Additive, n)| <= |ts|
  {
    ParsesTheGrammar(ts, n);
    PrintIsShortest(Additive, n, ts);
  }
}
