/** Validation, evaluation and compilation of parsed expressions, over any arithmetic. */
module ExpressionCompile {
  import opened Prelude
  import opened ExpressionGrammar
  import opened ExpressionParser
  import opened ExpressionSyntax
  import opened ExpressionLexer

  const MAX_DEPTH := 32

  predicate IsConstant(name: string) {
    name == "pi" || name == "e" || name == "tau"
  }

  /** How many arguments a known function takes. */
  function MaxArity(name: string): nat {
    if name == "max" || name == "min" then 8
    else if name == "atan2" || name == "pow" then 2
    else if name in ["abs", "acos", "asin", "atan", "cbrt", "ceil", "cos", "cosh", "exp", "floor", "log", "ln", "log2",
                     "log10", "round", "sign", "sin", "sinh", "sqrt", "tan", "tanh"] then 1
    else 0
  }

  predicate IsFunction(name: string) {
    MaxArity(name) > 0
  }

  predicate ArityFits(name: string, count: nat) {
    && IsFunction(name)
    && (if name == "atan2" || name == "pow" then count == 2 else 1 <= count <= MaxArity(name))
  }

  predicate ValidVariable(v: string) {
    && IsName(v) && |v| <= 32 && !IsConstant(v) && !IsFunction(v)
    && v != "__proto__" && v != "prototype" && v != "constructor"
  }

  // ---------------------------------------------------------------------------------------
  // Validation

  predicate Validate(n: Node, vars: set<string>, depth: nat)
    decreases n
  {
    depth <= MAX_DEPTH
    && match n
       case Number(_) => true
       case Name(name) => name in vars || IsConstant(name)
       case Unary(_, value) => Validate(value, vars, depth + 1)
       case Binary(_, left, right) => Validate(left, vars, depth + 1) && Validate(right, vars, depth + 1)
       case Call(name, args) =>
         ArityFits(name, |args|) && forall k :: 0 <= k < |args| ==> Validate(args[k], vars, depth + 1)
  }

  function Height(n: Node): nat
    decreases n, 0
  {
    match n
    case Unary(_, value) => 1 + Height(value)
    case Binary(_, left, right) => 1 + Max(Height(left), Height(right))
    case Call(_, args) => if args == [] then 0 else 1 + HeightAll(args)
    case _ => 0
  }

  function HeightAll(args: seq<Node>): nat
    decreases args, 1
  {
    if args == [] then 0 else Max(Height(args[0]), HeightAll(args[1..]))
  }

  function Max(a: nat, b: nat): nat {
    if a < b then b else a
  }

  function NamesOf(n: Node): set<string>
    decreases n, 0
  {
    match n
    case Number(_) => {}
    case Name(name) => {name}
    case Unary(_, value) => NamesOf(value)
    case Binary(_, left, right) => NamesOf(left) + NamesOf(right)
    case Call(_, args) => NamesOfAll(args)
  }

  function NamesOfAll(args: seq<Node>): set<string>
    decreases args, 1
  {
    if args == [] then {} else NamesOf(args[0]) + NamesOfAll(args[1..])
  }

  /** Every call is of a known function with a fitting number of arguments. */
  predicate CallsKnown(n: Node)
    decreases n, 0
  {
    match n
    case Unary(_, value) => CallsKnown(value)
    case Binary(_, left, right) => CallsKnown(left) && CallsKnown(right)
    case Call(name, args) => ArityFits(name, |args|) && CallsKnownAll(args)
    case _ => true
  }

  predicate CallsKnownAll(args: seq<Node>)
    decreases args, 1
  {
    args == [] || (CallsKnown(args[0]) && CallsKnownAll(args[1..]))
  }

  ghost predicate NamesDefined(names: set<string>, vars: set<string>) {
    forall x :: x in names ==> x in vars || IsConstant(x)
  }

  /** What the recursive check accepts, said without recursion on depth. */
  lemma {:induction false} ValidateExactly(n: Node, vars: set<string>, depth: nat)
    ensures Validate(n, vars, depth) <==>
            depth + Height(n) <= MAX_DEPTH && NamesDefined(NamesOf(n), vars) && CallsKnown(n)
    decreases n, 1
  {
    match n
    case Unary(_, value) =>
      ValidateExactly(value, vars, depth + 1);
    case Binary(_, left, right) =>
      ValidateExactly(left, vars, depth + 1);
      ValidateExactly(right, vars, depth + 1);
    case Call(name, args) =>
      ValidateAllExactly(args, vars, depth + 1);
    case _ =>
  }

  lemma {:induction false} ValidateAllExactly(args: seq<Node>, vars: set<string>, depth: nat)
    ensures (forall k :: 0 <= k < |args| ==> Validate(args[k], vars, depth)) <==>
            (args != [] ==> depth + HeightAll(args) <= MAX_DEPTH) && NamesDefined(NamesOfAll(args), vars) && CallsKnownAll(args)
    decreases args, 0
  {
    if args != [] {
      ValidateExactly(args[0], vars, depth);
      ValidateAllExactly(args[1..], vars, depth);
      assert (forall k :: 0 <= k < |args| ==> Validate(args[k], vars, depth)) <==>
             Validate(args[0], vars, depth) && forall k :: 0 <= k < |args[1..]| ==> Validate(args[1..][k], vars, depth)
      by {
        assert forall k :: 0 < k < |args| ==> args[k] == args[1..][k - 1];
      }
    }
  }

  // ---------------------------------------------------------------------------------------
  // Evaluation

  /** An arithmetic: what numerals, constants, operators and functions mean. */
  datatype Arith<!N> = Arith(
    number: string -> N, constant: string -> N, neg: N -> N, combine: (Op, N, N) -> N,
    isZero: N -> bool, nan: N, run: (string, seq<N>) -> N)

  /** The value of a tree; None where the evaluator throws. */
  function Evaluate<N>(a: Arith<N>, n: Node, env: map<string, N>): Option<N>
    decreases n, 0
  {
    match n
    case Number(text) => Some(a.number(text))
    case Name(name) =>
      if name in env then Some(env[name]) else if IsConstant(name) then Some(a.constant(name)) else None
    case Unary(sign, value) =>
      var v := Evaluate(a, value, env);
      if v.None? then None else Some(if sign.Minus? then a.neg(v.value) else v.value)
    case Binary(op, left, right) =>
      var l, r := Evaluate(a, left, env), Evaluate(a, right, env);
      if l.None? || r.None? then None
      else if op.Div? && a.isZero(r.value) then Some(a.nan)
      else Some(a.combine(op, l.value, r.value))
    case Call(name, args) =>
      if !ArityFits(name, |args|) then None
      else
        var vs := EvaluateAll(a, args, env);
        if vs.None? then None else Some(a.run(name, vs.value))
  }

  function EvaluateAll<N>(a: Arith<N>, args: seq<Node>, env: map<string, N>): Option<seq<N>>
    decreases args, 1
  {
    if args == [] then Some([])
    else
      var first, rest := Evaluate(a, args[0], env), EvaluateAll(a, args[1..], env);
      if first.None? || rest.None? then None else Some([first.value] + rest.value)
  }

  /** When evaluation throws nothing: all names defined and all calls known. */
  lemma {:induction false} EvaluatesExactly<N>(a: Arith<N>, n: Node, env: map<string, N>)
    ensures Evaluate(a, n, env).Some? <==> NamesDefined(NamesOf(n), env.Keys) && CallsKnown(n)
    decreases n, 0
  {
    match n
    case Unary(_, value) =>
      EvaluatesExactly(a, value, env);
    case Binary(_, left, right) =>
      EvaluatesExactly(a, left, env);
      EvaluatesExactly(a, right, env);
    case Call(_, args) =>
      EvaluatesAllExactly(a, args, env);
    case _ =>
  }

  lemma {:induction false} EvaluatesAllExactly<N>(a: Arith<N>, args: seq<Node>, env: map<string, N>)
    ensures EvaluateAll(a, args, env).Some? <==> NamesDefined(NamesOfAll(args), env.Keys) && CallsKnownAll(args)
    decreases args, 1
  {
    if args != [] {
      EvaluatesExactly(a, args[0], env);
      EvaluatesAllExactly(a, args[1..], env);
    }
  }

  /** What a name stands for: an entry of the environment, or else a constant. */
  function Meaning<N>(a: Arith<N>, env: map<string, N>, name: string): Option<N> {
    if name in env then Some(env[name]) else if IsConstant(name) then Some(a.constant(name)) else None
  }

  ghost predicate AgreeOn<N(!new)>(a: Arith<N>, e: map<string, N>, f: map<string, N>, names: set<string>) {
    forall x :: x in names ==> Meaning(a, e, x) == Meaning(a, f, x)
  }

  lemma {:induction false} OnlyNamesMatter<N(!new)>(a: Arith<N>, n: Node, e: map<string, N>, f: map<string, N>)
    requires AgreeOn(a, e, f, NamesOf(n))
    ensures Evaluate(a, n, e) == Evaluate(a, n, f)
    decreases n, 0
  {
    match n
    case Unary(_, value) =>
      OnlyNamesMatter(a, value, e, f);
    case Binary(_, left, right) =>
      OnlyNamesMatter(a, left, e, f);
      OnlyNamesMatter(a, right, e, f);
    case Call(_, args) =>
      OnlyNamesOfAllMatter(a, args, e, f);
    case Name(name) =>
      assert Meaning(a, e, name) == Meaning(a, f, name);
    case Number(_) =>
  }

  lemma {:induction false} OnlyNamesOfAllMatter<N(!new)>(a: Arith<N>, args: seq<Node>, e: map<string, N>, f: map<string, N>)
    requires AgreeOn(a, e, f, NamesOfAll(args))
    ensures EvaluateAll(a, args, e) == EvaluateAll(a, args, f)
    decreases args, 1
  {
    if args != [] {
      OnlyNamesMatter(a, args[0], e, f);
      OnlyNamesOfAllMatter(a, args[1..], e, f);
    }
  }

  // ---------------------------------------------------------------------------------------
  // Compilation

  predicate VariablesValid(variables: seq<string>) {
    && (forall v :: v in variables ==> ValidVariable(v))
    && (forall j, k :: 0 <= j < k < |variables| ==> variables[j] != variables[k])
  }

  function VariableSet(variables: seq<string>): set<string> {
    set v | v in variables
  }

  /** The tree of an accepted expression. */
  function Compile(finite: string -> bool, expression: string, variables: seq<string>): Option<Node> {
    if !VariablesValid(variables) then None
    else match Tokens(finite, expression)
      case None => None
      case Some(ts) =>
        (match Parse(ts)
         case Some(n) => if Validate(n, VariableSet(variables), 0) then Some(n) else None
         case None => None)
  }

  method CompileExpression(finite: string -> bool, expression: string, variables: seq<string>) returns (r: Option<Node>)
    ensures r == Compile(finite, expression, variables)
  {
    if !VariablesValid(variables) {
      return None;
    }
    var tokens := Tokenize(finite, expression);
    if tokens.None? {
      return None;
    }
    var parser := new Parser(tokens.value);
    var ast := parser.ParseAll();
    if ast.None? || !Validate(ast.value, VariableSet(variables), 0) {
      return None;
    }
    return ast;
  }

  /** Which expressions compile, and to what. */
  lemma CompilesExactly(finite: string -> bool, expression: string, variables: seq<string>, n: Node)
    ensures Compile(finite, expression, variables) == Some(n) <==>
            && VariablesValid(variables)
            && Tokens(finite, expression).Some?
            && Derives(Additive, n, Tokens(finite, expression).value)
            && Height(n) <= MAX_DEPTH
            && NamesDefined(NamesOf(n), VariableSet(variables))
            && CallsKnown(n)
  {
    if Tokens(finite, expression).Some? {
      ParsesTheGrammar(Tokens(finite, expression).value, n);
      ValidateExactly(n, VariableSet(variables), 0);
    }
  }

  /** A compiled expression never throws, whatever else the environment holds. */
  lemma CompiledIsTotal<N>(a: Arith<N>, finite: string -> bool, expression: string, variables: seq<string>, env: map<string, N>)
    requires Compile(finite, expression, variables).Some?
    requires forall v :: v in variables ==> v in env
    ensures Evaluate(a, Compile(finite, expression, variables).value, env).Some?
  {
    var n := Compile(finite, expression, variables).value;
    CompilesExactly(finite, expression, variables, n);
    assert NamesDefined(NamesOf(n), env.Keys);
    EvaluatesExactly(a, n, env);
  }

  /** Under every arithmetic its value is a function of the declared variables, as long as no
      constant that it uses is given another meaning. */
  lemma CompiledDependsOnVariables<N(!new)>(
      a: Arith<N>, finite: string -> bool, expression: string, variables: seq<string>, e: map<string, N>, f: map<string, N>)
    requires Compile(finite, expression, variables).Some?
    requires forall v :: v in variables ==> v in e && v in f && e[v] == f[v]
    requires forall c :: c in NamesOf(Compile(finite, expression, variables).value) && IsConstant(c) ==> Meaning(a, e, c) == Meaning(a, f, c)
    ensures var n := Compile(finite, expression, variables).value; Evaluate(a, n, e) == Evaluate(a, n, f)
  {
    var n := Compile(finite, expression, variables).value;
    CompilesExactly(finite, expression, variables, n);
    forall x | x in NamesOf(n)
      ensures Meaning(a, e, x) == Meaning(a, f, x)
    {
      assert x in VariableSet(variables) || IsConstant(x);
    }
    OnlyNamesMatter(a, n, e, f);
  }

  // ---------------------------------------------------------------------------------------
  // What the value is

  /** The arithmetic whose values are trees: every operation only writes down that it was used. */
  function Writing(): Arith<Node> {
    Arith(text => Number(text), name => Name(name), v => Unary(Minus, v), (op, l, r) => Binary(op, l, r), _ => false,
          Name("nan"), (name, vs) => Call(name, vs))
  }

  /** The tree without its prefix pluses. */
  function WithoutPlus(n: Node): Node
    decreases n, 0
  {
    match n
    case Unary(Plus, value) => WithoutPlus(value)
    case Unary(Minus, value) => Unary(Minus, WithoutPlus(value))
    case Binary(op, left, right) => Binary(op, WithoutPlus(left), WithoutPlus(right))
    case Call(name, args) => Call(name, WithoutPlusAll(args))
    case _ => n
  }

  function WithoutPlusAll(args: seq<Node>): seq<Node>
    decreases args, 1
  {
    if args == [] then [] else [WithoutPlus(args[0])] + WithoutPlusAll(args[1..])
  }

  /** Every name of the environment stands for itself. */
  ghost predicate StandForThemselves(env: map<string, Node>) {
    forall x :: x in env ==> env[x] == Name(x)
  }

  lemma {:induction false} WritesTheTree(n: Node, env: map<string, Node>)
    requires StandForThemselves(env) && Evaluate(Writing(), n, env).Some?
    ensures Evaluate(Writing(), n, env) == Some(WithoutPlus(n))
    decreases n, 0
  {
    match n
    case Unary(_, value) =>
      WritesTheTree(value, env);
    case Binary(_, left, right) =>
      WritesTheTree(left, env);
      WritesTheTree(right, env);
    case Call(_, args) =>
      WritesAll(args, env);
    case _ =>
  }

  lemma {:induction false} WritesAll(args: seq<Node>, env: map<string, Node>)
    requires StandForThemselves(env) && EvaluateAll(Writing(), args, env).Some?
    ensures EvaluateAll(Writing(), args, env) == Some(WithoutPlusAll(args))
    decreases args, 1
  {
    if args != [] {
      WritesTheTree(args[0], env);
      WritesAll(args[1..], env);
    }
  }

  /** Evaluated over trees, with every variable standing for itself, a compiled expression is its
      own tree but for prefix pluses: every operator, sign, function, name and numeral is applied
      where it stands, to its operands in their order. */
  lemma EvaluatesToItself(finite: string -> bool, expression: string, variables: seq<string>)
    requires Compile(finite, expression, variables).Some?
    ensures var n := Compile(finite, expression, variables).value;
            Evaluate(Writing(), n, map v | v in VariableSet(variables) :: Name(v)) == Some(WithoutPlus(n))
  {
    var n := Compile(finite, expression, variables).value;
    var env := map v | v in VariableSet(variables) :: Name(v);
    CompiledIsTotal(Writing(), finite, expression, variables, env);
    WritesTheTree(n, env);
  }

  /** The value is that of not a number exactly if the right side of a quotient is zero, or the
      operation itself gives it; no operation but the quotient asks for zero. */
  lemma QuotientByZero<N(!new)>(a: Arith<N>, op: Op, left: Node, right: Node, env: map<string, N>)
    requires Evaluate(a, left, env).Some? && Evaluate(a, right, env).Some?
    ensures var l, r := Evaluate(a, left, env).value, Evaluate(a, right, env).value;
            Evaluate(a, Binary(op, left, right), env) == Some(a.nan) <==> (op.Div? && a.isZero(r)) || a.combine(op, l, r) == a.nan
  {}

  // ---------------------------------------------------------------------------------------
  // An environment that redefines a constant

  /** Counts the weight of the names in a tree. */
  function Counting(): Arith<nat> {
    Arith(_ => 0, _ => 0, v => v, (_, l, r) => l + r, _ => false, 0, (_, vs) => Sum(vs))
  }

  function Sum(vs: seq<nat>): nat {
    if vs == [] then 0 else vs[0] + Sum(vs[1..])
  }

  ghost predicate Zero(env: map<string, nat>) {
    forall x :: x in env ==> env[x] == 0
  }

  lemma {:induction false} CountsOccurrences(n: Node, env: map<string, nat>, c: string)
    requires Zero(env) && Evaluate(Counting(), n, env).Some? && IsConstant(c)
    ensures Evaluate(Counting(), n, env) == Some(0)
    ensures var v := Evaluate(Counting(), n, env[c := 1]); v.Some? && (v.value > 0 <==> c in NamesOf(n))
    decreases n, 0
  {
    match n
    case Unary(_, value) =>
      CountsOccurrences(value, env, c);
    case Binary(_, left, right) =>
      CountsOccurrences(left, env, c);
      CountsOccurrences(right, env, c);
    case Call(_, args) =>
      CountsInAll(args, env, c);
    case _ =>
  }

  lemma {:induction false} CountsInAll(args: seq<Node>, env: map<string, nat>, c: string)
    requires Zero(env) && EvaluateAll(Counting(), args, env).Some? && IsConstant(c)
    ensures Sum(EvaluateAll(Counting(), args, env).value) == 0
    ensures var vs := EvaluateAll(Counting(), args, env[c := 1]); vs.Some? && (Sum(vs.value) > 0 <==> c in NamesOfAll(args))
    decreases args, 1
  {
    if args != [] {
      CountsOccurrences(args[0], env, c);
      CountsInAll(args[1..], env, c);
      var e := env[c := 1];
      var before, after := EvaluateAll(Counting(), args, env).value, EvaluateAll(Counting(), args, e).value;
      assert before[1..] == EvaluateAll(Counting(), args[1..], env).value;
      assert after[1..] == EvaluateAll(Counting(), args[1..], e).value;
    }
  }

  ghost predicate Defines(env: map<string, nat>, variables: seq<string>) {
    forall v :: v in variables ==> v in env
  }

  /** An entry under the constant's name changes the value. */
  ghost predicate Redefinable(a: Arith<nat>, n: Node, env: map<string, nat>, c: string, v: nat) {
    Evaluate(a, n, env) != Evaluate(a, n, env[c := v])
  }

  /** The environment is looked up before the constants. So an entry under a constant's name
      can change the value of a compiled expression, under some arithmetic, exactly if the
      expression uses that constant. */
  lemma RedefinedConstant(finite: string -> bool, expression: string, variables: seq<string>, c: string)
    requires Compile(finite, expression, variables).Some? && IsConstant(c)
    ensures var n := Compile(finite, expression, variables).value;
            (exists a: Arith<nat>, env, v :: Defines(env, variables) && Redefinable(a, n, env, c, v)) <==> c in NamesOf(n)
  {
    var n := Compile(finite, expression, variables).value;
    forall a: Arith<nat>, env, v | Defines(env, variables) && Redefinable(a, n, env, c, v)
      ensures c in NamesOf(n)
    {
      CompilesExactly(finite, expression, variables, n);
      if c !in NamesOf(n) {
        assert c !in variables by {
          assert IsConstant(c);
        }
        CompiledDependsOnVariables(a, finite, expression, variables, env, env[c := v]);
      }
    }
    var zeros: map<string, nat> := map v | v in VariableSet(variables) :: 0;
    CompiledIsTotal(Counting(), finite, expression, variables, zeros);
    CountsOccurrences(n, zeros, c);
    assert Defines(zeros, variables);
    assert c in NamesOf(n) <==> Redefinable(Counting(), n, zeros, c, 1);
  }

  lemma DerivesUp(n: Node, ts: seq<Token>)
    requires Derives(Primary, n, ts)
    ensures Derives(Additive, n, ts)
  {
    assert Derives(Power, n, ts);
    assert Derives(Prefix, n, ts);
    assert Derives(Multiplicative, n, ts);
  }

  /** Under a given arithmetic a use need not matter: a power of the constant may not depend
      on it, as in `pi^0`. But for the constant alone every other value does. */
  lemma RedefinedPi<N(!new)>(a: Arith<N>, finite: string -> bool, env: map<string, N>, v: N)
    requires "pi" !in env
    ensures var r := Compile(finite, "pi", []);
            r == Some(Name("pi")) && (Evaluate(a, r.value, env) != Evaluate(a, r.value, env["pi" := v]) <==> v != a.constant("pi"))
  {
    var s := "pi";
    assert NameEnd(s, 0) == 2 by {
      assert NameEnd(s, 2) == 2 && NameEnd(s, 1) == 2;
    }
    assert s[0..2] == s && LowerAll(s) == s;
    assert NextToken(finite, s, 0) == Lexed(TName(s), 2);
    assert Lex(finite, s, 2) == Some([]);
    assert [TName(s)] + [] == [TName(s)];
    assert Lex(finite, s, 0) == Prefixed([TName(s)], Lex(finite, s, 2)) == Some([TName(s)]);
    assert Tokens(finite, s) == Some([TName(s)]);
    CompilesExactly(finite, s, [], Name(s));
    assert Derives(Primary, Name(s), [TName(s)]);
    DerivesUp(Name(s), [TName(s)]);
  }

  lemma UsedWithoutEffect<N(!new)>(a: Arith<N>, env: map<string, N>, v: N, one: N)
    requires forall x :: a.combine(Pow, x, a.number("0")) == one
    ensures var n := Binary(Pow, Name("pi"), Number("0"));
            "pi" in NamesOf(n) && Evaluate(a, n, env) == Evaluate(a, n, env["pi" := v]) == Some(one)
  {}

  // ---------------------------------------------------------------------------------------
  // Bounds

  function Size(n: Node): nat
    decreases n, 0
  {
    match n
    case Unary(_, value) => 1 + Size(value)
    case Binary(_, left, right) => 1 + Size(left) + Size(right)
    case Call(_, args) => 1 + SizeAll(args)
    case _ => 1
  }

  function SizeAll(args: seq<Node>): nat
    decreases args, 1
  {
    if args == [] then 0 else Size(args[0]) + SizeAll(args[1..])
  }

  lemma {:induction false} SizeAtMostPrinted(n: Node)
    ensures Size(n) <= |Bare(n)|
    decreases n, 0
  {
    match n
    case Unary(_, value) =>
      SizeAtMostPrinted(value);
    case Binary(_, left, right) =>
      SizeAtMostPrinted(left);
      SizeAtMostPrinted(right);
    case Call(_, args) =>
      SizeAllAtMostPrinted(args);
    case _ =>
  }

  lemma {:induction false} SizeAllAtMostPrinted(args: seq<Node>)
    ensures SizeAll(args) <= |PrintArgs(args)|
    decreases args, 1
  {
    if args != [] {
      SizeAtMostPrinted(args[0]);
      SizeAllAtMostPrinted(args[1..]);
    }
  }

  /** A compiled tree has no more nodes than the expression has tokens, and is at most 32 deep. */
  lemma CompiledIsBounded(finite: string -> bool, expression: string, variables: seq<string>)
    requires Compile(finite, expression, variables).Some?
    ensures var n := Compile(finite, expression, variables).value;
            Size(n) <= |Tokens(finite, expression).value| <= MAX_TOKENS && Height(n) <= MAX_DEPTH
  {
    var n := Compile(finite, expression, variables).value;
    CompilesExactly(finite, expression, variables, n);
    SizeAtMostPrinted(n);
    MinimalBrackets(n, Tokens(finite, expression).value);
  }

  /** Printing a compiled tree and compiling the text again gives the same tree: the printing
      has no more tokens than the expression had, so only the length of the text can stop it. */
  lemma CompileRoundTrip(finite: string -> bool, expression: string, variables: seq<string>)
    requires Compile(finite, expression, variables).Some?
    ensures var n := Compile(finite, expression, variables).value;
            var text := SpellAll(Print(Additive, n));
            Compile(finite, text, variables) == Some(n) <==> |text| <= MAX_EXPRESSION_LENGTH
  {
    var n := Compile(finite, expression, variables).value;
    var ts := Tokens(finite, expression).value;
    var printed := Print(Additive, n);
    CompilesExactly(finite, expression, variables, n);
    MinimalBrackets(n, ts);
    PrintDerives(Additive, n);
    FirstToken(Additive, n, printed);
    TokensSpellable(finite, expression, 0);
    PrintedLeaves(finite, Additive, n, ts);
    SpellingRoundTrip(finite, printed);
    CompilesExactly(finite, SpellAll(printed), variables, n);
  }

  /** The leaves of a derivation are tokens of its list, so the printing is spellable if the list is. */
  lemma {:induction false} PrintedLeaves(finite: string -> bool, l: Level, n: Node, ts: seq<Token>)
    requires Derives(l, n, ts) && AllSpellable(finite, ts)
    ensures AllSpellable(finite, Print(l, n))
    decreases |ts|, Rank(l), 1
  {
    match l
    case Primary =>
      if |ts| >= 2 && ts[0] == TOpen {
        PrintedLeaves(finite, Additive, n, ts[1..|ts| - 1]);
      } else if n.Call? {
        PrintedArgs(finite, n.args, ts[2..|ts| - 1]);
      }
    case Power =>
      if Derives(Primary, n, ts) {
        PrintedLeaves(finite, Primary, n, ts);
      } else {
        var k: nat :| k < |ts| && InfixAt(n, ts, k, Primary, Prefix);
        PrintedInfix(finite, n, ts, k);
      }
    case Prefix =>
      if Derives(Power, n, ts) {
        PrintedLeaves(finite, Power, n, ts);
      } else {
        PrintedLeaves(finite, Prefix, n.value, ts[1..]);
      }
    case _ =>
      if Derives(Below(l), n, ts) {
        PrintedLeaves(finite, Below(l), n, ts);
      } else {
        var k: nat :| k < |ts| && InfixAt(n, ts, k, l, Below(l));
        PrintedInfix(finite, n, ts, k);
      }
  }

  lemma {:induction false} PrintedInfix(finite: string -> bool, n: Node, ts: seq<Token>, k: nat)
    requires k < |ts| && n.Binary? && InfixAt(n, ts, k, LeftLevel(n.op), RightLevel(n.op)) && AllSpellable(finite, ts)
    ensures AllSpellable(finite, Bare(n))
    decreases |ts|, 0
  {
    PrintedLeaves(finite, LeftLevel(n.op), n.left, ts[..k]);
    PrintedLeaves(finite, RightLevel(n.op), n.right, ts[k + 1..]);
  }

  lemma {:induction false} PrintedArgs(finite: string -> bool, args: seq<Node>, ts: seq<Token>)
    requires DerivesArgs(args, ts) && AllSpellable(finite, ts)
    ensures AllSpellable(finite, PrintArgs(args))
    decreases |ts|, 5
  {
    if |args| == 1 {
      PrintedLeaves(finite, Additive, args[0], ts);
    } else if |args| > 1 {
      var k: nat :| k < |ts| && ArgsAt(args, ts, k);
      PrintedLeaves(finite, Additive, args[0], ts[..k]);
      PrintedArgs(finite, args[1..], ts[k + 1..]);
    }
  }
}
