/** Scalar C expressions: the printer, the precedence-climbing parser, and how far they undo each
    other. Text is modelled as its tokens. */
module CExpression {
  import opened Grammars

  datatype Operator = Lt | Gt | Le | Ge | Add | Sub | Mul | Div

  datatype Expr =
    | Atom(value: string)
    | Neg(arg: Expr)
    | Select(condition: Expr, yes: Expr, no: Expr)
    | Binary(op: Operator, left: Expr, right: Expr)

  datatype Token = Word(text: string) | Symbol(op: Operator) | Question | Colon | Open | Shut | Equality(text: string)

  function Precedence(op: Operator): nat {
    match op
    case Lt | Gt | Le | Ge => 40
    case Add | Sub => 50
    case Mul | Div => 60
  }

  // ---------- the printer ----------

  /** The printer protects the right operand only of the operators that do not associate. */
  function RightContext(op: Operator): nat {
    if op.Sub? || op.Div? then Precedence(op) + 1 else Precedence(op)
  }

  function Wrapped(inside: seq<Token>, wrap: bool): seq<Token> {
    if wrap then [Open] + inside + [Shut] else inside
  }

  function Render(e: Expr, parent: nat): seq<Token> {
    match e
    case Atom(value) => [Word(value)]
    case Neg(arg) => [Symbol(Sub)] + Render(arg, 90)
    case Select(c, a, b) => Wrapped(Render(c, 0) + [Question] + Render(a, 0) + [Colon] + Render(b, 0), parent > 10)
    case Binary(op, l, r) =>
      Wrapped(Render(l, Precedence(op)) + [Symbol(op)] + Render(r, RightContext(op)), Precedence(op) < parent)
  }

  // ---------- the parser, as a function of the tokens left ----------

  datatype ParseError = UnexpectedEnd | MissingParenthesis | MissingColon | UnexpectedToken(token: Token)
    | Unconsumed(token: Token)

  datatype Parsed = Done(expr: Expr, rest: seq<Token>) | Failed(error: ParseError)

  /** The precedence of a token that can follow an operand. */
  function Binding(t: Token): Option<nat> {
    match t
    case Question => Some(10)
    case Symbol(op) => Some(Precedence(op))
    case _ => None
  }

  predicate Continues(ts: seq<Token>, min: nat) {
    ts != [] && Binding(ts[0]).Some? && Binding(ts[0]).value >= min
  }

  function Primary(ts: seq<Token>): (r: Parsed)
    ensures r.Done? ==> |r.rest| < |ts|
    decreases |ts|, 0
  {
    if ts == [] then Failed(UnexpectedEnd)
    else match ts[0]
      case Open =>
        var inner := Parse(ts[1..], 0);
        if inner.Failed? then inner
        else if inner.rest == [] || inner.rest[0] != Shut then Failed(MissingParenthesis)
        else Done(inner.expr, inner.rest[1..])
      case Symbol(Sub) =>
        var arg := Parse(ts[1..], 80);
        if arg.Failed? then arg else Done(Neg(arg.expr), arg.rest)
      case Word(text) => Done(Atom(text), ts[1..])
      case _ => Failed(UnexpectedToken(ts[0]))
  }

  function Parse(ts: seq<Token>, min: nat): (r: Parsed)
    ensures r.Done? ==> |r.rest| < |ts|
    decreases |ts|, 1
  {
    var first := Primary(ts);
    if first.Failed? then first else Climb(first.expr, first.rest, min)
  }

  function Climb(left: Expr, ts: seq<Token>, min: nat): (r: Parsed)
    ensures r.Done? ==> |r.rest| <= |ts|
    decreases |ts|, 1
  {
    if !Continues(ts, min) then Done(left, ts)
    else
      var next := Extend(left, ts);
      if next.Failed? then next else Climb(next.expr, next.rest, min)
  }

  /** One operator and what follows it. */
  function Extend(left: Expr, ts: seq<Token>): (r: Parsed)
    requires ts != [] && Binding(ts[0]).Some?
    ensures r.Done? ==> |r.rest| < |ts|
    decreases |ts|, 0
  {
    if ts[0] == Question then
      var yes := Parse(ts[1..], 0);
      if yes.Failed? then yes
      else if yes.rest == [] || yes.rest[0] != Colon then Failed(MissingColon)
      else
        var no := Parse(yes.rest[1..], 10);
        if no.Failed? then no else Done(Select(left, yes.expr, no.expr), no.rest)
    else
      var right := Parse(ts[1..], Precedence(ts[0].op) + 1);
      if right.Failed? then right else Done(Binary(ts[0].op, left, right.expr), right.rest)
  }

  /** The whole input must be one expression. */
  function ParseAll(ts: seq<Token>): Parsed {
    var r := Parse(ts, 0);
    if r.Done? && r.rest != [] then Failed(Unconsumed(r.rest[0])) else r
  }

  // ---------- the parser as written: one shared index ----------

  class Parser {
    const tokens: seq<Token>
    var index: nat

    constructor (ts: seq<Token>)
      ensures tokens == ts && index == 0
    {
      tokens, index := ts, 0;
    }

    ghost function Left(): seq<Token>
      requires index <= |tokens|
      reads this
    {
      tokens[index..]
    }

    ghost predicate Returns(expected: Parsed, r: Result<Expr>)
      reads this
    {
      match expected
      case Done(e, rest) => r == Ok(e) && index <= |tokens| && Left() == rest
      case Failed(error) => r == Error(error)
    }

    method ParseFrom(min: nat) returns (r: Result<Expr>)
      requires index <= |tokens|
      modifies `index
      ensures Returns(Parse(old(Left()), min), r)
      decreases |tokens| - index, 2
    {
      ghost var start := Left();
      r := ParsePrimary();
      if r.Error? {
        return;
      }
      var left := r.value;
      while index < |tokens| && Binding(tokens[index]).Some? && Binding(tokens[index]).value >= min
        invariant |tokens| - |start| < index <= |tokens|
        invariant Parse(start, min) == Climb(left, Left(), min)
        decreases |tokens| - index
      {
        r := ParseOperator(left);
        if r.Error? {
          return;
        }
        left := r.value;
      }
      r := Ok(left);
    }

    /** The body of the loop: takes an operator and its right side. */
    method ParseOperator(left: Expr) returns (r: Result<Expr>)
      requires index < |tokens| && Binding(tokens[index]).Some?
      modifies `index
      ensures Returns(Extend(left, old(Left())), r)
      decreases |tokens| - index, 0
    {
      var op := tokens[index];
      index := index + 1;
      if op == Question {
        r := ParseFrom(0);
        if r.Error? {
          return;
        }
        var yes := r.value;
        if index >= |tokens| || tokens[index] != Colon {
          return Error(MissingColon);
        }
        index := index + 1;
        r := ParseFrom(10);
        if r.Ok? {
          r := Ok(Select(left, yes, r.value));
        }
      } else {
        r := ParseFrom(Precedence(op.op) + 1);
        if r.Ok? {
          r := Ok(Binary(op.op, left, r.value));
        }
      }
    }

    method ParsePrimary() returns (r: Result<Expr>)
      requires index <= |tokens|
      modifies `index
      ensures Returns(Primary(old(Left())), r)
      decreases |tokens| - index, 0
    {
      if index >= |tokens| {
        return Error(UnexpectedEnd);
      }
      var token := tokens[index];
      index := index + 1;
      match token
      case Open =>
        r := ParseFrom(0);
        if r.Ok? {
          if index >= |tokens| || tokens[index] != Shut {
            return Error(MissingParenthesis);
          }
          index := index + 1;
        }
      case Symbol(Sub) =>
        r := ParseFrom(80);
        if r.Ok? {
          r := Ok(Neg(r.value));
        }
      case Word(text) => r := Ok(Atom(text));
      case _ => r := Error(UnexpectedToken(token));
    }
  }

  datatype Result<T> = Ok(value: T) | Error(error: ParseError)

  method ParseExpression(ts: seq<Token>) returns (r: Result<Expr>)
    ensures match ParseAll(ts) { case Done(e, _) => r == Ok(e) case Failed(error) => r == Error(error) }
  {
    var parser := new Parser(ts);
    r := parser.ParseFrom(0);
    if r.Ok? && parser.index != |ts| {
      r := Error(Unconsumed(ts[parser.index]));
    }
  }

  // ---------- what printing and parsing keep ----------

  /** The precedence that decides whether an operand is printed bare. */
  function Level(e: Expr): nat {
    match e
    case Select(_, _, _) => 10
    case Binary(op, _, _) => Precedence(op)
    case _ => 100
  }

  predicate Bare(e: Expr, parent: nat) {
    e.Select? || e.Binary? ==> Level(e) >= parent
  }

  /** No right operand of an associating operator has that operator's precedence, and no condition
      of a ternary is itself a ternary. */
  predicate Grouped(e: Expr) {
    match e
    case Atom(_) => true
    case Neg(arg) => Grouped(arg)
    case Select(c, a, b) => Grouped(c) && Grouped(a) && Grouped(b) && !c.Select?
    case Binary(op, l, r) => Grouped(l) && Grouped(r) && (RightContext(op) == Precedence(op) ==>
      Level(r) != Precedence(op))
  }

  /** A token after an operand of this level that does not bind tighter than it. */
  predicate Ends(e: Expr, parent: nat, rest: seq<Token>) {
    Bare(e, parent) ==>
      match e
      case Select(_, _, _) => !Continues(rest, 0)
      case Binary(op, _, _) => !Continues(rest, Precedence(op) + 1)
      case _ => true
  }

  lemma {:induction false} ParsesBack(e: Expr, parent: nat, min: nat, rest: seq<Token>)
    requires Grouped(e) && Ends(e, parent, rest) && (Bare(e, parent) ==> min <= Level(e))
    ensures Parse(Render(e, parent) + rest, min) == Climb(e, rest, min)
    decreases e, 1, if Bare(e, parent) then 0 else 1
  {
    var ts := Render(e, parent) + rest;
    if !Bare(e, parent) {
      var inside := Render(e, 0);
      assert ts[1..] == inside + ([Shut] + rest);
      ParsesBack(e, 0, 0, [Shut] + rest);
    } else {
      match e
      case Atom(_) =>
      case Neg(arg) =>
        assert ts[1..] == Render(arg, 90) + rest;
        ParsesBack(arg, 90, 80, rest);
      case Select(c, a, b) => SelectParsesBack(c, a, b, parent, min, rest);
      case Binary(op, l, r) => BinaryParsesBack(op, l, r, parent, min, rest);
    }
  }

  lemma ClimbStep(left: Expr, ts: seq<Token>, min: nat, e: Expr, rest: seq<Token>)
    requires Continues(ts, min) && Extend(left, ts) == Done(e, rest)
    ensures Climb(left, ts, min) == Climb(e, rest, min)
  {
    hide Extend, Parse, Primary;
  }

  lemma {:induction false} BinaryParsesBack(op: Operator, l: Expr, r: Expr, parent: nat, min: nat, rest: seq<Token>)
    requires Grouped(Binary(op, l, r)) && parent <= Precedence(op) && min <= Precedence(op)
        && !Continues(rest, Precedence(op) + 1)
    ensures Parse(Render(Binary(op, l, r), parent) + rest, min) == Climb(Binary(op, l, r), rest, min)
    decreases Binary(op, l, r), 0, 1
  {
    var right := Render(r, RightContext(op)) + rest;
    var ts := [Symbol(op)] + right;
    assert Render(Binary(op, l, r), parent) + rest == Render(l, Precedence(op)) + ts;
    hide Parse, Climb, Extend, Primary, Render;
    ParsesBack(l, Precedence(op), min, ts);
    RightParsesBack(op, l, r, rest);
    ClimbStep(l, ts, min, Binary(op, l, r), rest);
  }

  lemma {:induction false} RightParsesBack(op: Operator, l: Expr, r: Expr, rest: seq<Token>)
    requires Grouped(Binary(op, l, r)) && !Continues(rest, Precedence(op) + 1)
    ensures Extend(l, [Symbol(op)] + (Render(r, RightContext(op)) + rest)) == Done(Binary(op, l, r), rest)
    decreases Binary(op, l, r), 0, 0
  {
    var right := Render(r, RightContext(op)) + rest;
    assert ([Symbol(op)] + right)[1..] == right;
    ParsesBack(r, RightContext(op), Precedence(op) + 1, rest);
  }

  lemma {:induction false} SelectParsesBack(c: Expr, a: Expr, b: Expr, parent: nat, min: nat, rest: seq<Token>)
    requires Grouped(Select(c, a, b)) && parent <= 10 && min <= 10 && !Continues(rest, 0)
    ensures Parse(Render(Select(c, a, b), parent) + rest, min) == Climb(Select(c, a, b), rest, min)
    decreases Select(c, a, b), 0, 1
  {
    var ts := [Question] + (Render(a, 0) + ([Colon] + (Render(b, 0) + rest)));
    assert Render(Select(c, a, b), parent) + rest == Render(c, 0) + ts;
    hide Parse, Climb, Extend, Primary, Render;
    ParsesBack(c, 0, min, ts);
    ExtendsBack(c, a, b, rest);
    ClimbStep(c, ts, min, Select(c, a, b), rest);
  }

  lemma {:induction false} ExtendsBack(c: Expr, a: Expr, b: Expr, rest: seq<Token>)
    requires Grouped(a) && Grouped(b) && !Continues(rest, 0)
    ensures Extend(c, [Question] + (Render(a, 0) + ([Colon] + (Render(b, 0) + rest)))) == Done(Select(c, a, b), rest)
    decreases Select(c, a, b), 0, 0
  {
    var third := Render(b, 0) + rest;
    var second := Render(a, 0) + ([Colon] + third);
    assert ([Question] + second)[1..] == second;
    ParsesBack(a, 0, 0, [Colon] + third);
    assert ([Colon] + third)[1..] == third;
    ParsesBack(b, 0, 10, rest);
  }

  /** Every grouped tree is read back from what is printed for it. */
  lemma RoundTrip(e: Expr)
    requires Grouped(e)
    ensures ParseAll(Render(e, 0)) == Done(e, [])
  {
    ParsesBack(e, 0, 0, []);
    assert Render(e, 0) + [] == Render(e, 0);
  }

  // ---------- what the other trees become ----------

  /** `l op r`, with `r` taken apart to the left where the printer drops its parentheses. */
  function Graft(op: Operator, l: Expr, r: Expr): Expr {
    if RightContext(op) == Precedence(op) && r.Binary? && Precedence(r.op) == Precedence(op)
    then Binary(r.op, Graft(op, l, r.left), r.right)
    else Binary(op, l, r)
  }

  function GraftCondition(c: Expr, a: Expr, b: Expr): Expr {
    if c.Select? then Select(c.condition, c.yes, GraftCondition(c.no, a, b)) else Select(c, a, b)
  }

  /** The grouping that reading the printed text gives. */
  function Regrouped(e: Expr): Expr {
    match e
    case Atom(_) => e
    case Neg(arg) => Neg(Regrouped(arg))
    case Select(c, a, b) => GraftCondition(Regrouped(c), Regrouped(a), Regrouped(b))
    case Binary(op, l, r) => Graft(op, Regrouped(l), Regrouped(r))
  }

  lemma {:induction false} GraftPrints(op: Operator, l: Expr, r: Expr, parent: nat)
    ensures Render(Graft(op, l, r), parent) == Render(Binary(op, l, r), parent)
    ensures Level(Graft(op, l, r)) == Precedence(op)
    decreases r
  {
    var p := Precedence(op);
    if RightContext(op) == p && r.Binary? && Precedence(r.op) == p {
      GraftPrints(op, l, r.left, p);
      var tail := [Symbol(r.op)] + Render(r.right, RightContext(r.op));
      assert Render(l, p) + [Symbol(op)] + Render(r.left, p) + tail ==
          Render(l, p) + [Symbol(op)] + (Render(r.left, p) + tail);
      assert Render(r, p) == Render(r.left, p) + tail;
      assert Render(Binary(op, l, r.left), p) + tail == Render(l, p) + [Symbol(op)] + Render(r, p);
      assert Render(Graft(op, l, r.left), p) + [Symbol(r.op)] + Render(r.right, RightContext(r.op)) ==
          Render(Graft(op, l, r.left), p) + tail;
    }
  }

  lemma {:induction false} GraftConditionPrints(c: Expr, a: Expr, b: Expr, parent: nat)
    ensures Render(GraftCondition(c, a, b), parent) == Render(Select(c, a, b), parent)
    decreases c
  {
    if c.Select? {
      GraftConditionPrints(c.no, a, b, 0);
      var head := Render(c.condition, 0) + [Question] + Render(c.yes, 0) + [Colon];
      var tail := [Question] + Render(a, 0) + [Colon] + Render(b, 0);
      assert Render(c, 0) == head + Render(c.no, 0);
      assert Render(Select(c.no, a, b), 0) == Render(c.no, 0) + tail;
      assert head + (Render(c.no, 0) + tail) == Render(c, 0) + [Question] + Render(a, 0) + [Colon] + Render(b, 0);
    }
  }

  /** Regrouping does not show in print. */
  lemma {:induction false} RegroupedPrints(e: Expr, parent: nat)
    ensures Render(Regrouped(e), parent) == Render(e, parent) && Level(Regrouped(e)) == Level(e)
    decreases e
  {
    match e
    case Atom(_) =>
    case Neg(arg) => RegroupedPrints(arg, 90);
    case Select(c, a, b) =>
      RegroupedPrints(c, 0);
      RegroupedPrints(a, 0);
      RegroupedPrints(b, 0);
      GraftConditionPrints(Regrouped(c), Regrouped(a), Regrouped(b), parent);
    case Binary(op, l, r) =>
      RegroupedPrints(l, Precedence(op));
      RegroupedPrints(r, RightContext(op));
      GraftPrints(op, Regrouped(l), Regrouped(r), parent);
  }

  lemma {:induction false} GraftIsGrouped(op: Operator, l: Expr, r: Expr)
    requires Grouped(l) && Grouped(r)
    ensures Grouped(Graft(op, l, r))
    decreases r
  {
    if RightContext(op) == Precedence(op) && r.Binary? && Precedence(r.op) == Precedence(op) {
      GraftIsGrouped(op, l, r.left);
    }
  }

  lemma {:induction false} GraftConditionIsGrouped(c: Expr, a: Expr, b: Expr)
    requires Grouped(c) && Grouped(a) && Grouped(b)
    ensures Grouped(GraftCondition(c, a, b))
    decreases c
  {
    if c.Select? {
      GraftConditionIsGrouped(c.no, a, b);
    }
  }

  /** Regrouping gives a grouped tree and leaves one that already is alone. */
  lemma {:induction false} RegroupedIsGrouped(e: Expr)
    ensures Grouped(Regrouped(e)) && (Grouped(e) ==> Regrouped(e) == e)
    decreases e
  {
    match e
    case Atom(_) =>
    case Neg(arg) => RegroupedIsGrouped(arg);
    case Select(c, a, b) =>
      RegroupedIsGrouped(c);
      RegroupedIsGrouped(a);
      RegroupedIsGrouped(b);
      GraftConditionIsGrouped(Regrouped(c), Regrouped(a), Regrouped(b));
    case Binary(op, l, r) =>
      RegroupedIsGrouped(l);
      RegroupedIsGrouped(r);
      GraftIsGrouped(op, Regrouped(l), Regrouped(r));
  }

  /** Reading back what was printed always succeeds and gives the regrouped tree, which is the tree
      printed exactly when that was grouped. */
  lemma ParseAfterRender(e: Expr)
    ensures ParseAll(Render(e, 0)) == Done(Regrouped(e), [])
    ensures ParseAll(Render(e, 0)) == Done(e, []) <==> Grouped(e)
  {
    RegroupedPrints(e, 0);
    RegroupedIsGrouped(e);
    RoundTrip(Regrouped(e));
  }

  // ---------- the value of an expression ----------

  /** Exact arithmetic; no value when a division by zero is evaluated. */
  function Value(e: Expr, env: string -> real): Option<real> {
    match e
    case Atom(value) => Some(env(value))
    case Neg(arg) => (match Value(arg, env) case None => None case Some(x) => Some(-x))
    case Select(c, a, b) =>
      (match Value(c, env) case None => None case Some(x) => if x != 0.0 then Value(a, env) else Value(b, env))
    case Binary(op, l, r) => Apply(op, Value(l, env), Value(r, env))
  }

  function Times(x: real, y: real): real {
    x * y
  }

  function Quotient(x: real, y: real): real
    requires y != 0.0
  {
    x / y
  }

  function Apply(op: Operator, l: Option<real>, r: Option<real>): Option<real> {
    if l.None? || r.None? then None
    else
      var (x, y) := (l.value, r.value);
      match op
      case Add => Some(x + y)
      case Sub => Some(x - y)
      case Mul => Some(Times(x, y))
      case Div => if y == 0.0 then None else Some(Quotient(x, y))
      case Lt => Some(if x < y then 1.0 else 0.0)
      case Gt => Some(if x > y then 1.0 else 0.0)
      case Le => Some(if x <= y then 1.0 else 0.0)
      case Ge => Some(if x >= y then 1.0 else 0.0)
  }

  /** Only sums and products are nested to the right. */
  predicate Associative(e: Expr) {
    match e
    case Atom(_) => true
    case Neg(arg) => Associative(arg)
    case Select(c, a, b) => Associative(c) && Associative(a) && Associative(b) && !c.Select?
    case Binary(op, l, r) => Associative(l) && Associative(r) && (Precedence(op) == 40 ==> Level(r) != 40)
  }

  lemma TimesAssociates(x: real, y: real, z: real)
    ensures Times(x, Times(y, z)) == Times(Times(x, y), z)
    ensures z != 0.0 ==> Times(x, Quotient(y, z)) == Quotient(Times(x, y), z)
  {
    if z != 0.0 {
      var q := y / z;
      assert q * z == y;
      assert (x * q) * z == x * y;
    }
  }

  lemma Reassociate(op: Operator, inner: Operator, x: Option<real>, y: Option<real>, z: Option<real>)
    requires op.Add? || op.Mul?
    requires Precedence(op) == Precedence(inner)
    ensures Apply(op, x, Apply(inner, y, z)) == Apply(inner, Apply(op, x, y), z)
  {
    hide Times, Quotient;
    if x.Some? && y.Some? && z.Some? {
      TimesAssociates(x.value, y.value, z.value);
    }
  }

  lemma {:induction false} GraftKeepsValue(op: Operator, l: Expr, r: Expr, env: string -> real)
    requires Precedence(op) == 40 ==> Level(r) != 40
    ensures Value(Graft(op, l, r), env) == Apply(op, Value(l, env), Value(r, env))
    decreases r
  {
    if RightContext(op) == Precedence(op) && r.Binary? && Precedence(r.op) == Precedence(op) {
      GraftKeepsValue(op, l, r.left, env);
      Reassociate(op, r.op, Value(l, env), Value(r.left, env), Value(r.right, env));
    }
  }

  /** When only sums and products are nested to the right, what is read back has the value of what
      was printed. */
  lemma {:induction false} RegroupedKeepsValue(e: Expr, env: string -> real)
    requires Associative(e)
    ensures Value(Regrouped(e), env) == Value(e, env)
    decreases e
  {
    match e
    case Atom(_) =>
    case Neg(arg) => RegroupedKeepsValue(arg, env);
    case Select(c, a, b) =>
      RegroupedKeepsValue(c, env);
      RegroupedKeepsValue(a, env);
      RegroupedKeepsValue(b, env);
      RegroupedPrints(c, 0);
    case Binary(op, l, r) =>
      RegroupedKeepsValue(l, env);
      RegroupedKeepsValue(r, env);
      RegroupedPrints(r, 0);
      GraftKeepsValue(op, Regrouped(l), Regrouped(r), env);
  }

  function Digit(s: string): real {
    if s == "1" then 1.0 else if s == "5" then 5.0 else 0.0
  }

  /** `1 < (0 < 5)` is printed without its parentheses and read back as `(1 < 0) < 5`. */
  lemma NestedComparisonChangesValue()
    ensures exists e: Expr ::
        e.Binary? && !Associative(e) && ParseAll(Render(e, 0)).Done?
        && Value(ParseAll(Render(e, 0)).expr, Digit) != Value(e, Digit)
  {
    var e := Binary(Lt, Atom("1"), Binary(Lt, Atom("0"), Atom("5")));
    ParseAfterRender(e);
    assert Regrouped(e) == Binary(Lt, Binary(Lt, Atom("1"), Atom("0")), Atom("5"));
    assert Value(e, Digit) == Some(0.0) && Value(Regrouped(e), Digit) == Some(1.0);
  }

  /** `(1 ? 0 : 1) ? 1 : 5` is printed without its parentheses and read back as
      `1 ? 0 : (1 ? 1 : 5)`. */
  lemma NestedConditionChangesValue()
    ensures exists e: Expr ::
        e.Select? && !Associative(e) && ParseAll(Render(e, 0)).Done?
        && Value(ParseAll(Render(e, 0)).expr, Digit) != Value(e, Digit)
  {
    var e := Select(Select(Atom("1"), Atom("0"), Atom("1")), Atom("1"), Atom("5"));
    ParseAfterRender(e);
    assert Regrouped(e) == Select(Atom("1"), Atom("0"), Select(Atom("1"), Atom("1"), Atom("5")));
    assert Value(e, Digit) == Some(5.0) && Value(Regrouped(e), Digit) == Some(0.0);
  }
}
