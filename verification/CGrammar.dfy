/** The grammar of the C expressions the parser accepts, layer by layer as the C standard gives it (ISO/IEC
    9899, sections 6.5.3 to 6.5.15) and without numbers, and that the parser reads exactly its sentences. */
module CGrammar {
  import opened CExpression

  datatype Layer = Conditional | Relational | Additive | Multiplicative | Unary | Operand

  /** The layer of the operands. */
  function Inner(k: Layer): Layer {
    match k
    case Conditional => Relational
    case Relational => Additive
    case Additive => Multiplicative
    case Multiplicative => Unary
    case Unary => Operand
    case Operand => Operand
  }

  /** The layer at which an operator stands. */
  function LayerOf(op: Operator): Layer {
    match op
    case Lt | Gt | Le | Ge => Relational
    case Add | Sub => Additive
    case Mul | Div => Multiplicative
  }

  function Height(k: Layer): nat {
    match k
    case Conditional => 5
    case Relational => 4
    case Additive => 3
    case Multiplicative => 2
    case Unary => 1
    case Operand => 0
  }

  /** `ts` is a sentence of this layer, and `e` its tree. Relational, additive and multiplicative
      expressions are lists nested to the left. */
  ghost predicate Derives(k: Layer, ts: seq<Token>, e: Expr)
    decreases |ts|, Height(k)
  {
    match k
    case Conditional =>
      || Derives(Relational, ts, e)
      || (e.Select? && (exists i: nat, j: nat :: Chooses(ts, e, i, j)))
    case Unary =>
      || Derives(Operand, ts, e)
      || (e.Neg? && ts != [] && ts[0] == Symbol(Sub) && Derives(Unary, ts[1..], e.arg))
    case Operand =>
      || (|ts| == 1 && ts[0].Word? && e == Atom(ts[0].text))
      || (|ts| >= 2 && ts[0] == Open && ts[|ts| - 1] == Shut && Derives(Conditional, ts[1..|ts| - 1], e))
    case _ =>
      || Derives(Inner(k), ts, e)
      || (e.Binary? && LayerOf(e.op) == k && (exists i: nat :: Joins(k, ts, e, i)))
  }

  /** A condition before the question mark at `i`, and an alternative on each side of the colon at `j`. */
  ghost predicate Chooses(ts: seq<Token>, e: Expr, i: nat, j: nat)
    requires e.Select?
    decreases |ts|, 0
  {
    && i < j < |ts| && ts[i] == Question && ts[j] == Colon
    && Derives(Relational, ts[..i], e.condition) && Derives(Conditional, ts[i + 1..j], e.yes)
    && Derives(Conditional, ts[j + 1..], e.no)
  }

  /** A list of the same layer before the operator at `i`, and an operand after it. */
  ghost predicate Joins(k: Layer, ts: seq<Token>, e: Expr, i: nat)
    requires e.Binary?
    decreases |ts|, 0
  {
    i < |ts| && ts[i] == Symbol(e.op) && Derives(k, ts[..i], e.left) && Derives(Inner(k), ts[i + 1..], e.right)
  }

  /** What is a sentence of one layer is one of all layers around it. */
  lemma {:induction false} DerivesUp(k: Layer, above: Layer, ts: seq<Token>, e: Expr)
    requires Derives(k, ts, e) && Height(k) <= Height(above)
    ensures Derives(above, ts, e)
    decreases Height(above)
  {
    if k != above {
      DerivesUp(k, Inner(above), ts, e);
    }
  }

  // ---------- every sentence is read ----------

  /** What follows does not belong to a sentence of this layer. */
  predicate Follows(k: Layer, rest: seq<Token>) {
    match k
    case Conditional => !Continues(rest, 0)
    case Relational => !Continues(rest, 41)
    case Additive => !Continues(rest, 51)
    case Multiplicative => !Continues(rest, 61)
    case _ => true
  }

  /** Starting to read with `min` takes whole sentences of this layer. */
  predicate Takes(k: Layer, min: nat) {
    match k
    case Conditional => min <= 10
    case Relational => min <= 40
    case Additive => min <= 50
    case Multiplicative => min <= 60
    case _ => true
  }

  lemma {:induction false} DerivedParses(k: Layer, ts: seq<Token>, e: Expr, min: nat, rest: seq<Token>)
    requires Derives(k, ts, e) && Takes(k, min) && Follows(k, rest)
    ensures Parse(ts + rest, min) == Climb(e, rest, min)
    decreases |ts|, Height(k), 1
  {
    if k != Operand && Derives(Inner(k), ts, e) {
      DerivedParses(Inner(k), ts, e, min, rest);
    } else {
      match k
      case Conditional => SelectParses(ts, e, min, rest);
      case Unary => NegParses(ts, e, min, rest);
      case Operand => OperandParses(ts, e, min, rest);
      case _ => BinaryParses(k, ts, e, min, rest);
    }
  }

  lemma {:induction false} NegParses(ts: seq<Token>, e: Expr, min: nat, rest: seq<Token>)
    requires e.Neg? && ts != [] && ts[0] == Symbol(Sub) && Derives(Unary, ts[1..], e.arg)
    ensures Parse(ts + rest, min) == Climb(e, rest, min)
    decreases |ts|, 1, 0
  {
    assert (ts + rest)[1..] == ts[1..] + rest;
    hide Derives;
    DerivedParses(Unary, ts[1..], e.arg, 80, rest);
    assert !Continues(rest, 80) && Climb(e.arg, rest, 80) == Done(e.arg, rest);
    hide Climb;
  }

  lemma {:induction false} OperandParses(ts: seq<Token>, e: Expr, min: nat, rest: seq<Token>)
    requires Derives(Operand, ts, e)
    ensures Parse(ts + rest, min) == Climb(e, rest, min)
    decreases |ts|, 0, 0
  {
    if |ts| == 1 && ts[0].Word? {
      assert (ts + rest)[1..] == rest;
    } else {
      var inside := ts[1..|ts| - 1];
      assert (ts + rest)[1..] == inside + ([Shut] + rest);
      DerivedParses(Conditional, inside, e, 0, [Shut] + rest);
      assert ([Shut] + rest)[1..] == rest;
    }
  }

  lemma {:induction false} BinaryParses(k: Layer, ts: seq<Token>, e: Expr, min: nat, rest: seq<Token>)
    requires k.Relational? || k.Additive? || k.Multiplicative?
    requires e.Binary? && LayerOf(e.op) == k && exists i: nat :: Joins(k, ts, e, i)
    requires Takes(k, min) && Follows(k, rest)
    ensures Parse(ts + rest, min) == Climb(e, rest, min)
    decreases |ts|, Height(k), 0
  {
    var i: nat :| Joins(k, ts, e, i);
    var after := ts[i + 1..] + rest;
    assert ts + rest == ts[..i] + ([Symbol(e.op)] + after);
    assert ([Symbol(e.op)] + after)[1..] == after;
    hide Parse, Primary, Derives;
    DerivedParses(k, ts[..i], e.left, min, [Symbol(e.op)] + after);
    DerivedParses(Inner(k), ts[i + 1..], e.right, Precedence(e.op) + 1, rest);
  }

  lemma {:induction false} SelectParses(ts: seq<Token>, e: Expr, min: nat, rest: seq<Token>)
    requires e.Select? && (exists i: nat, j: nat :: Chooses(ts, e, i, j)) && min <= 10 && !Continues(rest, 0)
    ensures Parse(ts + rest, min) == Climb(e, rest, min)
    decreases |ts|, 5, 0
  {
    var i: nat, j: nat :| Chooses(ts, e, i, j);
    var last := ts[j + 1..] + rest;
    var middle := ts[i + 1..j] + ([Colon] + last);
    assert ts + rest == ts[..i] + ([Question] + middle);
    assert ([Question] + middle)[1..] == middle && ([Colon] + last)[1..] == last;
    hide Parse, Primary, Derives;
    DerivedParses(Relational, ts[..i], e.condition, min, [Question] + middle);
    DerivedParses(Conditional, ts[i + 1..j], e.yes, 0, [Colon] + last);
    DerivedParses(Conditional, ts[j + 1..], e.no, 10, rest);
  }

  // ---------- only sentences are read ----------

  /** The layer whose sentences are read when reading starts with `min`. */
  function LayerFor(min: nat): Layer {
    if min <= 10 then Conditional
    else if min <= 40 then Relational
    else if min <= 50 then Additive
    else if min <= 60 then Multiplicative
    else Unary
  }

  /** All of `ts` but `rest` is a sentence of this layer with the tree `e`. */
  ghost predicate Reads(k: Layer, ts: seq<Token>, e: Expr, rest: seq<Token>) {
    var n := |ts| - |rest|;
    n >= 0 && ts[n..] == rest && Derives(k, ts[..n], e)
  }

  lemma {:induction false} ClimbStops(left: Expr, ts: seq<Token>, min: nat)
    requires Climb(left, ts, min).Done?
    ensures !Continues(Climb(left, ts, min).rest, min)
    decreases |ts|
  {
    hide Parse, Primary;
    if Continues(ts, min) {
      var next := Extend(left, ts);
      ClimbStops(next.expr, next.rest, min);
    }
  }

  lemma ParseStops(ts: seq<Token>, min: nat)
    requires Parse(ts, min).Done?
    ensures !Continues(Parse(ts, min).rest, min)
  {
    hide Primary, Climb;
    ClimbStops(Primary(ts).expr, Primary(ts).rest, min);
  }

  lemma {:induction false} ParseDerives(ts: seq<Token>, min: nat)
    requires Parse(ts, min).Done?
    ensures Reads(LayerFor(min), ts, Parse(ts, min).expr, Parse(ts, min).rest)
    decreases |ts|, 1, 0
  {
    var first := Primary(ts);
    PrimaryDerives(ts);
    hide Primary;
    ClimbDerives(ts, first.expr, first.rest, min, Unary);
  }

  lemma {:induction false} PrimaryDerives(ts: seq<Token>)
    requires Primary(ts).Done?
    ensures Reads(Unary, ts, Primary(ts).expr, Primary(ts).rest)
    decreases |ts|, 0, 0
  {
    var r := Primary(ts);
    var n := |ts| - |r.rest|;
    match ts[0]
    case Open =>
      var inner := Parse(ts[1..], 0);
      ParseDerives(ts[1..], 0);
      hide Parse;
      var m := |ts| - 1 - |inner.rest|;
      assert ts[..n][1..n - 1] == ts[1..][..m];
      assert inner.rest == ts[1..][m..] && ts[n - 1] == Shut;
      assert Derives(Operand, ts[..n], r.expr);
    case Symbol(op) =>
      ParseDerives(ts[1..], 80);
      hide Parse;
      assert ts[..n][1..] == ts[1..][..n - 1];
    case Word(_) =>
      assert Derives(Operand, ts[..1], r.expr);
    case _ =>
  }

  lemma {:induction false} ClimbDerives(all: seq<Token>, left: Expr, ts: seq<Token>, min: nat, k: Layer)
    requires Climb(left, ts, min).Done?
    requires Reads(k, all, left, ts) && Follows(k, ts) && Height(k) <= Height(LayerFor(min))
    ensures Reads(LayerFor(min), all, Climb(left, ts, min).expr, Climb(left, ts, min).rest)
    decreases |ts|, 1, 0
  {
    if Continues(ts, min) {
      var next := Extend(left, ts);
      var at := ExtendDerives(all, left, ts, k);
      assert Height(at) <= Height(LayerFor(min));
      hide Extend, Parse, Primary, Reads;
      ClimbDerives(all, next.expr, next.rest, min, at);
    } else {
      DerivesUp(k, LayerFor(min), all[..|all| - |ts|], left);
    }
  }

  /** One operator and its right side turn a sentence into a sentence of the operator's layer. */
  lemma {:induction false} ExtendDerives(all: seq<Token>, left: Expr, ts: seq<Token>, k: Layer) returns (at: Layer)
    requires ts != [] && Binding(ts[0]).Some? && Extend(left, ts).Done?
    requires Reads(k, all, left, ts) && Follows(k, ts)
    ensures Reads(at, all, Extend(left, ts).expr, Extend(left, ts).rest) && Follows(at, Extend(left, ts).rest)
    ensures at == if ts[0] == Question then Conditional else LayerOf(ts[0].op)
    decreases |ts|, 0, 1
  {
    hide Extend, Reads;
    if ts[0] == Question {
      at := Conditional;
      assert Height(k) <= Height(Relational);
      ReadsUp(k, Relational, all, left, ts);
      QuestionDerives(all, left, ts);
    } else {
      at := LayerOf(ts[0].op);
      ReadsUp(k, at, all, left, ts);
      OperatorDerives(all, left, ts);
    }
  }

  lemma ReadsUp(k: Layer, above: Layer, ts: seq<Token>, e: Expr, rest: seq<Token>)
    requires Reads(k, ts, e, rest) && Height(k) <= Height(above)
    ensures Reads(above, ts, e, rest)
  {
    DerivesUp(k, above, ts[..|ts| - |rest|], e);
  }

  lemma ExtendQuestion(left: Expr, ts: seq<Token>)
    requires ts != [] && ts[0] == Question && Extend(left, ts).Done?
    ensures var yes := Parse(ts[1..], 0);
            && yes.Done? && yes.rest != [] && yes.rest[0] == Colon
            && var no := Parse(yes.rest[1..], 10);
               no.Done? && Extend(left, ts) == Done(Select(left, yes.expr, no.expr), no.rest)
  {
    hide Parse, Primary, Climb;
  }

  lemma {:induction false} QuestionDerives(all: seq<Token>, left: Expr, ts: seq<Token>)
    requires ts != [] && ts[0] == Question && Extend(left, ts).Done? && Reads(Relational, all, left, ts)
    ensures Reads(Conditional, all, Extend(left, ts).expr, Extend(left, ts).rest)
    ensures !Continues(Extend(left, ts).rest, 0)
    decreases |ts|, 0, 0
  {
    hide Parse, Primary, Climb, Reads, Extend;
    ExtendQuestion(left, ts);
    var yes := Parse(ts[1..], 0);
    var no := Parse(yes.rest[1..], 10);
    ParseDerives(ts[1..], 0);
    ParseDerives(yes.rest[1..], 10);
    ParseStops(yes.rest[1..], 10);
    SelectReads(all, left, ts, yes.expr, yes.rest, no.expr, no.rest);
  }

  lemma {:induction false} OperatorDerives(all: seq<Token>, left: Expr, ts: seq<Token>)
    requires ts != [] && ts[0].Symbol? && Extend(left, ts).Done? && Reads(LayerOf(ts[0].op), all, left, ts)
    ensures Reads(LayerOf(ts[0].op), all, Extend(left, ts).expr, Extend(left, ts).rest)
    ensures Follows(LayerOf(ts[0].op), Extend(left, ts).rest)
    decreases |ts|, 0, 0
  {
    var op := ts[0].op;
    var right := Parse(ts[1..], Precedence(op) + 1);
    assert Extend(left, ts) == Done(Binary(op, left, right.expr), right.rest);
    hide Parse, Primary, Climb, Reads, Extend;
    ParseDerives(ts[1..], Precedence(op) + 1);
    ParseStops(ts[1..], Precedence(op) + 1);
    BinaryReads(all, left, ts, op, right.expr, right.rest);
  }

  lemma BinaryReads(all: seq<Token>, left: Expr, ts: seq<Token>, op: Operator, right: Expr, rest: seq<Token>)
    requires ts != [] && ts[0] == Symbol(op) && Reads(LayerOf(op), all, left, ts)
    requires Reads(Inner(LayerOf(op)), ts[1..], right, rest)
    ensures Reads(LayerOf(op), all, Binary(op, left, right), rest)
  {
    var i, n := |all| - |ts|, |all| - |rest|;
    var sentence := all[..n];
    assert sentence[..i] == all[..i] && all[i] == all[i..][0];
    assert sentence[i + 1..] == all[i..][1..][..|ts| - 1 - |rest|];
    assert all[n..] == all[i..][1..][|ts| - 1 - |rest|..];
    assert Joins(LayerOf(op), sentence, Binary(op, left, right), i);
  }

  lemma SelectReads(all: seq<Token>, left: Expr, ts: seq<Token>, yes: Expr, between: seq<Token>, no: Expr,
                    rest: seq<Token>)
    requires ts != [] && ts[0] == Question && Reads(Relational, all, left, ts)
    requires Reads(Conditional, ts[1..], yes, between) && between != [] && between[0] == Colon
    requires Reads(Conditional, between[1..], no, rest)
    ensures Reads(Conditional, all, Select(left, yes, no), rest)
  {
    var i, j, n := |all| - |ts|, |all| - |between|, |all| - |rest|;
    var sentence := all[..n];
    assert all[i..] == ts && all[i] == ts[0] && all[i + 1..] == ts[1..];
    assert all[j..] == all[i + 1..][j - i - 1..] == between && all[j] == between[0] && all[j + 1..] == between[1..];
    assert all[n..] == all[j + 1..][n - j - 1..] == rest;
    assert sentence[..i] == all[..i];
    assert sentence[i + 1..j] == all[i + 1..][..j - i - 1];
    assert sentence[j + 1..] == all[j + 1..][..n - j - 1];
    hide Derives;
    assert Chooses(sentence, Select(left, yes, no), i, j);
    ChosenDerives(sentence, Select(left, yes, no), i, j);
  }

  lemma ChosenDerives(ts: seq<Token>, e: Expr, i: nat, j: nat)
    requires e.Select? && Chooses(ts, e, i, j)
    ensures Derives(Conditional, ts, e)
  {
  }

  // ---------- what the parser and the printer are for ----------

  /** The parser succeeds exactly on the sentences of the grammar, and gives their trees. */
  lemma ParsesExactlySentences(ts: seq<Token>, e: Expr)
    ensures ParseAll(ts) == Done(e, []) <==> Derives(Conditional, ts, e)
  {
    hide Parse, Climb, Derives;
    if Derives(Conditional, ts, e) {
      DerivedParses(Conditional, ts, e, 0, []);
      assert ts + [] == ts && Climb(e, [], 0) == Done(e, []) by { NothingToClimb(e); }
    }
    if ParseAll(ts) == Done(e, []) {
      ParseDerives(ts, 0);
      assert ts[..|ts|] == ts;
    }
  }

  lemma NothingToClimb(e: Expr)
    ensures Climb(e, [], 0) == Done(e, [])
  {}

  /** No sentence has two trees. */
  lemma SentencesAreUnambiguous(ts: seq<Token>, e: Expr, f: Expr)
    requires Derives(Conditional, ts, e) && Derives(Conditional, ts, f)
    ensures e == f
  {
    hide Derives;
    ParsesExactlySentences(ts, e);
    ParsesExactlySentences(ts, f);
  }

  /** What is printed for a tree is a sentence; its tree is the regrouped one, which is the tree printed
      exactly when that was grouped. */
  lemma PrintsSentences(e: Expr)
    ensures Derives(Conditional, Render(e, 0), Regrouped(e))
    ensures Derives(Conditional, Render(e, 0), e) <==> Grouped(e)
  {
    hide Derives, Render, Regrouped, Grouped, ParseAll;
    ParseAfterRender(e);
    ParsesExactlySentences(Render(e, 0), Regrouped(e));
    ParsesExactlySentences(Render(e, 0), e);
  }
}
