/** The condition evaluator: the whitelist checker, the tree evaluator with its marker for
    missing values, and what they promise about every tree and every context. */
module Conditions {
  import opened Basics
  import opened Values

  datatype BoolKind = And | Or

  datatype UnaryKind = Not | Invert | UAdd | USub

  /** Python expression trees. `Other` is any construct not listed by name (calls, subscripts,
      arithmetic, list displays, lambdas, ...). */
  datatype Expr =
    | BoolOp(bop: BoolKind, values: seq<Expr>)
    | UnaryOp(uop: UnaryKind, operand: Expr)
    | Compare(left: Expr, ops: seq<CmpOp>, comparators: seq<Expr>)
    | Name(id: string)
    | Constant(constant: Value)
    | Attribute(base: Expr, attr: string)
    | Other(construct: string, children: seq<Expr>)

  type Context = map<string, Value>

  const ALLOWED_CONTEXT_VARS: set<string> := {"type", "confidence", "payload", "source", "created_at"}

  // ---------------------------------------------------------------- checker

  datatype Violation =
    | ForbiddenConstruct
    | ForbiddenVariable(id: string)
    | DunderAttribute(attr: string)

  predicate IsDunder(attr: string) {
    "__" <= attr
  }

  predicate AllowedOperator(op: CmpOp) {
    op != Is && op != IsNot
  }

  /** The first violation met by a walk of the tree, parents before children, left to right. */
  function Check(e: Expr): Option<Violation>
    decreases e, 1
  {
    match e
    case BoolOp(_, values) => CheckAll(values)
    case UnaryOp(op, operand) => if op.Not? then Check(operand) else Some(ForbiddenConstruct)
    case Compare(left, ops, comparators) =>
      var first := Check(left);
      if first.Some? then first
      else if exists i :: 0 <= i < |ops| && !AllowedOperator(ops[i]) then Some(ForbiddenConstruct)
      else CheckAll(comparators)
    case Name(id) => if id in ALLOWED_CONTEXT_VARS then None else Some(ForbiddenVariable(id))
    case Constant(_) => None
    case Attribute(base, attr) => if IsDunder(attr) then Some(DunderAttribute(attr)) else Check(base)
    case Other(_, _) => Some(ForbiddenConstruct)
  }

  function CheckAll(es: seq<Expr>): Option<Violation>
    decreases es, 0
  {
    if es == [] then None
    else
      var first := Check(es[0]);
      if first.Some? then first else CheckAll(es[1..])
  }

  /** `e` itself and everything below it. */
  ghost function Subtrees(e: Expr): set<Expr>
    decreases e, 2
  {
    {e} + Below(e)
  }

  ghost function Below(e: Expr): set<Expr>
    decreases e, 1
  {
    match e
    case BoolOp(_, values) => SubtreesOfAll(values)
    case UnaryOp(_, operand) => Subtrees(operand)
    case Compare(left, _, comparators) => Subtrees(left) + SubtreesOfAll(comparators)
    case Attribute(base, _) => Subtrees(base)
    case Other(_, children) => SubtreesOfAll(children)
    case _ => {}
  }

  ghost function SubtreesOfAll(es: seq<Expr>): set<Expr>
    decreases es, 0
  {
    if es == [] then {} else Subtrees(es[0]) + SubtreesOfAll(es[1..])
  }

  /** What the whitelist says of one tree node on its own. */
  ghost predicate Whitelisted(e: Expr) {
    match e
    case UnaryOp(op, _) => op.Not?
    case Compare(_, ops, _) => forall i :: 0 <= i < |ops| ==> AllowedOperator(ops[i])
    case Name(id) => id in ALLOWED_CONTEXT_VARS
    case Attribute(_, attr) => !IsDunder(attr)
    case Other(_, _) => false
    case _ => true
  }

  ghost predicate AllWhitelisted(es: set<Expr>) {
    forall e :: e in es ==> Whitelisted(e)
  }

  lemma WhitelistedUnion(a: set<Expr>, b: set<Expr>)
    ensures AllWhitelisted(a + b) <==> AllWhitelisted(a) && AllWhitelisted(b)
  {
    forall e | e in a ensures e in a + b {}
    forall e | e in b ensures e in a + b {}
  }

  /** The checker accepts a tree exactly when every node of it is whitelisted. */
  lemma {:induction false} CheckIsExact(e: Expr)
    ensures Check(e).None? <==> AllWhitelisted(Subtrees(e))
    decreases e, 1
  {
    WhitelistedUnion({e}, Below(e));
    assert AllWhitelisted({e}) <==> Whitelisted(e);
    match e {
      case BoolOp(_, values) => CheckAllIsExact(values);
      case UnaryOp(_, operand) => CheckIsExact(operand);
      case Compare(left, _, comparators) =>
        CheckIsExact(left);
        CheckAllIsExact(comparators);
        WhitelistedUnion(Subtrees(left), SubtreesOfAll(comparators));
      case Attribute(base, _) => CheckIsExact(base);
      case _ =>
    }
  }

  lemma {:induction false} CheckAllIsExact(es: seq<Expr>)
    ensures CheckAll(es).None? <==> AllWhitelisted(SubtreesOfAll(es))
    decreases es, 0
  {
    if es != [] {
      CheckIsExact(es[0]);
      CheckAllIsExact(es[1..]);
      WhitelistedUnion(Subtrees(es[0]), SubtreesOfAll(es[1..]));
    }
  }

  // ---------------------------------------------------------------- evaluator

  /** What evaluating a tree gives: an error, the missing marker, or a value. */
  datatype Outcome = Raised | Missing | Got(value: Value)

  predicate Coerced(o: Outcome) {
    o.Got? && Truthy(o.value)
  }

  /** A comparison with a missing side is false, and so is one that raises TypeError. */
  function CompareOutcomes(op: CmpOp, left: Outcome, right: Outcome): Outcome {
    if left.Raised? || right.Raised? then Raised
    else if left.Missing? || right.Missing? then Got(Bool(false))
    else if !AllowedOperator(op) then Raised
    else Got(Bool(Compared(op, left.value, right.value) == Some(true)))
  }

  function Looked(o: Outcome, attr: string): Outcome {
    if o.Raised? then Raised
    else if o.Got? && o.value.Dict? && attr in o.value.fields then Got(o.value.fields[attr])
    else Missing
  }

  function Eval(e: Expr, ctx: Context): Outcome
    decreases e, 1
  {
    match e
    case BoolOp(op, values) => EvalBool(op, values, ctx)
    case UnaryOp(op, operand) =>
      if !op.Not? then Raised
      else
        var o := Eval(operand, ctx);
        if o.Raised? then Raised else Got(Bool(!Coerced(o)))
    case Compare(left, ops, comparators) =>
      var o := Eval(left, ctx);
      if o.Raised? then Raised else EvalChain(o, ops, comparators, ctx)
    case Name(id) => if id in ctx then Got(ctx[id]) else Missing
    case Constant(v) => Got(v)
    case Attribute(base, attr) => Looked(Eval(base, ctx), attr)
    case Other(_, _) => Raised
  }

  /** Operands are evaluated left to right until one decides the result. */
  function EvalBool(op: BoolKind, es: seq<Expr>, ctx: Context): (r: Outcome)
    ensures r.Raised? || (r.Got? && r.value.Bool?)
    decreases es, 0
  {
    if es == [] then Got(Bool(op.And?))
    else
      var o := Eval(es[0], ctx);
      if o.Raised? then Raised
      else if Coerced(o) == op.Or? then Got(Bool(op.Or?))
      else EvalBool(op, es[1..], ctx)
  }

  /** A comparison chain: each comparator is compared with the operand before it. */
  function EvalChain(left: Outcome, ops: seq<CmpOp>, es: seq<Expr>, ctx: Context): (r: Outcome)
    ensures r.Raised? || (r.Got? && r.value.Bool?)
    decreases es, 0
  {
    if ops == [] || es == [] then Got(Bool(true))
    else
      var right := Eval(es[0], ctx);
      var r := CompareOutcomes(ops[0], left, right);
      if r == Got(Bool(true)) then EvalChain(right, ops[1..], es[1..], ctx) else r
  }

  /** The loop over the pairs of a comparison: `left` moves on to the operand just compared. */
  method EvalCompare(left: Expr, ops: seq<CmpOp>, comparators: seq<Expr>, ctx: Context) returns (r: Outcome)
    ensures r == Eval(Compare(left, ops, comparators), ctx)
  {
    var current := Eval(left, ctx);
    if current.Raised? { return Raised; }
    var i := 0;
    while i < |ops| && i < |comparators|
      invariant 0 <= i <= |ops| && i <= |comparators|
      invariant EvalChain(current, ops[i..], comparators[i..], ctx)
             == Eval(Compare(left, ops, comparators), ctx)
    {
      assert ops[i..][1..] == ops[i + 1..] && comparators[i..][1..] == comparators[i + 1..];
      var right := Eval(comparators[i], ctx);
      var step := CompareOutcomes(ops[i], current, right);
      if step != Got(Bool(true)) { return step; }
      current := right;
      i := i + 1;
    }
    return Got(Bool(true));
  }

  /** The loop over the operands of `and` or `or`. */
  method EvalOperands(op: BoolKind, values: seq<Expr>, ctx: Context) returns (r: Outcome)
    ensures r == Eval(BoolOp(op, values), ctx)
  {
    for i := 0 to |values|
      invariant EvalBool(op, values[i..], ctx) == Eval(BoolOp(op, values), ctx)
    {
      assert values[i..][1..] == values[i + 1..];
      var o := Eval(values[i], ctx);
      if o.Raised? { return Raised; }
      if Coerced(o) == op.Or? { return Got(Bool(op.Or?)); }
    }
    return Got(Bool(op.And?));
  }

  // ---------------------------------------------------------------- progress

  /** A tree the checker accepts never reaches an error branch, in any context. */
  lemma {:induction false} AcceptedNeverRaises(e: Expr, ctx: Context)
    requires Check(e).None?
    ensures !Eval(e, ctx).Raised?
    decreases e, 1
  {
    match e {
      case BoolOp(op, values) => AcceptedOperandsNeverRaise(op, values, ctx);
      case UnaryOp(_, operand) => AcceptedNeverRaises(operand, ctx);
      case Compare(left, ops, comparators) =>
        AcceptedNeverRaises(left, ctx);
        AcceptedChainNeverRaises(Eval(left, ctx), ops, comparators, ctx);
      case Attribute(base, _) => AcceptedNeverRaises(base, ctx);
      case _ =>
    }
  }

  lemma {:induction false} AcceptedOperandsNeverRaise(op: BoolKind, es: seq<Expr>, ctx: Context)
    requires CheckAll(es).None?
    ensures !EvalBool(op, es, ctx).Raised?
    decreases es, 0
  {
    if es != [] {
      AcceptedNeverRaises(es[0], ctx);
      AcceptedOperandsNeverRaise(op, es[1..], ctx);
    }
  }

  lemma {:induction false} AcceptedChainNeverRaises(left: Outcome, ops: seq<CmpOp>, es: seq<Expr>, ctx: Context)
    requires CheckAll(es).None? && !left.Raised?
    requires forall i :: 0 <= i < |ops| ==> AllowedOperator(ops[i])
    ensures !EvalChain(left, ops, es, ctx).Raised?
    decreases es, 0
  {
    if ops != [] && es != [] {
      AcceptedNeverRaises(es[0], ctx);
      AcceptedChainNeverRaises(Eval(es[0], ctx), ops[1..], es[1..], ctx);
    }
  }

  // ---------------------------------------------------------------- chained comparison

  /** The comparisons of neighbouring operands all hold. */
  ghost predicate NeighboursHold(operands: seq<Expr>, ops: seq<CmpOp>, ctx: Context)
    requires |operands| == |ops| + 1
  {
    forall i :: 0 <= i < |ops| ==> ComparisonHolds(operands[i], ops[i], operands[i + 1], ctx)
  }

  ghost predicate ComparisonHolds(left: Expr, op: CmpOp, right: Expr, ctx: Context) {
    Eval(Compare(left, [op], [right]), ctx) == Got(Bool(true))
  }

  lemma ComparisonHoldsWhen(left: Expr, op: CmpOp, right: Expr, ctx: Context)
    ensures ComparisonHolds(left, op, right, ctx) <==> CompareOutcomes(op, Eval(left, ctx), Eval(right, ctx)) == Got(Bool(true))
  {
    var l := Eval(left, ctx);
    assert EvalChain(l, [op], [right], ctx)
        == (var r := CompareOutcomes(op, l, Eval(right, ctx));
            if r == Got(Bool(true)) then EvalChain(Eval(right, ctx), [], [], ctx) else r);
  }

  lemma NeighboursHoldSplit(operands: seq<Expr>, ops: seq<CmpOp>, ctx: Context)
    requires |operands| == |ops| + 1 && |ops| > 0
    ensures NeighboursHold(operands, ops, ctx)
       <==> ComparisonHolds(operands[0], ops[0], operands[1], ctx) && NeighboursHold(operands[1..], ops[1..], ctx)
  {
    if ComparisonHolds(operands[0], ops[0], operands[1], ctx) && NeighboursHold(operands[1..], ops[1..], ctx) {
      forall i | 0 <= i < |ops| ensures ComparisonHolds(operands[i], ops[i], operands[i + 1], ctx) {
        if i > 0 {
          assert ComparisonHolds(operands[1..][i - 1], ops[1..][i - 1], operands[1..][i], ctx);
        }
      }
    }
    if NeighboursHold(operands, ops, ctx) {
      forall i | 0 <= i < |ops| - 1 ensures ComparisonHolds(operands[1..][i], ops[1..][i], operands[1..][i + 1], ctx) {
        assert ComparisonHolds(operands[i + 1], ops[i + 1], operands[i + 2], ctx);
      }
    }
  }

  /** A chain `a op1 b op2 c ...` is the conjunction of its adjacent comparisons
      (section 6.10 of the Python Language Reference). */
  lemma {:induction false} ChainIsConjunction(left: Expr, ops: seq<CmpOp>, comparators: seq<Expr>, ctx: Context)
    requires Check(Compare(left, ops, comparators)).None? && |ops| == |comparators|
    ensures Eval(Compare(left, ops, comparators), ctx) == Got(Bool(NeighboursHold([left] + comparators, ops, ctx)))
    decreases |ops|
  {
    var operands := [left] + comparators;
    AcceptedNeverRaises(left, ctx);
    if |ops| > 0 {
      AcceptedNeverRaises(comparators[0], ctx);
      ComparisonHoldsWhen(left, ops[0], comparators[0], ctx);
      ChainIsConjunction(comparators[0], ops[1..], comparators[1..], ctx);
      assert operands[1..] == [comparators[0]] + comparators[1..];
      NeighboursHoldSplit(operands, ops, ctx);
    }
  }

  // ---------------------------------------------------------------- relevance

  /** A name, or a name followed by attribute accesses. */
  predicate IsPathExpr(e: Expr) {
    e.Name? || (e.Attribute? && IsPathExpr(e.base))
  }

  /** The maximal name/attribute paths of a tree. */
  ghost function Paths(e: Expr): set<Expr>
    decreases e, 1
  {
    if IsPathExpr(e) then {e}
    else
      match e
      case BoolOp(_, values) => PathsOfAll(values)
      case UnaryOp(_, operand) => Paths(operand)
      case Compare(left, _, comparators) => Paths(left) + PathsOfAll(comparators)
      case Attribute(base, _) => Paths(base)
      case _ => {}
  }

  ghost function PathsOfAll(es: seq<Expr>): set<Expr>
    decreases es, 0
  {
    if es == [] then {} else Paths(es[0]) + PathsOfAll(es[1..])
  }

  ghost predicate Agree(c: Context, d: Context, paths: set<Expr>) {
    forall p :: p in paths ==> Eval(p, c) == Eval(p, d)
  }

  /** A condition reads nothing but its maximal paths. */
  lemma {:induction false} OnlyPathsMatter(e: Expr, c: Context, d: Context)
    requires Agree(c, d, Paths(e))
    ensures Eval(e, c) == Eval(e, d)
    decreases e, 1
  {
    if IsPathExpr(e) {
      assert e in Paths(e);
    } else {
      match e {
        case BoolOp(op, values) => OnlyPathsMatterInOperands(op, values, c, d);
        case UnaryOp(_, operand) => OnlyPathsMatter(operand, c, d);
        case Compare(left, ops, comparators) =>
          OnlyPathsMatter(left, c, d);
          OnlyPathsMatterInChain(Eval(left, c), ops, comparators, c, d);
        case Attribute(base, _) => OnlyPathsMatter(base, c, d);
        case _ =>
      }
    }
  }

  lemma {:induction false} OnlyPathsMatterInOperands(op: BoolKind, es: seq<Expr>, c: Context, d: Context)
    requires Agree(c, d, PathsOfAll(es))
    ensures EvalBool(op, es, c) == EvalBool(op, es, d)
    decreases es, 0
  {
    if es != [] {
      OnlyPathsMatter(es[0], c, d);
      OnlyPathsMatterInOperands(op, es[1..], c, d);
    }
  }

  lemma {:induction false} OnlyPathsMatterInChain(left: Outcome, ops: seq<CmpOp>, es: seq<Expr>, c: Context, d: Context)
    requires Agree(c, d, PathsOfAll(es))
    ensures EvalChain(left, ops, es, c) == EvalChain(left, ops, es, d)
    decreases es, 0
  {
    if ops != [] && es != [] {
      OnlyPathsMatter(es[0], c, d);
      OnlyPathsMatterInChain(Eval(es[0], c), ops[1..], es[1..], c, d);
    }
  }

  // ---------------------------------------------------------------- monotonicity

  /** `w` is `v` with keys added to its dictionaries, at any depth, also inside lists. */
  ghost predicate Extends(v: Value, w: Value)
    decreases v
  {
    match v
    case Dict(fields) =>
      w.Dict? && fields.Keys <= w.fields.Keys
      && forall k :: k in fields.Keys ==> Extends(fields[k], w.fields[k])
    case List(items) =>
      w.List? && |items| == |w.items| && forall i :: 0 <= i < |items| ==> Extends(items[i], w.items[i])
    case _ => v == w
  }

  /** No dictionary at any depth. */
  ghost predicate IsDictFree(v: Value)
    decreases v
  {
    match v
    case Dict(_) => false
    case List(items) => forall i :: 0 <= i < |items| ==> IsDictFree(items[i])
    case _ => true
  }

  lemma {:induction false} DictFreeValuesKeep(v: Value, w: Value)
    requires IsDictFree(v) && Extends(v, w)
    ensures v == w
    decreases v
  {
    if v.List? {
      forall i | 0 <= i < |v.items| ensures v.items[i] == w.items[i] { DictFreeValuesKeep(v.items[i], w.items[i]); }
      assert v.items == w.items;
    }
  }

  ghost predicate ContextExtends(c: Context, d: Context) {
    c.Keys <= d.Keys && forall k :: k in c.Keys ==> Extends(c[k], d[k])
  }

  /** A comparison operand that added keys cannot disturb: a constant, or a path that is missing
      or holds a value without dictionaries. */
  ghost predicate StableOperand(e: Expr, c: Context) {
    e.Constant? || (IsPathExpr(e) && (Eval(e, c).Got? ==> IsDictFree(Eval(e, c).value)))
  }

  /** No `not`, and every comparison has stable operands only. */
  ghost predicate Positive(e: Expr, c: Context)
    decreases e
  {
    match e
    case BoolOp(_, values) => forall i :: 0 <= i < |values| ==> Positive(values[i], c)
    case Compare(left, _, comparators) =>
      StableOperand(left, c) && forall i :: 0 <= i < |comparators| ==> StableOperand(comparators[i], c)
    case _ => e.Constant? || IsPathExpr(e)
  }

  ghost predicate Grows(o: Outcome, p: Outcome) {
    match o
    case Raised => false
    case Missing => !p.Raised?
    case Got(v) => p.Got? && Extends(v, p.value)
  }

  lemma {:induction false} PathsGrow(e: Expr, c: Context, d: Context)
    requires IsPathExpr(e) && ContextExtends(c, d)
    ensures Grows(Eval(e, c), Eval(e, d))
  {
    if e.Attribute? {
      PathsGrow(e.base, c, d);
    }
  }

  lemma StableOperandsKeep(e: Expr, c: Context, d: Context)
    requires StableOperand(e, c) && ContextExtends(c, d)
    ensures Eval(e, c).Got? ==> Eval(e, d) == Eval(e, c)
    ensures !Eval(e, c).Raised? && !Eval(e, d).Raised?
  {
    if IsPathExpr(e) {
      PathsGrow(e, c, d);
      if Eval(e, c).Got? { DictFreeValuesKeep(Eval(e, c).value, Eval(e, d).value); }
    }
  }

  /** Adding keys anywhere in the context never turns a positive condition from true to false. */
  lemma {:induction false} AddingKeysIsMonotone(e: Expr, c: Context, d: Context)
    requires Positive(e, c) && ContextExtends(c, d) && Check(e).None?
    requires Coerced(Eval(e, c))
    ensures Coerced(Eval(e, d))
    decreases e, 1
  {
    match e {
      case BoolOp(op, values) => AddingKeysIsMonotoneInOperands(op, values, c, d);
      case Compare(left, ops, comparators) =>
        StableOperandsKeep(left, c, d);
        AddingKeysIsMonotoneInChain(Eval(left, c), Eval(left, d), ops, comparators, c, d);
      case _ =>
        if IsPathExpr(e) {
          PathsGrow(e, c, d);
        }
    }
  }

  lemma {:induction false} AddingKeysIsMonotoneInOperands(op: BoolKind, es: seq<Expr>, c: Context, d: Context)
    requires forall i :: 0 <= i < |es| ==> Positive(es[i], c)
    requires ContextExtends(c, d) && CheckAll(es).None?
    requires EvalBool(op, es, c) == Got(Bool(true))
    ensures EvalBool(op, es, d) == Got(Bool(true))
    decreases es, 0
  {
    if es != [] {
      AcceptedNeverRaises(es[0], d);
      AcceptedOperandsNeverRaise(op, es[1..], d);
      if Coerced(Eval(es[0], c)) {
        AddingKeysIsMonotone(es[0], c, d);
      }
      if EvalBool(op, es[1..], c) == Got(Bool(true)) {
        AddingKeysIsMonotoneInOperands(op, es[1..], c, d);
      }
    }
  }

  lemma {:induction false} AddingKeysIsMonotoneInChain(
      left: Outcome, left': Outcome, ops: seq<CmpOp>, es: seq<Expr>, c: Context, d: Context)
    requires forall i :: 0 <= i < |es| ==> StableOperand(es[i], c)
    requires ContextExtends(c, d)
    requires left.Got? ==> left' == left
    requires EvalChain(left, ops, es, c) == Got(Bool(true))
    ensures EvalChain(left', ops, es, d) == Got(Bool(true))
    decreases es, 0
  {
    if ops != [] && es != [] {
      StableOperandsKeep(es[0], c, d);
      AddingKeysIsMonotoneInChain(Eval(es[0], c), Eval(es[0], d), ops[1..], es[1..], c, d);
    }
  }

  /** Both restrictions are needed: `not payload.flag` and `"flag" not in payload` are true until
      the key is added. */
  lemma MonotonicityNeedsBothRestrictions()
    ensures exists e: Expr, c, d :: e.UnaryOp? && BreaksMonotonicity(e, c, d)
    ensures exists e: Expr, c, d :: e.Compare? && BreaksMonotonicity(e, c, d)
  {
    var inner := map["flag" := Bool(true)];
    NegationBreaksMonotonicity(map["payload" := Dict(map[])], map["payload" := Dict(inner)], inner);
    AbsenceBreaksMonotonicity(map["payload" := Dict(map[])], map["payload" := Dict(inner)], inner);
  }

  lemma NegationBreaksMonotonicity(c: Context, d: Context, inner: Record)
    requires c == map["payload" := Dict(map[])] && d == map["payload" := Dict(inner)]
    requires inner == map["flag" := Bool(true)]
    ensures BreaksMonotonicity(UnaryOp(Not, Attribute(Name("payload"), "flag")), c, d)
  {
    assert !IsDunder("flag") by { assert "flag"[0] == 'f'; }
    var payload := Name("payload");
    assert Eval(payload, c) == Got(Dict(map[])) && Eval(payload, d) == Got(Dict(inner));
    var flag := Attribute(payload, "flag");
    assert Eval(flag, c) == Missing && Eval(flag, d) == Got(Bool(true));
    assert Check(flag).None?;
  }

  lemma AbsenceBreaksMonotonicity(c: Context, d: Context, inner: Record)
    requires c == map["payload" := Dict(map[])] && d == map["payload" := Dict(inner)]
    requires inner == map["flag" := Bool(true)]
    ensures BreaksMonotonicity(Compare(Constant(Str("flag")), [NotIn], [Name("payload")]), c, d)
  {
    var payload := Name("payload");
    var flag := Got(Str("flag"));
    assert Eval(payload, c) == Got(Dict(map[])) && Eval(payload, d) == Got(Dict(inner));
    assert CheckAll([payload]).None?;
    assert EvalChain(flag, [NotIn], [payload], c) == CompareOutcomes(NotIn, flag, Eval(payload, c)) == Got(Bool(true));
    assert EvalChain(flag, [NotIn], [payload], d) == CompareOutcomes(NotIn, flag, Eval(payload, d)) == Got(Bool(false));
  }

  ghost predicate BreaksMonotonicity(e: Expr, c: Context, d: Context) {
    Check(e).None? && ContextExtends(c, d) && Coerced(Eval(e, c)) && !Coerced(Eval(e, d))
  }
}
