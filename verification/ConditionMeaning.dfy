/** What conditions mean: each operator in terms of the values of its operands, and conditions in terms
    of the fields of the signal. */
module ConditionMeaning {
  import opened Basics
  import opened Values
  import opened Conditions
  import opened Decisions
  import CE = ConditionEvaluator

  // ---------------------------------------------------------------- boolean operators

  /** `and` holds exactly when every operand holds. */
  lemma {:induction false} AndMeansAll(es: seq<Expr>, ctx: Context)
    requires CheckAll(es).None?
    ensures Eval(BoolOp(And, es), ctx) == Got(Bool(forall i :: 0 <= i < |es| ==> Coerced(Eval(es[i], ctx))))
  {
    if es != [] {
      AcceptedNeverRaises(es[0], ctx);
      AndMeansAll(es[1..], ctx);
      assert Eval(BoolOp(And, es[1..]), ctx) == EvalBool(And, es[1..], ctx);
      assert forall i :: 0 < i < |es| ==> es[i] == es[1..][i - 1];
      assert forall i :: 0 <= i < |es| - 1 ==> es[1..][i] == es[i + 1];
    }
  }

  /** `or` holds exactly when some operand holds. */
  lemma {:induction false} OrMeansSome(es: seq<Expr>, ctx: Context)
    requires CheckAll(es).None?
    ensures Eval(BoolOp(Or, es), ctx) == Got(Bool(exists i :: 0 <= i < |es| && Coerced(Eval(es[i], ctx))))
  {
    if es != [] {
      AcceptedNeverRaises(es[0], ctx);
      OrMeansSome(es[1..], ctx);
      assert Eval(BoolOp(Or, es[1..]), ctx) == EvalBool(Or, es[1..], ctx);
      assert forall i :: 0 < i < |es| ==> es[i] == es[1..][i - 1];
      assert forall i :: 0 <= i < |es| - 1 ==> es[1..][i] == es[i + 1];
    }
  }

  /** `not` holds exactly when its operand does not, also when that is missing. */
  lemma NotMeansOpposite(e: Expr, ctx: Context)
    requires Check(e).None?
    ensures Check(UnaryOp(Not, e)).None?
    ensures Coerced(Eval(UnaryOp(Not, e), ctx)) <==> !Coerced(Eval(e, ctx))
  {
    AcceptedNeverRaises(e, ctx);
  }

  /** The values that do not hold: the missing marker, and six more. */
  lemma HoldsExactlyUnlessEmpty(o: Outcome)
    requires !o.Raised?
    ensures Coerced(o) <==>
              o !in {Missing, Got(Null), Got(Bool(false)), Got(Num(0.0)), Got(Str("")), Got(List([])), Got(Dict(map[]))}
  {
    if o.Got? && o.value.Dict? && o.value.fields.Keys == {} { assert o.value.fields == map[]; }
  }

  // ---------------------------------------------------------------- comparisons

  /** `left op right`. */
  function Comparing(left: Expr, op: CmpOp, right: Expr, ctx: Context): Outcome {
    Eval(Compare(left, [op], [right]), ctx)
  }

  lemma ComparingOutcomes(left: Expr, op: CmpOp, right: Expr, ctx: Context)
    requires Eval(left, ctx).Got? && Eval(right, ctx).Got? && AllowedOperator(op)
    ensures Comparing(left, op, right, ctx)
         == Got(Bool(Compared(op, Eval(left, ctx).value, Eval(right, ctx).value) == Some(true)))
  {
    var l, r := Eval(left, ctx), Eval(right, ctx);
    var one := CompareOutcomes(op, l, r);
    assert EvalChain(l, [op], [right], ctx) == (if one == Got(Bool(true)) then EvalChain(r, [], [], ctx) else one);
  }

  /** A number, or a truth value in the place of 1 or 0. */
  ghost predicate CountsAs(v: Value, x: real) {
    v == Num(x) || (v == Bool(true) && x == 1.0) || (v == Bool(false) && x == 0.0)
  }

  lemma NumberValuesCompare(a: Value, b: Value, x: real, y: real)
    requires CountsAs(a, x) && CountsAs(b, y)
    ensures Compared(Lt, a, b) == Some(x < y) && Compared(LtE, a, b) == Some(x <= y)
    ensures Compared(Gt, a, b) == Some(x > y) && Compared(GtE, a, b) == Some(x >= y)
    ensures Compared(Eq, a, b) == Some(x == y) && Compared(NotEq, a, b) == Some(x != y)
  {
    assert IsNumeric(a) && IsNumeric(b) && NumberOf(a) == x && NumberOf(b) == y;
  }

  /** Numbers are compared as real numbers. */
  lemma NumbersCompare(l: Expr, r: Expr, ctx: Context, x: real, y: real)
    requires Eval(l, ctx).Got? && CountsAs(Eval(l, ctx).value, x) && Eval(r, ctx).Got? && CountsAs(Eval(r, ctx).value, y)
    ensures Comparing(l, Lt, r, ctx) == Got(Bool(x < y)) && Comparing(l, LtE, r, ctx) == Got(Bool(x <= y))
    ensures Comparing(l, Gt, r, ctx) == Got(Bool(x > y)) && Comparing(l, GtE, r, ctx) == Got(Bool(x >= y))
    ensures Comparing(l, Eq, r, ctx) == Got(Bool(x == y)) && Comparing(l, NotEq, r, ctx) == Got(Bool(x != y))
  {
    NumberValuesCompare(Eval(l, ctx).value, Eval(r, ctx).value, x, y);
    AllComparingOutcomes(l, r, ctx);
  }

  lemma AllComparingOutcomes(l: Expr, r: Expr, ctx: Context)
    requires Eval(l, ctx).Got? && Eval(r, ctx).Got?
    ensures forall op :: AllowedOperator(op) ==>
              Comparing(l, op, r, ctx) == Got(Bool(Compared(op, Eval(l, ctx).value, Eval(r, ctx).value) == Some(true)))
  {
    forall op | AllowedOperator(op)
      ensures Comparing(l, op, r, ctx) == Got(Bool(Compared(op, Eval(l, ctx).value, Eval(r, ctx).value) == Some(true)))
    {
      ComparingOutcomes(l, op, r, ctx);
    }
  }

  /** Times are compared as points in time. */
  lemma TimesCompare(l: Expr, r: Expr, ctx: Context, x: int, y: int)
    requires Eval(l, ctx) == Got(Time(x)) && Eval(r, ctx) == Got(Time(y))
    ensures Comparing(l, Lt, r, ctx) == Got(Bool(x < y)) && Comparing(l, LtE, r, ctx) == Got(Bool(x <= y))
    ensures Comparing(l, Gt, r, ctx) == Got(Bool(x > y)) && Comparing(l, GtE, r, ctx) == Got(Bool(x >= y))
    ensures Comparing(l, Eq, r, ctx) == Got(Bool(x == y)) && Comparing(l, NotEq, r, ctx) == Got(Bool(x != y))
  {
    AllComparingOutcomes(l, r, ctx);
  }

  /** After `k` common characters, `s` ends or has the smaller one. */
  ghost predicate DiffersAt(s: string, t: string, k: nat) {
    k <= |s| && k < |t| && s[..k] == t[..k] && (k == |s| || s[k] < t[k])
  }

  ghost predicate ComesBefore(s: string, t: string) {
    exists k: nat :: DiffersAt(s, t, k)
  }

  lemma ComesBeforeTail(s: string, t: string)
    requires s != [] && t != [] && s[0] == t[0]
    ensures ComesBefore(s, t) <==> ComesBefore(s[1..], t[1..])
  {
    if ComesBefore(s, t) {
      var k: nat :| DiffersAt(s, t, k);
      assert s[1..][..k - 1] == s[..k][1..] && t[1..][..k - 1] == t[..k][1..];
      assert DiffersAt(s[1..], t[1..], k - 1);
    }
    if ComesBefore(s[1..], t[1..]) {
      var k: nat :| DiffersAt(s[1..], t[1..], k);
      assert s[..k + 1] == [s[0]] + s[1..][..k] && t[..k + 1] == [t[0]] + t[1..][..k];
      assert DiffersAt(s, t, k + 1);
    }
  }

  lemma CommonHead(s: string, t: string, k: nat)
    ensures DiffersAt(s, t, k) && k > 0 ==> s != [] && t != [] && s[0] == t[0]
  {
    if DiffersAt(s, t, k) && k > 0 { assert s[..k][0] == t[..k][0]; }
  }

  lemma ComesBeforeHead(s: string, t: string)
    requires s == [] || t == [] || s[0] != t[0]
    ensures ComesBefore(s, t) <==> t != [] && (s == [] || s[0] < t[0])
  {
    if ComesBefore(s, t) {
      var k: nat :| DiffersAt(s, t, k);
      CommonHead(s, t, k);
    } else if t != [] && (s == [] || s[0] < t[0]) {
      assert DiffersAt(s, t, 0);
    }
  }

  lemma {:induction false} StringsAreOrdered(s: string, t: string)
    ensures OrderedStrings(Lt, s, t) <==> ComesBefore(s, t)
    ensures OrderedStrings(Gt, s, t) <==> ComesBefore(t, s)
    ensures OrderedStrings(LtE, s, t) <==> s == t || ComesBefore(s, t)
    ensures OrderedStrings(GtE, s, t) <==> s == t || ComesBefore(t, s)
  {
    if s != [] && t != [] && s[0] == t[0] {
      StringsAreOrdered(s[1..], t[1..]);
      ComesBeforeTail(s, t);
      ComesBeforeTail(t, s);
      assert s == [s[0]] + s[1..] && t == [t[0]] + t[1..];
    } else {
      ComesBeforeHead(s, t);
      ComesBeforeHead(t, s);
    }
  }

  /** Texts are compared by their first differing character, an initial part coming first. */
  lemma TextsCompare(l: Expr, r: Expr, ctx: Context, s: string, t: string)
    requires Eval(l, ctx) == Got(Str(s)) && Eval(r, ctx) == Got(Str(t))
    ensures Comparing(l, Lt, r, ctx) == Got(Bool(ComesBefore(s, t)))
    ensures Comparing(l, LtE, r, ctx) == Got(Bool(s == t || ComesBefore(s, t)))
    ensures Comparing(l, Gt, r, ctx) == Got(Bool(ComesBefore(t, s)))
    ensures Comparing(l, GtE, r, ctx) == Got(Bool(s == t || ComesBefore(t, s)))
    ensures Comparing(l, Eq, r, ctx) == Got(Bool(s == t)) && Comparing(l, NotEq, r, ctx) == Got(Bool(s != t))
  {
    AllComparingOutcomes(l, r, ctx);
    StringsAreOrdered(s, t);
  }

  /** The items before position `k` are equal, and one list ends there or the items there differ. */
  ghost predicate ListsDifferAt(s: seq<Value>, t: seq<Value>, k: nat) {
    && k <= |s| && k <= |t| && (forall i :: 0 <= i < k ==> PyEqual(s[i], t[i]))
    && (k < |s| && k < |t| ==> !PyEqual(s[k], t[k]))
  }

  lemma {:induction false} FirstDifferenceDecides(op: CmpOp, s: seq<Value>, t: seq<Value>, k: nat)
    requires ListsDifferAt(s, t, k)
    ensures OrderedLists(op, s, t)
         == if k < |s| && k < |t| then Ordered(op, s[k], t[k]) else Some(OrderedReals(op, |s| as real, |t| as real))
  {
    if k > 0 {
      FirstDifferenceDecides(op, s[1..], t[1..], k - 1);
    }
  }

  /** Lists are compared by their first differing items; if there are none, by length. Items that cannot be
      compared make the comparison false. */
  lemma ListsCompare(l: Expr, r: Expr, ctx: Context, s: seq<Value>, t: seq<Value>, k: nat)
    requires Eval(l, ctx) == Got(List(s)) && Eval(r, ctx) == Got(List(t)) && ListsDifferAt(s, t, k)
    ensures Comparing(l, Eq, r, ctx) == Got(Bool(|s| == k == |t|))
    ensures k < |s| && k < |t| ==>
              forall op :: op in {Lt, LtE, Gt, GtE} ==>
                Comparing(l, op, r, ctx) == Comparing(Constant(s[k]), op, Constant(t[k]), ctx)
    ensures k == |s| || k == |t| ==>
              && Comparing(l, Lt, r, ctx) == Got(Bool(|s| < |t|)) && Comparing(l, LtE, r, ctx) == Got(Bool(|s| <= |t|))
              && Comparing(l, Gt, r, ctx) == Got(Bool(|s| > |t|)) && Comparing(l, GtE, r, ctx) == Got(Bool(|s| >= |t|))
  {
    AllComparingOutcomes(l, r, ctx);
    forall op | op in {Lt, LtE, Gt, GtE}
      ensures Compared(op, List(s), List(t)) == OrderedLists(op, s, t)
    {
    }
    FirstDifferenceDecides(Lt, s, t, k);
    FirstDifferenceDecides(LtE, s, t, k);
    FirstDifferenceDecides(Gt, s, t, k);
    FirstDifferenceDecides(GtE, s, t, k);
    if k < |s| && k < |t| { AllComparingOutcomes(Constant(s[k]), Constant(t[k]), ctx); }
  }

  /** A text can contain texts, a list anything, a dictionary what can be a key. */
  ghost predicate CanContain(b: Value, a: Value) {
    (b.Str? && a.Str?) || b.List? || (b.Dict? && !a.List? && !a.Dict?)
  }

  /** Dictionaries are equal when they have the same keys and equal values under each. */
  lemma DictionariesCompare(l: Expr, r: Expr, ctx: Context, s: Record, t: Record)
    requires Eval(l, ctx) == Got(Dict(s)) && Eval(r, ctx) == Got(Dict(t))
    ensures Coerced(Comparing(l, Eq, r, ctx))
       <==> s.Keys == t.Keys && forall k :: k in s ==> Coerced(Comparing(Constant(s[k]), Eq, Constant(t[k]), ctx))
  {
    ComparingOutcomes(l, Eq, r, ctx);
    if s.Keys == t.Keys {
      forall k | k in s ensures Coerced(Comparing(Constant(s[k]), Eq, Constant(t[k]), ctx)) <==> PyEqual(s[k], t[k]) {
        ComparingOutcomes(Constant(s[k]), Eq, Constant(t[k]), ctx);
      }
    }
  }

  lemma NullsAreEqual(l: Expr, r: Expr, ctx: Context)
    requires Eval(l, ctx) == Got(Null) && Eval(r, ctx) == Got(Null)
    ensures Coerced(Comparing(l, Eq, r, ctx))
  {
    ComparingOutcomes(l, Eq, r, ctx);
  }

  /** `!=` is the opposite of `==`; so is `not in` of `in` where the right side can contain the left one,
      and elsewhere neither holds. */
  lemma NegatedOperators(l: Expr, r: Expr, ctx: Context)
    requires Eval(l, ctx).Got? && Eval(r, ctx).Got?
    ensures Coerced(Comparing(l, NotEq, r, ctx)) <==> !Coerced(Comparing(l, Eq, r, ctx))
    ensures CanContain(Eval(r, ctx).value, Eval(l, ctx).value) ==>
              (Coerced(Comparing(l, NotIn, r, ctx)) <==> !Coerced(Comparing(l, In, r, ctx)))
    ensures !CanContain(Eval(r, ctx).value, Eval(l, ctx).value) ==>
              !Coerced(Comparing(l, NotIn, r, ctx)) && !Coerced(Comparing(l, In, r, ctx))
  {
    AllComparingOutcomes(l, r, ctx);
  }

  /** `in` finds parts of a text, items of a list and keys of a dictionary, and nothing in anything else. */
  ghost predicate IsIn(a: Value, b: Value) {
    match b
    case Str(text) => a.Str? && exists before: string, after: string :: text == before + a.s + after
    case List(items) => exists v :: v in items && PyEqual(v, a)
    case Dict(fields) => a.Str? && a.s in fields
    case _ => false
  }

  lemma ContainsWhenIn(a: Value, b: Value)
    ensures Contains(a, b) == Some(true) <==> IsIn(a, b)
  {
    if a.Str? && b.Str? { PartOfText(a.s, b.s); }
  }

  lemma MembershipMeans(l: Expr, r: Expr, ctx: Context)
    requires Eval(l, ctx).Got? && Eval(r, ctx).Got?
    ensures Coerced(Comparing(l, In, r, ctx)) <==> IsIn(Eval(l, ctx).value, Eval(r, ctx).value)
  {
    ComparingOutcomes(l, In, r, ctx);
    ContainsWhenIn(Eval(l, ctx).value, Eval(r, ctx).value);
  }

  lemma PartOfText(part: string, text: string)
    ensures (exists i :: 0 <= i <= |text| && part <= text[i..])
       <==> exists before: string, after: string :: text == before + part + after
  {
    if i :| 0 <= i <= |text| && part <= text[i..] {
      assert text == text[..i] + part + text[i + |part|..];
    }
    if before: string, after: string :| text == before + part + after {
      assert text[|before|..] == part + after;
      assert part <= text[|before|..];
    }
  }

  /** The kinds of values that can be equal or ordered among themselves. */
  function KindOf(v: Value): nat {
    match v
    case Null => 0
    case Bool(_) => 1
    case Num(_) => 1
    case Str(_) => 2
    case List(_) => 3
    case Dict(_) => 4
    case Time(_) => 5
  }

  /** Values of different kinds are unequal, and no order holds between them; nor between nulls or
      dictionaries. */
  lemma DifferentKindsNeverCompare(l: Expr, op: CmpOp, r: Expr, ctx: Context)
    requires Eval(l, ctx).Got? && Eval(r, ctx).Got? && op in {Eq, Lt, LtE, Gt, GtE}
    requires KindOf(Eval(l, ctx).value) != KindOf(Eval(r, ctx).value)
             || (KindOf(Eval(l, ctx).value) in {0, 4} && op != Eq)
    ensures Comparing(l, op, r, ctx) == Got(Bool(false))
  {
    ComparingOutcomes(l, op, r, ctx);
  }

  /** A comparison with a missing side is false, whatever the operator. */
  lemma MissingNeverCompares(l: Expr, op: CmpOp, r: Expr, ctx: Context)
    requires Check(l).None? && Check(r).None? && (Eval(l, ctx).Missing? || Eval(r, ctx).Missing?)
    ensures Comparing(l, op, r, ctx) == Got(Bool(false))
  {
    AcceptedNeverRaises(l, ctx);
    AcceptedNeverRaises(r, ctx);
    assert EvalChain(Eval(l, ctx), [op], [r], ctx) == CompareOutcomes(op, Eval(l, ctx), Eval(r, ctx));
  }

  // ---------------------------------------------------------------- what is accepted

  /** An attribute is accepted unless it begins with two underscores. */
  lemma AttributesAccepted(base: Expr, attr: string)
    ensures Check(Attribute(base, attr)).None?
       <==> Check(base).None? && !(|attr| >= 2 && attr[0] == '_' && attr[1] == '_')
  {
  }

  /** All comparison operators are accepted but `is` and `is not`. */
  lemma OperatorsAccepted(left: Expr, op: CmpOp, right: Expr)
    ensures Check(Compare(left, [op], [right])).None?
       <==> Check(left).None? && Check(right).None? && op in {Eq, NotEq, Lt, LtE, Gt, GtE, In, NotIn}
  {
    assert [right][1..] == [];
    assert CheckAll([right]) == Check(right);
    assert [op][0] == op;
  }

  // ---------------------------------------------------------------- conditions on a signal

  /** The variables that the checker accepts are those that every signal has. */
  lemma AcceptedVariablesArePresent(id: string, signal: Signal)
    ensures Check(Name(id)).None? <==> Eval(Name(id), ContextOf(signal)).Got?
  {
  }

  function PayloadField(key: string): Expr {
    Attribute(Name("payload"), key)
  }

  /** Each variable is compared as the field of the signal that it is named after. */
  lemma VariablesAreFields(signal: Signal, text: string, number: real, time: int)
    ensures Coerced(Comparing(Name("type"), Eq, Constant(Str(text)), ContextOf(signal))) <==> signal.kind == text
    ensures Coerced(Comparing(Name("source"), Eq, Constant(Str(text)), ContextOf(signal))) <==> signal.source == text
    ensures Coerced(Comparing(Name("confidence"), GtE, Constant(Num(number)), ContextOf(signal)))
       <==> signal.confidence >= number
    ensures Coerced(Comparing(Name("created_at"), Lt, Constant(Time(time)), ContextOf(signal))) <==> signal.timestamp < time
  {
    var ctx := ContextOf(signal);
    TextsCompare(Name("type"), Constant(Str(text)), ctx, signal.kind, text);
    TextsCompare(Name("source"), Constant(Str(text)), ctx, signal.source, text);
    NumbersCompare(Name("confidence"), Constant(Num(number)), ctx, signal.confidence, number);
    TimesCompare(Name("created_at"), Constant(Time(time)), ctx, signal.timestamp, time);
  }

  /** payload.key is that field of the payload, or missing. */
  lemma PayloadFieldIsRead(signal: Signal, key: string)
    ensures Eval(PayloadField(key), ContextOf(signal))
         == if key in signal.payload then Got(signal.payload[key]) else Missing
  {
    assert Eval(Name("payload"), ContextOf(signal)) == Got(Dict(signal.payload));
  }

  /** The field is there and is a number below the bound. */
  ghost predicate IsBelow(payload: Record, key: string, bound: real) {
    key in payload && exists x: real :: CountsAs(payload[key], x) && x < bound
  }

  lemma BelowBound(signal: Signal, key: string, bound: real)
    ensures Coerced(Comparing(PayloadField(key), Lt, Constant(Num(bound)), ContextOf(signal)))
       <==> IsBelow(signal.payload, key, bound)
  {
    var ctx, l, r := ContextOf(signal), PayloadField(key), Constant(Num(bound));
    PayloadFieldIsRead(signal, key);
    if key in signal.payload {
      var v := signal.payload[key];
      if x: real :| CountsAs(v, x) {
        NumbersCompare(l, r, ctx, x, bound);
        assert forall y: real :: CountsAs(v, y) ==> y == x;
      } else {
        assert !CountsAs(v, NumberOr(v));
        DifferentKindsNeverCompare(l, Lt, r, ctx);
      }
    } else {
      assert EvalChain(Missing, [Lt], [r], ctx) == CompareOutcomes(Lt, Missing, Eval(r, ctx));
    }
  }

  function NumberOr(v: Value): real {
    if IsNumeric(v) then NumberOf(v) else 0.0
  }

  /** The tree of `confidence >= least and payload.key < bound`. */
  function Thresholds(least: real, key: string, bound: real): Expr {
    BoolOp(And, [Compare(Name("confidence"), [GtE], [Constant(Num(least))]),
                 Compare(PayloadField(key), [Lt], [Constant(Num(bound))])])
  }

  /** It holds for a signal exactly when its confidence is at least the one number and the field of its
      payload is there and below the other. */
  lemma ThresholdsMean(signal: Signal, least: real, key: string, bound: real)
    requires !IsDunder(key)
    ensures Check(Thresholds(least, key, bound)).None?
    ensures Coerced(Eval(Thresholds(least, key, bound), ContextOf(signal)))
       <==> signal.confidence >= least && IsBelow(signal.payload, key, bound)
  {
    var ctx := ContextOf(signal);
    var first := Compare(Name("confidence"), [GtE], [Constant(Num(least))]);
    var second := Compare(PayloadField(key), [Lt], [Constant(Num(bound))]);
    NumbersCompare(Name("confidence"), Constant(Num(least)), ctx, signal.confidence, least);
    BelowBound(signal, key, bound);
    ComparingIsChecked(Name("confidence"), GtE, Num(least));
    ComparingIsChecked(PayloadField(key), Lt, Num(bound));
    TwoAreChecked(first, second);
    AndMeansAll([first, second], ctx);
    assert [first, second][0] == first && [first, second][1] == second;
  }

  /** And so does every text that is parsed as this tree. */
  lemma ThresholdTextMeans(host: CE.Host, text: string, signal: Signal, least: real, key: string, bound: real)
    requires !IsDunder(key) && !CE.IsBlank(host, Some(text)) && CE.Parsed(host, text) == Some(Thresholds(least, key, bound))
    ensures CE.Matches(host, Some(text), ContextOf(signal))
         == Some(signal.confidence >= least && IsBelow(signal.payload, key, bound))
  {
    ThresholdsMean(signal, least, key, bound);
    AcceptedNeverRaises(Thresholds(least, key, bound), ContextOf(signal));
  }

  lemma ComparingIsChecked(e: Expr, op: CmpOp, v: Value)
    requires Check(e).None? && AllowedOperator(op)
    ensures Check(Compare(e, [op], [Constant(v)])).None?
  {
    assert [Constant(v)][1..] == [];
    assert CheckAll([Constant(v)]).None?;
  }

  lemma TwoAreChecked(first: Expr, second: Expr)
    requires Check(first).None? && Check(second).None?
    ensures CheckAll([first, second]).None?
  {
    assert [first, second][1..] == [second] && [second][1..] == [];
    assert CheckAll([second]).None?;
  }
}
