/** The values a condition can meet at run time, with Python's comparison rules for them
    (sections 6.10.1 and 6.10.2 of the Python Language Reference).
    A comparison that raises TypeError in Python has the outcome None. */
module Values {
  import opened Basics

  datatype Value =
    | Null
    | Bool(b: bool)
    | Num(n: real)
    | Str(s: string)
    | List(items: seq<Value>)
    | Dict(fields: map<string, Value>)
    | Time(at: int)

  type Record = map<string, Value>

  datatype CmpOp = Eq | NotEq | Lt | LtE | Gt | GtE | In | NotIn | Is | IsNot

  predicate IsNumeric(v: Value) {
    v.Bool? || v.Num?
  }

  /** True counts as 1 and False as 0. */
  function NumberOf(v: Value): real
    requires IsNumeric(v)
  {
    match v
    case Bool(b) => if b then 1.0 else 0.0
    case Num(n) => n
  }

  predicate PyEqual(a: Value, b: Value) {
    match (a, b)
    case (Null, Null) => true
    case (Str(s), Str(t)) => s == t
    case (Time(s), Time(t)) => s == t
    case (List(s), List(t)) => |s| == |t| && forall i :: 0 <= i < |s| ==> PyEqual(s[i], t[i])
    case (Dict(s), Dict(t)) => s.Keys == t.Keys && forall k :: k in s.Keys ==> PyEqual(s[k], t[k])
    case _ => IsNumeric(a) && IsNumeric(b) && NumberOf(a) == NumberOf(b)
  }

  predicate OrderedReals(op: CmpOp, x: real, y: real) {
    match op
    case Lt => x < y
    case LtE => x <= y
    case Gt => x > y
    case GtE => x >= y
    case _ => false
  }

  /** Code-point order on strings. */
  function OrderedStrings(op: CmpOp, s: string, t: string): bool {
    if s == [] || t == [] then OrderedReals(op, |s| as real, |t| as real)
    else if s[0] == t[0] then OrderedStrings(op, s[1..], t[1..])
    else OrderedReals(op, s[0] as int as real, t[0] as int as real)
  }

  /** `<`, `<=`, `>` and `>=`; lists are ordered by their first differing items. */
  function Ordered(op: CmpOp, a: Value, b: Value): Option<bool>
    decreases a, 1
  {
    match (a, b)
    case (Str(s), Str(t)) => Some(OrderedStrings(op, s, t))
    case (Time(s), Time(t)) => Some(OrderedReals(op, s as real, t as real))
    case (List(s), List(t)) => OrderedLists(op, s, t)
    case _ =>
      if IsNumeric(a) && IsNumeric(b) then Some(OrderedReals(op, NumberOf(a), NumberOf(b)))
      else None
  }

  function OrderedLists(op: CmpOp, s: seq<Value>, t: seq<Value>): Option<bool>
    decreases s, 0
  {
    if s == [] || t == [] then Some(OrderedReals(op, |s| as real, |t| as real))
    else if PyEqual(s[0], t[0]) then OrderedLists(op, s[1..], t[1..])
    else Ordered(op, s[0], t[0])
  }

  /** `a in b`. */
  function Contains(a: Value, b: Value): Option<bool> {
    match b
    case Str(t) =>
      if a.Str? then Some(exists i :: 0 <= i <= |t| && a.s <= t[i..]) else None
    case List(items) => Some(exists i :: 0 <= i < |items| && PyEqual(items[i], a))
    case Dict(fields) =>
      if a.List? || a.Dict? then None else Some(a.Str? && a.s in fields)
    case _ => None
  }

  /** One comparison between two present values; None is a TypeError. */
  function Compared(op: CmpOp, a: Value, b: Value): Option<bool> {
    match op
    case Eq => Some(PyEqual(a, b))
    case NotEq => Some(!PyEqual(a, b))
    case In => Contains(a, b)
    case NotIn => (match Contains(a, b) case Some(r) => Some(!r) case None => None)
    case _ => Ordered(op, a, b)
  }

  /** bool(v). */
  predicate Truthy(v: Value) {
    match v
    case Null => false
    case Bool(b) => b
    case Num(n) => n != 0.0
    case Str(s) => s != ""
    case List(items) => items != []
    case Dict(fields) => fields.Keys != {}
    case Time(_) => true
  }
}
