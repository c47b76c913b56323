/** Evaluation of a condition text: blank test, literal normalisation, parse, check, evaluate. */
module ConditionEvaluator {
  import opened Basics
  import opened Conditions
  import Literals
  import Values

  /** The parts of the Python runtime that a condition passes through: the parser (None is a
      SyntaxError), and which characters are word characters and white space. */
  datatype Host = Host(parse: string -> Option<Expr>, word: char -> bool, space: char -> bool)

  function StripLeft(space: char -> bool, s: string): string {
    if s != "" && space(s[0]) then StripLeft(space, s[1..]) else s
  }

  function StripRight(space: char -> bool, s: string): string {
    if s != "" && space(s[|s| - 1]) then StripRight(space, s[..|s| - 1]) else s
  }

  function Strip(space: char -> bool, s: string): string {
    StripRight(space, StripLeft(space, s))
  }

  predicate IsBlank(host: Host, condition: Option<string>) {
    condition.None? || Strip(host.space, condition.value) == ""
  }

  function Parsed(host: Host, text: string): Option<Expr> {
    host.parse(Literals.MapRuns(host.word, "", Strip(host.space, text), Literals.LITERALS))
  }

  /** Whether validate_syntax accepts the condition. */
  predicate IsValidSyntax(host: Host, condition: Option<string>) {
    IsBlank(host, condition)
    || (var tree := Parsed(host, condition.value); tree.Some? && Check(tree.value).None?)
  }

  /** The value of a condition; None is a ConditionEvaluationError. */
  function Matches(host: Host, condition: Option<string>, ctx: Context): Option<bool> {
    if IsBlank(host, condition) then Some(true)
    else
      var tree := Parsed(host, condition.value);
      if tree.None? || Check(tree.value).Some? then None
      else
        var o := Eval(tree.value, ctx);
        if o.Raised? then None else Some(Coerced(o))
  }

  method Evaluate(host: Host, condition: Option<string>, ctx: Context) returns (r: Option<bool>)
    requires Literals.CountsLetters(host.word)
    ensures r == Matches(host, condition, ctx)
  {
    if condition.None? || Strip(host.space, condition.value) == "" {
      return Some(true);
    }
    var normalized := Literals.Normalize(host.word, Strip(host.space, condition.value));
    var tree := host.parse(normalized);
    if tree.None? || Check(tree.value).Some? {
      return None;
    }
    var result := Eval(tree.value, ctx);
    return if result.Raised? then None else Some(result.Got? && Values.Truthy(result.value));
  }

  ghost predicate AllSpace(space: char -> bool, s: string) {
    forall c :: c in s ==> space(c)
  }

  lemma {:induction false} StripLeftDrops(space: char -> bool, s: string) returns (a: string)
    ensures s == a + StripLeft(space, s) && AllSpace(space, a)
    ensures StripLeft(space, s) != "" ==> !space(StripLeft(space, s)[0])
  {
    a := "";
    if s != "" && space(s[0]) {
      var rest := StripLeftDrops(space, s[1..]);
      a := [s[0]] + rest;
      assert s == [s[0]] + s[1..];
    }
  }

  lemma {:induction false} StripRightDrops(space: char -> bool, s: string) returns (b: string)
    ensures s == StripRight(space, s) + b && AllSpace(space, b)
    ensures StripRight(space, s) != "" ==> !space(StripRight(space, s)[|StripRight(space, s)| - 1])
  {
    b := "";
    if s != "" && space(s[|s| - 1]) {
      var rest := StripRightDrops(space, s[..|s| - 1]);
      b := rest + [s[|s| - 1]];
      assert s == s[..|s| - 1] + [s[|s| - 1]];
    }
  }

  /** Stripping drops white space at both ends and nothing else. */
  lemma StripDropsOuterSpace(space: char -> bool, s: string) returns (a: string, b: string)
    ensures s == a + Strip(space, s) + b && AllSpace(space, a) && AllSpace(space, b)
    ensures Strip(space, s) != "" ==> !space(Strip(space, s)[0]) && !space(Strip(space, s)[|Strip(space, s)| - 1])
  {
    a := StripLeftDrops(space, s);
    b := StripRightDrops(space, StripLeft(space, s));
    assert s == a + (Strip(space, s) + b);
  }

  lemma {:induction false} StripLeftSkips(space: char -> bool, a: string, s: string)
    requires AllSpace(space, a)
    ensures StripLeft(space, a + s) == StripLeft(space, s)
  {
    if a == "" {
      assert a + s == s;
    } else {
      assert (a + s)[1..] == a[1..] + s;
      StripLeftSkips(space, a[1..], s);
    }
  }

  lemma {:induction false} StripRightSkips(space: char -> bool, s: string, b: string)
    requires AllSpace(space, b)
    ensures StripRight(space, s + b) == StripRight(space, s)
  {
    if b == "" {
      assert s + b == s;
    } else {
      var n := |b| - 1;
      assert (s + b)[..|s + b| - 1] == s + b[..n];
      StripRightSkips(space, s, b[..n]);
    }
  }

  lemma {:induction false} StripLeftStops(space: char -> bool, s: string, b: string)
    requires StripLeft(space, s) != ""
    ensures StripLeft(space, s + b) == StripLeft(space, s) + b
  {
    if space(s[0]) {
      assert (s + b)[1..] == s[1..] + b;
      StripLeftStops(space, s[1..], b);
    }
  }

  lemma PaddingIsStripped(space: char -> bool, a: string, s: string, b: string)
    requires AllSpace(space, a) && AllSpace(space, b)
    ensures Strip(space, a + s + b) == Strip(space, s)
  {
    assert a + s + b == a + (s + b);
    StripLeftSkips(space, a, s + b);
    if StripLeft(space, s) == "" {
      var left := StripLeftDrops(space, s);
      StripLeftSkips(space, s, b);
      StripLeftSkips(space, b, "");
      assert b + "" == b;
    } else {
      StripLeftStops(space, s, b);
      StripRightSkips(space, StripLeft(space, s), b);
    }
  }

  /** White space around a condition changes nothing. */
  lemma PaddingChangesNothing(host: Host, a: string, text: string, b: string, ctx: Context)
    requires AllSpace(host.space, a) && AllSpace(host.space, b)
    ensures Matches(host, Some(a + text + b), ctx) == Matches(host, Some(text), ctx)
  {
    PaddingIsStripped(host.space, a, text, b);
  }

  /** A condition that is one word reaches the parser as that word, but as a constant of Python if it is
      one of the three literals. */
  lemma LoneWordIsParsed(host: Host, run: string)
    requires run != "" && Literals.AllWord(host.word, run) && !host.space(run[0]) && !host.space(run[|run| - 1])
    ensures run !in {"true", "false", "null"} ==> Parsed(host, run) == host.parse(run)
    ensures run == "true" ==> Parsed(host, run) == host.parse("True")
    ensures run == "false" ==> Parsed(host, run) == host.parse("False")
    ensures run == "null" ==> Parsed(host, run) == host.parse("None")
  {
    Literals.LiteralsBecomeConstants(host.word, run);
  }

  /** A condition is blank, and so always holds, exactly when there is none or it is all white space. */
  lemma BlankHolds(host: Host, condition: Option<string>, ctx: Context)
    ensures IsBlank(host, condition) <==> condition.None? || AllSpace(host.space, condition.value)
    ensures IsBlank(host, condition) ==> Matches(host, condition, ctx) == Some(true)
  {
    if condition.Some? {
      var s := Strip(host.space, condition.value);
      var a, b := StripDropsOuterSpace(host.space, condition.value);
      if s != "" { assert s[0] in condition.value; }
    }
  }

  /** Whether a condition fails is settled by its text alone: evaluation raises in some context
      exactly when it raises in every context, and exactly when validation rejects the text. */
  lemma RaisesExactlyWhenInvalid(host: Host, condition: Option<string>, ctx: Context)
    ensures Matches(host, condition, ctx).None? <==> !IsValidSyntax(host, condition)
  {
    if !IsBlank(host, condition) {
      var tree := Parsed(host, condition.value);
      if tree.Some? && Check(tree.value).None? {
        AcceptedNeverRaises(tree.value, ctx);
      }
    }
  }
}
