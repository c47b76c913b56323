/** Normalisation of the JSON-style literals true, false and null in a condition text: three
    whole-word substitution passes that amount to one simultaneous pass over maximal word runs. */
module Literals {
  import opened Basics

  type Renaming = map<string, string>

  const TRUE_PASS: Renaming := map["true" := "True"]
  const FALSE_PASS: Renaming := map["false" := "False"]
  const NULL_PASS: Renaming := map["null" := "None"]
  const LITERALS: Renaming := map["true" := "True", "false" := "False", "null" := "None"]

  /** The word characters of the pattern language include the ASCII letters. */
  ghost predicate CountsLetters(word: char -> bool) {
    forall c :: 'a' <= c <= 'z' || 'A' <= c <= 'Z' ==> word(c)
  }

  ghost predicate AllWord(word: char -> bool, s: string) {
    forall c :: c in s ==> word(c)
  }

  predicate StartsWithWord(word: char -> bool, s: string) {
    s != "" && word(s[0])
  }

  function Renamed(m: Renaming, run: string): string {
    if run in m then m[run] else run
  }

  /** Every maximal run of word characters renamed, everything else kept; `run` holds the word
      characters read since the last other character. */
  function MapRuns(word: char -> bool, run: string, s: string, m: Renaming): string
    decreases s
  {
    if s == "" then Renamed(m, run)
    else if word(s[0]) then MapRuns(word, run + [s[0]], s[1..], m)
    else Renamed(m, run) + ([s[0]] + MapRuns(word, "", s[1..], m))
  }

  /** The maximal runs of word characters (and possibly the empty run). */
  ghost function Runs(word: char -> bool, run: string, s: string): set<string>
    decreases s
  {
    if s == "" then {run}
    else if word(s[0]) then Runs(word, run + [s[0]], s[1..])
    else {run} + Runs(word, "", s[1..])
  }

  // ---------------------------------------------------------------- the scanning pass

  /** The literal stands at the start of `rest` with a word boundary on both sides; `inWord` says
      whether the character before `rest` is a word character. */
  predicate MatchesHere(word: char -> bool, inWord: bool, rest: string, literal: string)
    requires literal != ""
  {
    literal <= rest
    && inWord != word(literal[0])
    && word(literal[|literal| - 1]) != StartsWithWord(word, rest[|literal|..])
  }

  /** The rest of a run that is not to be renamed, and then everything after it. */
  ghost function Verbatim(word: char -> bool, s: string, m: Renaming): string {
    if StartsWithWord(word, s) then [s[0]] + Verbatim(word, s[1..], m) else MapRuns(word, "", s, m)
  }

  ghost function Remaining(word: char -> bool, inWord: bool, rest: string, m: Renaming): string {
    if inWord then Verbatim(word, rest, m) else MapRuns(word, "", rest, m)
  }

  /** The run that is being read, completed. */
  ghost function WholeRun(word: char -> bool, run: string, s: string): string
    decreases s
  {
    if StartsWithWord(word, s) then WholeRun(word, run + [s[0]], s[1..]) else run
  }

  lemma {:induction false} WholeRunIsBounded(word: char -> bool, run: string, s: string) returns (x: string)
    ensures WholeRun(word, run, s) == run + x && x <= s && AllWord(word, x)
    ensures !StartsWithWord(word, s[|x|..])
    decreases s
  {
    x := "";
    if StartsWithWord(word, s) {
      var y := WholeRunIsBounded(word, run + [s[0]], s[1..]);
      x := [s[0]] + y;
      assert s[|x|..] == s[1..][|y|..];
    }
  }

  lemma RunEnds(word: char -> bool, run: string, s: string, m: Renaming)
    requires !StartsWithWord(word, s) && "" !in m
    ensures MapRuns(word, run, s, m) == Renamed(m, run) + MapRuns(word, "", s, m)
  {
    if s == "" {
      assert Renamed(m, run) + "" == Renamed(m, run);
    } else {
      var rest := [s[0]] + MapRuns(word, "", s[1..], m);
      assert "" + rest == rest;
    }
  }

  lemma {:induction false} OtherRunsAreVerbatim(word: char -> bool, run: string, s: string, m: Renaming)
    requires WholeRun(word, run, s) !in m && "" !in m
    ensures MapRuns(word, run, s, m) == run + Verbatim(word, s, m)
    decreases s
  {
    if StartsWithWord(word, s) {
      OtherRunsAreVerbatim(word, run + [s[0]], s[1..], m);
    } else {
      RunEnds(word, run, s, m);
    }
  }

  lemma {:induction false} WordsJoinTheRun(word: char -> bool, run: string, x: string, rest: string, m: Renaming)
    requires AllWord(word, x)
    ensures MapRuns(word, run, x + rest, m) == MapRuns(word, run + x, rest, m)
    decreases x
  {
    if x == "" {
      assert x + rest == rest && run + x == run;
    } else {
      WordsJoinTheRun(word, run + [x[0]], x[1..], rest, m);
      assert (x + rest)[1..] == x[1..] + rest;
      assert run + [x[0]] + x[1..] == run + x;
    }
  }

  lemma ScanMatches(word: char -> bool, inWord: bool, rest: string, literal: string, replacement: string)
    requires literal != "" && AllWord(word, literal) && MatchesHere(word, inWord, rest, literal)
    ensures Remaining(word, inWord, rest, map[literal := replacement])
         == replacement + Remaining(word, true, rest[|literal|..], map[literal := replacement])
  {
    var tail, m := rest[|literal|..], map[literal := replacement];
    assert literal[0] in literal && literal[|literal| - 1] in literal;
    assert Remaining(word, inWord, rest, m) == MapRuns(word, literal, tail, m) by {
      assert rest == literal + tail && "" + literal == literal;
      WordsJoinTheRun(word, "", literal, tail, m);
    }
    RunEnds(word, literal, tail, m);
  }

  lemma ScanSkips(word: char -> bool, inWord: bool, rest: string, literal: string, replacement: string)
    requires literal != "" && AllWord(word, literal)
    requires rest != "" && !MatchesHere(word, inWord, rest, literal)
    ensures Remaining(word, inWord, rest, map[literal := replacement])
         == [rest[0]] + Remaining(word, word(rest[0]), rest[1..], map[literal := replacement])
  {
    if !inWord && word(rest[0]) {
      var x := WholeRunIsBounded(word, "", rest);
      assert "" + x == x;
      assert literal[0] in literal && literal[|literal| - 1] in literal;
      OtherRunsAreVerbatim(word, "", rest, map[literal := replacement]);
    }
  }

  /** `out` is what the pass has written when it stands before `rest`. */
  ghost predicate Scanned(word: char -> bool, inWord: bool, rest: string, m: Renaming, out: string, goal: string) {
    out + Remaining(word, inWord, rest, m) == goal
  }

  /** One step of the scan: how many characters are read, and what is written for them. */
  lemma ScanStep(word: char -> bool, inWord: bool, rest: string, literal: string, replacement: string,
                 out: string, goal: string)
    requires literal != "" && AllWord(word, literal) && rest != ""
    requires Scanned(word, inWord, rest, map[literal := replacement], out, goal)
    ensures if MatchesHere(word, inWord, rest, literal) then
              Scanned(word, true, rest[|literal|..], map[literal := replacement], out + replacement, goal)
            else
              Scanned(word, word(rest[0]), rest[1..], map[literal := replacement], out + [rest[0]], goal)
  {
    var m := map[literal := replacement];
    if MatchesHere(word, inWord, rest, literal) {
      ScanMatches(word, inWord, rest, literal, replacement);
      Associates(out, replacement, Remaining(word, true, rest[|literal|..], m));
    } else {
      ScanSkips(word, inWord, rest, literal, replacement);
      Associates(out, [rest[0]], Remaining(word, word(rest[0]), rest[1..], m));
    }
  }

  /** One substitution pass: leftmost whole-word matches, one after the other. */
  method Substitute(word: char -> bool, s: string, literal: string, replacement: string) returns (out: string)
    requires literal != "" && AllWord(word, literal)
    ensures out == MapRuns(word, "", s, map[literal := replacement])
  {
    ghost var m := map[literal := replacement];
    ghost var goal := MapRuns(word, "", s, m);
    out := "";
    var rest := s;
    var inWord := false;
    assert "" + goal == goal;
    while rest != ""
      invariant Scanned(word, inWord, rest, m, out, goal)
      decreases rest
    {
      ScanStep(word, inWord, rest, literal, replacement, out, goal);
      if MatchesHere(word, inWord, rest, literal) {
        out, rest, inWord := out + replacement, rest[|literal|..], true;
      } else {
        out, rest, inWord := out + [rest[0]], rest[1..], word(rest[0]);
      }
    }
    assert out + "" == out;
  }

  /** The three passes one after the other equal one simultaneous pass. */
  method Normalize(word: char -> bool, expr: string) returns (r: string)
    requires CountsLetters(word)
    ensures r == MapRuns(word, "", expr, LITERALS)
  {
    r := Substitute(word, expr, "true", "True");
    r := Substitute(word, r, "false", "False");
    r := Substitute(word, r, "null", "None");
    ThreePassesAreOne(word, expr);
  }

  // ---------------------------------------------------------------- passes compose

  ghost predicate RenamesToWords(word: char -> bool, m: Renaming) {
    forall k :: k in m ==> AllWord(word, m[k])
  }

  ghost predicate Composes(a: Renaming, b: Renaming, c: Renaming) {
    forall t :: Renamed(b, Renamed(a, t)) == Renamed(c, t)
  }

  /** Two passes are one pass with the composed renaming, as long as the first writes words only. */
  lemma {:induction false} PassesCompose(word: char -> bool, run: string, s: string, a: Renaming, b: Renaming, c: Renaming)
    requires RenamesToWords(word, a) && AllWord(word, run) && Composes(a, b, c)
    ensures MapRuns(word, "", MapRuns(word, run, s, a), b) == MapRuns(word, run, s, c)
    decreases s
  {
    var renamed := Renamed(a, run);
    assert "" + renamed == renamed;
    if s == "" {
      WordsJoinTheRun(word, "", renamed, "", b);
      assert renamed + "" == renamed;
    } else if word(s[0]) {
      PassesCompose(word, run + [s[0]], s[1..], a, b, c);
    } else {
      var rest := MapRuns(word, "", s[1..], a);
      PassesCompose(word, "", s[1..], a, b, c);
      WordsJoinTheRun(word, "", renamed, [s[0]] + rest, b);
      assert ([s[0]] + rest)[1..] == rest;
    }
  }

  const TWO_PASSES: Renaming := map["true" := "True", "false" := "False"]

  lemma FirstTwoCompose(word: char -> bool)
    requires CountsLetters(word)
    ensures RenamesToWords(word, TRUE_PASS) && Composes(TRUE_PASS, FALSE_PASS, TWO_PASSES)
  {
  }

  lemma LastTwoCompose(word: char -> bool)
    requires CountsLetters(word)
    ensures RenamesToWords(word, TWO_PASSES) && Composes(TWO_PASSES, NULL_PASS, LITERALS)
  {
  }

  lemma ThreePassesAreOne(word: char -> bool, s: string)
    requires CountsLetters(word)
    ensures MapRuns(word, "", MapRuns(word, "", MapRuns(word, "", s, TRUE_PASS), FALSE_PASS), NULL_PASS)
         == MapRuns(word, "", s, LITERALS)
  {
    FirstTwoCompose(word);
    PassesCompose(word, "", s, TRUE_PASS, FALSE_PASS, TWO_PASSES);
    LastTwoCompose(word);
    PassesCompose(word, "", s, TWO_PASSES, NULL_PASS, LITERALS);
  }

  /** Normalising a second time changes nothing. */
  lemma NormalizationIsIdempotent(word: char -> bool, s: string)
    requires CountsLetters(word)
    ensures MapRuns(word, "", MapRuns(word, "", s, LITERALS), LITERALS) == MapRuns(word, "", s, LITERALS)
  {
    PassesCompose(word, "", s, LITERALS, LITERALS, LITERALS);
  }

  lemma EqualByParts(a: string, b: string, c: char, x: string, y: string)
    requires |a| == |b|
    ensures a + ([c] + x) == b + ([c] + y) <==> a == b && x == y
  {
    var s, t := a + ([c] + x), b + ([c] + y);
    assert s[..|a|] == a && t[..|b|] == b;
    assert s[|a| + 1..] == x && t[|b| + 1..] == y;
  }

  lemma LiteralsAreRewritten(run: string)
    ensures |Renamed(LITERALS, run)| == |run|
    ensures Renamed(LITERALS, run) == run <==> run !in LITERALS
  {
    assert run in LITERALS ==> Renamed(LITERALS, run)[0] != run[0];
  }

  ghost predicate NoLiteral(runs: set<string>) {
    forall r :: r in runs ==> r !in LITERALS
  }

  /** A text is left as it is exactly when none of its maximal word runs is one of the literals:
      "truelove" stays, but a quoted `true` is rewritten like any other. */
  lemma {:induction false} UnchangedExactlyWithoutLiterals(word: char -> bool, run: string, s: string)
    ensures MapRuns(word, run, s, LITERALS) == run + s <==> NoLiteral(Runs(word, run, s))
    decreases s
  {
    if s == "" {
      LiteralsAreRewritten(run);
      assert run + "" == run;
    } else if word(s[0]) {
      UnchangedExactlyWithoutLiterals(word, run + [s[0]], s[1..]);
      assert run + [s[0]] + s[1..] == run + s;
    } else {
      var rest := Runs(word, "", s[1..]);
      assert NoLiteral({run} + rest) <==> run !in LITERALS && NoLiteral(rest) by {
        if run in LITERALS { assert run in {run} + rest; }
        forall r | r in rest ensures r in {run} + rest {}
      }
      LiteralsAreRewritten(run);
      UnchangedExactlyWithoutLiterals(word, "", s[1..]);
      assert "" + s[1..] == s[1..];
      EqualByParts(Renamed(LITERALS, run), run, s[0], MapRuns(word, "", s[1..], LITERALS), s[1..]);
      assert s == [s[0]] + s[1..];
    }
  }

  lemma LoneWord(word: char -> bool, run: string, m: Renaming)
    requires AllWord(word, run)
    ensures MapRuns(word, "", run, m) == Renamed(m, run)
  {
    WordsJoinTheRun(word, "", run, "", m);
    assert run + "" == run && "" + run == run;
  }

  /** The three literals as words of their own become the constants of Python; any other word stays. */
  lemma LiteralsBecomeConstants(word: char -> bool, run: string)
    requires AllWord(word, run)
    ensures run == "true" ==> MapRuns(word, "", run, LITERALS) == "True"
    ensures run == "false" ==> MapRuns(word, "", run, LITERALS) == "False"
    ensures run == "null" ==> MapRuns(word, "", run, LITERALS) == "None"
    ensures run !in {"true", "false", "null"} ==> MapRuns(word, "", run, LITERALS) == run
  {
    LoneWord(word, run, LITERALS);
  }

  /** For one, the content of a string constant: `'true'` becomes `'True'`. */
  lemma QuotedLiteralIsRewritten(word: char -> bool)
    requires CountsLetters(word) && !word('\'')
    ensures MapRuns(word, "", "'true'", LITERALS) == "'True'"
  {
    var s := "'true'";
    assert s[0] == '\'' && s[1..] == "true" + "'";
    assert MapRuns(word, "", "", LITERALS) == "" == Renamed(LITERALS, "");
    assert MapRuns(word, "true", "'", LITERALS) == "True" + (['\''] + "");
    WordsJoinTheRun(word, "", "true", "'", LITERALS);
    assert "" + "true" == "true";
    assert MapRuns(word, "", s, LITERALS) == "" + (['\''] + MapRuns(word, "", s[1..], LITERALS));
  }
}
