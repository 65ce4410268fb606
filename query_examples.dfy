/**
 * The parser on concrete texts: the example query the query builder shows
 * its users, a clause with too few tokens, an unknown operator, and a value
 * of `Infinity`.  Each text is given as its clauses (and separators), and
 * `parseFloat` is pinned down only on the value tokens that occur.
 */
module QueryExamples {
  import opened JsNumber
  import opened Catalog
  import opened Lexer
  import opened QueryBuilder

  /** Three separator-free clauses around two separators. */
  lemma ThreeClauses(parseFloat: string -> Num, x1: string, s1: string, x2: string, s2: string, x3: string)
    requires AndFree(x1) && AndFree(x2) && AndFree(x3) && IsAnd(s1) && IsAnd(s2)
    ensures ParseQuery(parseFloat, x1 + s1 + x2 + s2 + x3) ==
      Clause(parseFloat, x1) + Clause(parseFloat, x2) + Clause(parseFloat, x3)
  {
    assert x1 + s1 + x2 + s2 + x3 == x1 + s1 + (x2 + s2 + x3);
    ParseAtSeparator(parseFloat, x1, s1, x2 + s2 + x3);
    ParseAtSeparator(parseFloat, x2, s2, x3);
    ParseSingleClause(parseFloat, x3);
  }

  /** Three clauses that each yield one condition yield the three, in order. */
  lemma ThreeConditions(parseFloat: string -> Num, x1: string, sep: string, x2: string, x3: string, r1: Condition, r2: Condition, r3: Condition)
    requires AndFree(x1) && AndFree(x2) && AndFree(x3) && IsAnd(sep)
    requires Clause(parseFloat, x1) == [r1] && Clause(parseFloat, x2) == [r2] && Clause(parseFloat, x3) == [r3]
    ensures ParseQuery(parseFloat, x1 + sep + x2 + sep + x3) == [r1, r2, r3]
  {
    ThreeClauses(parseFloat, x1, sep, x2, sep, x3);
    SingletonsJoin(r1, r2, r3);
  }

  /** A word as the parser sees it: non-empty, without whitespace and
      without a separator. */
  predicate Word(w: string) {
    w != [] && SpaceFree(w) && AndFree(w)
  }

  /** Three words between blanks: a separator-free clause that yields its
      condition exactly when the words are accepted. */
  lemma PaddedWords(parseFloat: string -> Num, c: string, pre: string, p: string, o: string, v: string, post: string)
    requires c == pre + p + " " + o + " " + v + post
    requires AllSpace(pre) && AllSpace(post) && Word(p) && Word(o) && Word(v)
    ensures AndFree(c)
    ensures Clause(parseFloat, c) ==
      if FieldOf(p).Some? && OpOf(o).Some? && !parseFloat(v).NaN? then [Condition(p, o, parseFloat(v))] else []
  {
    ClauseOfWords(parseFloat, c, pre, p, o, v, post);
    ClauseAndFree(pre, p, o, v, post);
  }

  // The word facts below, and the singleton join, sit in lemmas of their
  // own to keep string literals and sequence displays out of the larger
  // proofs, where the solver would otherwise unfold them repeatedly.
  lemma NameWords(f: Field)
    ensures Word(FieldName(f))
  {
    FieldNameIsWord(f);
  }

  // The other words of the examples, checked character by character.
  lemma OperatorWords(w: string)
    requires w == ">" || w == "<" || w == ">>"
    ensures Word(w)
  {
  }

  lemma ValueWords(w: string)
    requires w == "500" || w == "15" || w == "20" || w == "Infinity" || w == "bogus"
    ensures Word(w)
  {
  }

  lemma SingletonsJoin(r1: Condition, r2: Condition, r3: Condition)
    ensures [r1] + [r2] + [r3] == [r1, r2, r3]
  {
  }

  // The three lines of the example query, one clause each.
  lemma ExampleLine1(parseFloat: string -> Num, c: string)
    requires c == "marketCap > 500 " && parseFloat("500") == Finite(500.0)
    ensures AndFree(c) && Clause(parseFloat, c) == [Condition("marketCap", ">", Finite(500.0))]
  {
    assert c == "" + "marketCap" + " " + ">" + " " + "500" + " ";
    NameWords(MarketCap);
    OperatorWords(">");
    ValueWords("500");
    PaddedWords(parseFloat, c, "", "marketCap", ">", "500", " ");
  }

  // The second and third lines, after the line break that precedes them
  // (or, with the query typed on one line, after a space).
  lemma ExampleLine2(parseFloat: string -> Num, brk: string, line: string)
    requires (brk == "\n" || brk == " ") && line == "peRatio < 15 " && parseFloat("15") == Finite(15.0)
    ensures AndFree(brk + line) && Clause(parseFloat, brk + line) == [Condition("peRatio", "<", Finite(15.0))]
  {
    assert brk + line == brk + "peRatio" + " " + "<" + " " + "15" + " ";
    NameWords(PeRatio);
    OperatorWords("<");
    ValueWords("15");
    PaddedWords(parseFloat, brk + line, brk, "peRatio", "<", "15", " ");
  }

  lemma ExampleLine3(parseFloat: string -> Num, brk: string, line: string)
    requires (brk == "\n" || brk == " ") && line == "roe > 20" && parseFloat("20") == Finite(20.0)
    ensures AndFree(brk + line) && Clause(parseFloat, brk + line) == [Condition("roe", ">", Finite(20.0))]
  {
    assert brk + line == brk + "roe" + " " + ">" + " " + "20" + "";
    NameWords(Roe);
    OperatorWords(">");
    ValueWords("20");
    PaddedWords(parseFloat, brk + line, brk, "roe", ">", "20", "");
  }

  /** Three lines joined by `AND` and a break: the lines after the first
      start with that break. */
  lemma Regroup(l1: string, sep: string, brk: string, l2: string, l3: string)
    ensures l1 + (sep + brk) + l2 + (sep + brk) + l3 == l1 + sep + (brk + l2) + sep + (brk + l3)
  {
  }

  /** The example query `marketCap > 500 AND\npeRatio < 15 AND\nroe > 20`
      yields its three conditions, in order. */
  lemma ExampleQuery(parseFloat: string -> Num, l1: string, l2: string, l3: string)
    requires l1 == "marketCap > 500 " && l2 == "peRatio < 15 " && l3 == "roe > 20"
    requires parseFloat("500") == Finite(500.0) && parseFloat("15") == Finite(15.0) && parseFloat("20") == Finite(20.0)
    ensures ParseQuery(parseFloat, l1 + "AND\n" + l2 + "AND\n" + l3) ==
      [Condition("marketCap", ">", Finite(500.0)), Condition("peRatio", "<", Finite(15.0)), Condition("roe", ">", Finite(20.0))]
  {
    ExampleLine1(parseFloat, l1);
    ExampleLine2(parseFloat, "\n", l2);
    ExampleLine3(parseFloat, "\n", l3);
    assert IsAnd("AND") && "AND\n" == "AND" + "\n";
    Regroup(l1, "AND", "\n", l2, l3);
    ThreeConditions(parseFloat, l1, "AND", "\n" + l2, "\n" + l3, Condition("marketCap", ">", Finite(500.0)),
      Condition("peRatio", "<", Finite(15.0)), Condition("roe", ">", Finite(20.0)));
  }

  /** `marketCap > 500 AND peRatio < 15 AND roe > 20` on one line yields the
      same three conditions. */
  lemma OneLineQuery(parseFloat: string -> Num, l1: string, l2: string, l3: string)
    requires l1 == "marketCap > 500 " && l2 == "peRatio < 15 " && l3 == "roe > 20"
    requires parseFloat("500") == Finite(500.0) && parseFloat("15") == Finite(15.0) && parseFloat("20") == Finite(20.0)
    ensures ParseQuery(parseFloat, l1 + "AND " + l2 + "AND " + l3) ==
      [Condition("marketCap", ">", Finite(500.0)), Condition("peRatio", "<", Finite(15.0)), Condition("roe", ">", Finite(20.0))]
  {
    ExampleLine1(parseFloat, l1);
    ExampleLine2(parseFloat, " ", l2);
    ExampleLine3(parseFloat, " ", l3);
    assert IsAnd("AND") && "AND " == "AND" + " ";
    Regroup(l1, "AND", " ", l2, l3);
    ThreeConditions(parseFloat, l1, "AND", " " + l2, " " + l3, Condition("marketCap", ">", Finite(500.0)),
      Condition("peRatio", "<", Finite(15.0)), Condition("roe", ">", Finite(20.0)));
  }

  /** A single padded word: a separator-free clause that yields nothing. */
  lemma PaddedWord(parseFloat: string -> Num, c: string, pre: string, w: string, post: string)
    requires c == pre + w + post && AllSpace(pre) && AllSpace(post) && Word(w)
    ensures AndFree(c) && Clause(parseFloat, c) == []
  {
    assert c == pre + JoinSpaced([w]) + post;
    TokensOfPadded(pre, [w], post);
    BlankIsAndFree(pre);
    BlankIsAndFree(post);
    AndFreeJoin(pre, w);
    AndFreeJoin(pre + w, post);
  }

  /** A clause that yields one condition, a separator, and a clause that
      yields nothing. */
  lemma ConditionThenNothing(parseFloat: string -> Num, x1: string, sep: string, x2: string, r1: Condition)
    requires AndFree(x1) && AndFree(x2) && IsAnd(sep)
    requires Clause(parseFloat, x1) == [r1] && Clause(parseFloat, x2) == []
    ensures ParseQuery(parseFloat, x1 + sep + x2) == [r1]
  {
    ParseAtSeparator(parseFloat, x1, sep, x2);
    ParseSingleClause(parseFloat, x2);
  }

  /** `marketCap > 500 AND bogus`: the one-token clause is dropped and the
      first clause alone remains. */
  lemma TooFewTokens(parseFloat: string -> Num, c1: string, c2: string)
    requires c1 == "marketCap > 500 " && c2 == " bogus" && parseFloat("500") == Finite(500.0)
    ensures ParseQuery(parseFloat, c1 + "AND" + c2) == [Condition("marketCap", ">", Finite(500.0))]
  {
    ExampleLine1(parseFloat, c1);
    assert c2 == " " + "bogus" + "";
    ValueWords("bogus");
    PaddedWord(parseFloat, c2, " ", "bogus", "");
    assert IsAnd("AND");
    ConditionThenNothing(parseFloat, c1, "AND", c2, Condition("marketCap", ">", Finite(500.0)));
  }

  /** `marketCap >> 500`: `>>` is not a listed operator, so nothing is kept. */
  lemma UnknownOperator(parseFloat: string -> Num, text: string)
    requires text == "marketCap >> 500"
    ensures ParseQuery(parseFloat, text) == []
  {
    assert text == "" + "marketCap" + " " + ">>" + " " + "500" + "";
    NameWords(MarketCap);
    OperatorWords(">>");
    ValueWords("500");
    PaddedWords(parseFloat, text, "", "marketCap", ">>", "500", "");
    ParseSingleClause(parseFloat, text);
  }

  /** Only NaN is refused: a value that parses to `Infinity` is kept. */
  lemma InfinityAccepted(parseFloat: string -> Num, text: string)
    requires text == "roe > Infinity" && parseFloat("Infinity") == PosInf
    ensures ParseQuery(parseFloat, text) == [Condition("roe", ">", PosInf)]
  {
    assert text == "" + "roe" + " " + ">" + " " + "Infinity" + "";
    NameWords(Roe);
    OperatorWords(">");
    ValueWords("Infinity");
    PaddedWords(parseFloat, text, "", "roe", ">", "Infinity", "");
    ParseSingleClause(parseFloat, text);
  }
}
