/**
 * The query parser of the query builder: raw query text to the list of
 * conditions handed to the stock table.  The text is cut into clauses at
 * every `AND` (any letter case), each clause into whitespace-separated
 * tokens; a clause of exactly three tokens becomes a condition, which is kept
 * only if its parameter and operator are listed in the catalogs and its value
 * is not NaN.  `parseFloat` is a parameter of the model.
 */
module QueryBuilder {
  import opened Options
  import opened JsNumber
  import opened Catalog
  import opened Lexer

  /** A condition as the parser builds it: the raw parameter and operator
      tokens and the parsed value. */
  datatype Condition = Condition(parameter: string, operator: string, value: Num)

  /** The filter test on a built condition: the parameter and the operator
      are listed and the value is not NaN. */
  predicate Accepted(c: Condition) {
    Listed(Parameters, c.parameter) && Listed(Operators, c.operator) && !c.value.NaN?
  }

  /** The second `map`: a clause's tokens to a condition, or `null` unless
      there are exactly three tokens. */
  function Build(parseFloat: string -> Num, parts: seq<string>): Option<Condition> {
    if |parts| != 3 then None
    else Some(Condition(Trim(parts[0]), Trim(parts[1]), parseFloat(Trim(parts[2]))))
  }

  /** The final `filter`: drops the nulls and the conditions not accepted. */
  function KeepAccepted(built: seq<Option<Condition>>): (r: seq<Condition>)
    ensures |r| <= |built|
    ensures forall i :: 0 <= i < |r| ==> Accepted(r[i])
  {
    if built == [] then []
    else if built[0].Some? && Accepted(built[0].value) then [built[0].value] + KeepAccepted(built[1..])
    else KeepAccepted(built[1..])
  }

  /** `handleQueryTextChange`: split into clauses, tokenise each clause,
      build a condition from each, keep the accepted ones. */
  function ParseQuery(parseFloat: string -> Num, text: string): (r: seq<Condition>)
    ensures |r| <= |SplitAnd(text)|
    ensures forall i :: 0 <= i < |r| ==>
      Listed(Parameters, r[i].parameter) && Listed(Operators, r[i].operator) && !r[i].value.NaN?
  {
    var chunks := SplitAnd(text);
    var parts := seq(|chunks|, i requires 0 <= i < |chunks| => Tokens(chunks[i]));
    var built := seq(|parts|, i requires 0 <= i < |parts| => Build(parseFloat, parts[i]));
    KeepAccepted(built)
  }

  // -----------------------------------------------------------------------
  // A clause-by-clause reference definition

  /** What one clause contributes: one condition when its tokens are exactly
      a listed parameter, a listed operator and a value that is not NaN, and
      nothing otherwise. */
  function Clause(parseFloat: string -> Num, chunk: string): seq<Condition> {
    var t := Tokens(chunk);
    if |t| == 3 && FieldOf(t[0]).Some? && OpOf(t[1]).Some? && !parseFloat(t[2]).NaN? then
      [Condition(t[0], t[1], parseFloat(t[2]))]
    else []
  }

  /** The clauses' contributions, concatenated in order. */
  function Clauses(parseFloat: string -> Num, chunks: seq<string>): seq<Condition> {
    if chunks == [] then [] else Clause(parseFloat, chunks[0]) + Clauses(parseFloat, chunks[1..])
  }

  // Building from a clause's tokens and then filtering contributes exactly
  // the clause's reference result.
  lemma BuildThenKeep(parseFloat: string -> Num, chunk: string)
    ensures KeepAccepted([Build(parseFloat, Tokens(chunk))]) == Clause(parseFloat, chunk)
  {
    var t := Tokens(chunk);
    if |t| == 3 {
      TrimOfWord(t[0]);
      TrimOfWord(t[1]);
      TrimOfWord(t[2]);
      ParametersAreFields(t[0]);
      OperatorsAreOps(t[1]);
    }
  }

  // KeepAccepted distributes over concatenation.
  lemma {:induction false} KeepAcceptedAppend(u: seq<Option<Condition>>, v: seq<Option<Condition>>)
    ensures KeepAccepted(u + v) == KeepAccepted(u) + KeepAccepted(v)
    decreases |u|
  {
    if u != [] {
      assert (u + v)[0] == u[0] && (u + v)[1..] == u[1..] + v;
      KeepAcceptedAppend(u[1..], v);
    } else {
      assert u + v == v;
    }
  }

  function BuiltClauses(parseFloat: string -> Num, chunks: seq<string>): seq<Option<Condition>> {
    seq(|chunks|, i requires 0 <= i < |chunks| => Build(parseFloat, Tokens(chunks[i])))
  }

  lemma {:induction false} BuiltClausesAreClauses(parseFloat: string -> Num, chunks: seq<string>)
    ensures KeepAccepted(BuiltClauses(parseFloat, chunks)) == Clauses(parseFloat, chunks)
    decreases |chunks|
  {
    if chunks != [] {
      var b := BuiltClauses(parseFloat, chunks);
      assert b == [b[0]] + BuiltClauses(parseFloat, chunks[1..]);
      KeepAcceptedAppend([b[0]], BuiltClauses(parseFloat, chunks[1..]));
      BuildThenKeep(parseFloat, chunks[0]);
      BuiltClausesAreClauses(parseFloat, chunks[1..]);
    }
  }

  /** The parser's output is the in-order concatenation of what each
      `AND`-separated clause contributes. */
  lemma ParseIsClauses(parseFloat: string -> Num, text: string)
    ensures ParseQuery(parseFloat, text) == Clauses(parseFloat, SplitAnd(text))
  {
    var chunks := SplitAnd(text);
    var parts := seq(|chunks|, i requires 0 <= i < |chunks| => Tokens(chunks[i]));
    var built := seq(|parts|, i requires 0 <= i < |parts| => Build(parseFloat, parts[i]));
    assert built == BuiltClauses(parseFloat, chunks);
    BuiltClausesAreClauses(parseFloat, chunks);
  }

  /** A clause yields a condition exactly when it splits into three tokens
      naming a listed parameter, a listed operator and a value that parses
      to something other than NaN; any other token count yields nothing. */
  lemma ClauseSpec(parseFloat: string -> Num, chunk: string)
    ensures |Clause(parseFloat, chunk)| <= 1
    ensures Clause(parseFloat, chunk) != [] <==>
      var t := Tokens(chunk);
      |t| == 3 && Listed(Parameters, t[0]) && Listed(Operators, t[1]) && !parseFloat(t[2]).NaN?
    ensures Clause(parseFloat, chunk) != [] ==>
      var t := Tokens(chunk);
      Clause(parseFloat, chunk)[0] == Condition(t[0], t[1], parseFloat(t[2]))
  {
    var t := Tokens(chunk);
    if |t| == 3 {
      ParametersAreFields(t[0]);
      OperatorsAreOps(t[1]);
    }
  }

  // -----------------------------------------------------------------------
  // Properties of the parser

  /** A clause that is followed by a separator contributes its condition
      first, and the rest of the text is parsed on its own; so conditions
      come out in the order of their clauses. */
  lemma ParseAtSeparator(parseFloat: string -> Num, x: string, sep: string, y: string)
    requires AndFree(x) && IsAnd(sep)
    ensures ParseQuery(parseFloat, x + sep + y) == Clause(parseFloat, x) + ParseQuery(parseFloat, y)
  {
    SplitAndAt(x, sep, y);
    ParseIsClauses(parseFloat, x + sep + y);
    ParseIsClauses(parseFloat, y);
    var chunks := [x] + SplitAnd(y);
    assert chunks[0] == x && chunks[1..] == SplitAnd(y);
  }

  /** The separator is case-insensitive: `and`, `And`, `aNd`, ... cut the text
      exactly where `AND` does. */
  lemma SeparatorCaseInsensitive(parseFloat: string -> Num, x: string, sep: string, y: string)
    requires AndFree(x) && IsAnd(sep)
    ensures ParseQuery(parseFloat, x + sep + y) == ParseQuery(parseFloat, x + "AND" + y)
  {
    ParseAtSeparator(parseFloat, x, sep, y);
    ParseAtSeparator(parseFloat, x, "AND", y);
  }

  /** Text without a separator is a single clause. */
  lemma ParseSingleClause(parseFloat: string -> Num, chunk: string)
    requires AndFree(chunk)
    ensures ParseQuery(parseFloat, chunk) == Clause(parseFloat, chunk)
  {
    SplitAndWhole(chunk);
    ParseIsClauses(parseFloat, chunk);
    assert [chunk][1..] == [];
  }

  /** Empty or whitespace-only text yields no conditions. */
  lemma ParseBlank(parseFloat: string -> Num, text: string)
    requires AllSpace(text)
    ensures ParseQuery(parseFloat, text) == []
  {
    BlankIsAndFree(text);
    ParseSingleClause(parseFloat, text);
    TokensOfBlank(text);
  }

  /** The condition a clause of three padded words yields. */
  lemma ClauseOfWords(parseFloat: string -> Num, chunk: string, pre: string, p: string, o: string, v: string, post: string)
    requires chunk == pre + p + " " + o + " " + v + post
    requires AllSpace(pre) && AllSpace(post)
    requires p != [] && SpaceFree(p) && o != [] && SpaceFree(o) && v != [] && SpaceFree(v)
    ensures Tokens(chunk) == [p, o, v]
    ensures Clause(parseFloat, chunk) ==
      if FieldOf(p).Some? && OpOf(o).Some? && !parseFloat(v).NaN? then [Condition(p, o, parseFloat(v))] else []
  {
    assert JoinSpaced([p, o, v]) == p + " " + o + " " + v by {
      assert [p, o, v][1..] == [o, v] && [o, v][1..] == [v];
      assert JoinSpaced([v]) == v;
      assert JoinSpaced([o, v]) == o + " " + v;
    }
    assert chunk == pre + JoinSpaced([p, o, v]) + post;
    TokensOfPadded(pre, [p, o, v], post);
  }

  /** Three separator-free words between blanks make a separator-free
      clause. */
  lemma ClauseAndFree(pre: string, p: string, o: string, v: string, post: string)
    requires AllSpace(pre) && AllSpace(post)
    requires AndFree(p) && AndFree(o) && AndFree(v)
    ensures AndFree(pre + p + " " + o + " " + v + post)
  {
    BlankIsAndFree(pre);
    BlankIsAndFree(post);
    BlankIsAndFree(" ");
    AndFreeJoin(pre, p);
    var t := pre + p;
    AndFreeJoin(t, " ");
    t := t + " ";
    AndFreeJoin(t, o);
    t := t + o;
    AndFreeJoin(t, " ");
    t := t + " ";
    AndFreeJoin(t, v);
    t := t + v;
    AndFreeJoin(t, post);
  }

  /** The catalog tokens are single words that contain no separator, so the
      `AND` split never cuts a parameter name. */
  lemma CatalogTokensAreWords(token: string)
    requires Listed(Parameters, token) || Listed(Operators, token)
    ensures token != [] && SpaceFree(token) && AndFree(token)
  {
    ParametersAreFields(token);
    OperatorsAreOps(token);
    if FieldOf(token).Some? {
      FieldNameIsWord(FieldOf(token).value);
    }
  }

  lemma FieldNameIsWord(f: Field)
    ensures FieldName(f) != [] && SpaceFree(FieldName(f)) && AndFree(FieldName(f))
  {
    match f
    case MarketCap | PeRatio | Roe => FirstNamesAreWords(FieldName(f));
    case DebtToEquity | DividendYield | RevenueGrowth => MiddleNamesAreWords(FieldName(f));
    case EpsGrowth | CurrentRatio | GrossMargin => LastNamesAreWords(FieldName(f));
  }

  // The nine names, three at a time, checked character by character.  They
  // sit in lemmas of their own to keep string literals out of the larger
  // proofs: next to a literal the solver unfolds the string functions on it
  // one character at a time.
  lemma FirstNamesAreWords(w: string)
    requires w == "marketCap" || w == "peRatio" || w == "roe"
    ensures w != [] && SpaceFree(w) && AndFree(w)
  {
  }

  lemma MiddleNamesAreWords(w: string)
    requires w == "debtToEquity" || w == "dividendYield" || w == "revenueGrowth"
    ensures w != [] && SpaceFree(w) && AndFree(w)
  {
  }

  lemma LastNamesAreWords(w: string)
    requires w == "epsGrowth" || w == "currentRatio" || w == "grossMargin"
    ensures w != [] && SpaceFree(w) && AndFree(w)
  {
  }

  // -----------------------------------------------------------------------
  // Re-serialisation

  /** A condition written back as text: `parameter operator value`. */
  function Render(show: Num -> string, c: Condition): string {
    c.parameter + " " + c.operator + " " + show(c.value)
  }

  /** A condition as one clause of re-serialised text. */
  function Padded(show: Num -> string, c: Condition): string {
    " " + Render(show, c) + " "
  }

  /** A query written back as text: its conditions joined with `AND`. */
  function Serialize(show: Num -> string, q: seq<Condition>): string {
    if q == [] then ""
    else if |q| == 1 then Padded(show, q[0])
    else Padded(show, q[0]) + "AND" + Serialize(show, q[1..])
  }

  /** `show` writes the value `v` as one word that `parseFloat` reads back. */
  predicate Shows(parseFloat: string -> Num, show: Num -> string, v: Num) {
    show(v) != [] && SpaceFree(show(v)) && AndFree(show(v)) && parseFloat(show(v)) == v
  }

  // A re-serialised accepted condition is one separator-free clause that
  // yields that condition again.
  lemma PaddedClause(parseFloat: string -> Num, show: Num -> string, c: Condition)
    requires Accepted(c) && Shows(parseFloat, show, c.value)
    ensures AndFree(Padded(show, c))
    ensures Clause(parseFloat, Padded(show, c)) == [c]
  {
    var p, o, v := c.parameter, c.operator, show(c.value);
    CatalogTokensAreWords(p);
    CatalogTokensAreWords(o);
    var chunk := Padded(show, c);
    assert chunk == " " + p + " " + o + " " + v + " ";
    ClauseOfWords(parseFloat, chunk, " ", p, o, v, " ");
    ParametersAreFields(p);
    OperatorsAreOps(o);
    ClauseAndFree(" ", p, o, v, " ");
  }

  /** Parsing is idempotent: a query the parser accepts, written back as text
      (with a `show` that `parseFloat` inverts), parses to the same query. */
  lemma {:induction false} ParseSerialize(parseFloat: string -> Num, show: Num -> string, q: seq<Condition>)
    requires forall i :: 0 <= i < |q| ==> Accepted(q[i]) && Shows(parseFloat, show, q[i].value)
    ensures ParseQuery(parseFloat, Serialize(show, q)) == q
    decreases |q|
  {
    if q == [] {
      ParseBlank(parseFloat, "");
    } else {
      PaddedClause(parseFloat, show, q[0]);
      if |q| == 1 {
        ParseSingleClause(parseFloat, Padded(show, q[0]));
      } else {
        ParseAtSeparator(parseFloat, Padded(show, q[0]), "AND", Serialize(show, q[1..]));
        ParseSerialize(parseFloat, show, q[1..]);
        assert q == [q[0]] + q[1..];
      }
    }
  }
}
