/**
 * The filter of the stock table: the records for which every condition of
 * the current query holds, in their original order.  A record's metric is
 * looked up by the condition's parameter; a metric the record does not
 * carry is `undefined`, which compares like NaN.
 */
module StockTable {
  import opened Options
  import opened JsNumber
  import opened Catalog
  import opened QueryBuilder

  /** One row of the loaded data: the ticker and the metrics it carries. */
  datatype Stock = Stock(name: string, metrics: map<Field, Num>)

  /** `stock[parameter]` as a number: a missing metric, or a parameter that
      names no metric, reads as `undefined`, i.e. NaN. */
  function ValueOf(stock: Stock, parameter: string): (r: Num)
    ensures FieldOf(parameter).None? ==> r.NaN?
    ensures FieldOf(parameter).Some? && FieldOf(parameter).value !in stock.metrics ==> r.NaN?
    ensures FieldOf(parameter).Some? && FieldOf(parameter).value in stock.metrics ==>
      r == stock.metrics[FieldOf(parameter).value]
  {
    match FieldOf(parameter)
    case None => NaN
    case Some(f) => if f in stock.metrics then stock.metrics[f] else NaN
  }

  /** `stock[parameter]` looks up the metric the parameter names: a metric's
      name reads that metric (NaN when the record does not carry it), and a
      parameter outside the `parameters` table reads NaN. */
  lemma ValueOfByName(stock: Stock, parameter: string)
    ensures forall f :: parameter == FieldName(f) ==>
      ValueOf(stock, parameter) == (if f in stock.metrics then stock.metrics[f] else NaN)
    ensures !Listed(Parameters, parameter) ==> ValueOf(stock, parameter).NaN?
  {
    ParametersAreFields(parameter);
    forall f | parameter == FieldName(f)
      ensures ValueOf(stock, parameter) == (if f in stock.metrics then stock.metrics[f] else NaN)
    {
      FieldNameRoundTrip(f);
    }
  }

  /** The `switch` on the operator: strict `>` and `<`, `=` within the
      tolerance, and any other operator passes. */
  predicate Holds(stock: Stock, c: Condition) {
    var stockValue := ValueOf(stock, c.parameter);
    var queryValue := c.value;
    if c.operator == ">" then Greater(stockValue, queryValue)
    else if c.operator == "<" then Less(stockValue, queryValue)
    else if c.operator == "=" then Near(stockValue, queryValue)
    else true
  }

  /** `queryConditions.every(...)`. */
  predicate Every(stock: Stock, conditions: seq<Condition>) {
    forall i :: 0 <= i < |conditions| ==> Holds(stock, conditions[i])
  }

  /** `data.filter(stock => queryConditions.every(...))`. */
  function Matching(data: seq<Stock>, conditions: seq<Condition>): (r: seq<Stock>)
    ensures |r| <= |data|
    ensures forall s :: s in r <==> s in data && Every(s, conditions)
  {
    if data == [] then []
    else if Every(data[0], conditions) then [data[0]] + Matching(data[1..], conditions)
    else Matching(data[1..], conditions)
  }

  /** The conditions the table was given, with an absent list read as none. */
  function ConditionsOf(query: Option<seq<Condition>>): seq<Condition> {
    if query.None? then [] else query.value
  }

  /** `filteredData`: all the data when there are no conditions, and the
      matching records otherwise. */
  function FilteredData(data: seq<Stock>, query: Option<seq<Condition>>): (r: seq<Stock>)
    ensures ConditionsOf(query) == [] ==> r == data
    ensures forall s :: s in r <==> s in data && Every(s, ConditionsOf(query))
  {
    if query.None? || |query.value| == 0 then data
    else Matching(data, query.value)
  }

  // -----------------------------------------------------------------------
  // Properties

  /** `a` is `b` with some elements left out, the rest in their order. */
  predicate SubsequenceOf<T(==)>(a: seq<T>, b: seq<T>)
    decreases |b|
  {
    a == [] || (b != [] && ((a[0] == b[0] && SubsequenceOf(a[1..], b[1..])) || SubsequenceOf(a, b[1..])))
  }

  /** The filter adds, duplicates and reorders nothing: its result is a
      subsequence of the data, and each record occurs in it as often as in the
      data if it matches, and not at all otherwise. */
  lemma {:induction false} MatchingIsSubsequence(data: seq<Stock>, conditions: seq<Condition>)
    ensures SubsequenceOf(Matching(data, conditions), data)
    ensures forall s ::
      multiset(Matching(data, conditions))[s] == (if Every(s, conditions) then multiset(data)[s] else 0)
    decreases |data|
  {
    if data != [] {
      MatchingIsSubsequence(data[1..], conditions);
      assert data == [data[0]] + data[1..];
      var r := Matching(data, conditions);
      if Every(data[0], conditions) {
        assert r[0] == data[0] && r[1..] == Matching(data[1..], conditions);
      }
    }
  }

  lemma {:induction false} SubsequenceTail<T>(a: seq<T>, b: seq<T>)
    requires SubsequenceOf(a, b)
    ensures |a| <= |b|
    decreases |b|
  {
    if a != [] {
      if a[0] == b[0] && SubsequenceOf(a[1..], b[1..]) {
        SubsequenceTail(a[1..], b[1..]);
      } else {
        SubsequenceTail(a, b[1..]);
      }
    }
  }

  /** Filtering by `cs + [c]` is filtering by `cs` and then by `c`. */
  lemma {:induction false} MatchingAppend(data: seq<Stock>, cs: seq<Condition>, c: Condition)
    ensures Matching(data, cs + [c]) == Matching(Matching(data, cs), [c])
    decreases |data|
  {
    if data != [] {
      MatchingAppend(data[1..], cs, c);
      EveryAppend(data[0], cs, c);
      var m := Matching(data, cs);
      if Every(data[0], cs) {
        assert m[0] == data[0] && m[1..] == Matching(data[1..], cs);
      }
    }
  }

  lemma EveryAppend(s: Stock, cs: seq<Condition>, c: Condition)
    ensures Every(s, cs + [c]) <==> Every(s, cs) && Holds(s, c)
  {
    if Every(s, cs) && Holds(s, c) {
      forall i | 0 <= i < |cs + [c]| ensures Holds(s, (cs + [c])[i]) {
        if i < |cs| { assert (cs + [c])[i] == cs[i]; }
      }
    }
    if Every(s, cs + [c]) {
      forall i | 0 <= i < |cs| ensures Holds(s, cs[i]) {
        assert (cs + [c])[i] == cs[i];
      }
      assert (cs + [c])[|cs|] == c;
    }
  }

  /** Adding a condition never lets more records through: the result shrinks
      to a subsequence of the previous one. */
  lemma Monotone(data: seq<Stock>, cs: seq<Condition>, c: Condition)
    ensures SubsequenceOf(FilteredData(data, Some(cs + [c])), FilteredData(data, Some(cs)))
    ensures |FilteredData(data, Some(cs + [c]))| <= |FilteredData(data, Some(cs))|
  {
    var before := FilteredData(data, Some(cs));
    var after := FilteredData(data, Some(cs + [c]));
    if cs == [] {
      assert cs + [c] == [c];
      MatchingIsSubsequence(data, [c]);
    } else {
      MatchingAppend(data, cs, c);
      MatchingIsSubsequence(before, [c]);
    }
    SubsequenceTail(after, before);
  }

  /** `>` and `<` are strict: a value equal to the query value passes
      neither. */
  lemma StrictComparisons(stock: Stock, parameter: string, v: Num)
    requires ValueOf(stock, parameter) == v
    ensures !Holds(stock, Condition(parameter, ">", v))
    ensures !Holds(stock, Condition(parameter, "<", v))
  {
    LessIsStrictOrder(v, v, v);
  }

  /** `=` holds exactly when the record's value and the query value are both
      finite and less than 0.0001 apart. */
  lemma EqualWithinTolerance(stock: Stock, parameter: string, v: Num)
    ensures Holds(stock, Condition(parameter, "=", v)) <==>
      var x := ValueOf(stock, parameter);
      x.Finite? && v.Finite? && -0.0001 < x.v - v.v < 0.0001
  {
    NearIff(ValueOf(stock, parameter), v);
  }

  /** A record with no usable value for the condition's metric (NaN, not
      carried, or not a metric at all) fails every listed operator. */
  lemma MissingValueFails(stock: Stock, c: Condition)
    requires ValueOf(stock, c.parameter).NaN?
    requires Listed(Operators, c.operator)
    ensures !Holds(stock, c)
  {
    OperatorsAreOps(c.operator);
  }

  /** An operator outside the table is no restriction. */
  lemma UnknownOperatorPasses(stock: Stock, c: Condition)
    requires !Listed(Operators, c.operator)
    ensures Holds(stock, c)
  {
    OperatorsAreOps(c.operator);
  }

  // -----------------------------------------------------------------------
  // Examples

  /** `10.00005` is equal to `10` within the tolerance; `10` is not equal to
      `10.001`. */
  lemma ToleranceExamples(stock: Stock)
    requires stock.metrics == map[Roe := Finite(10.00005)] || stock.metrics == map[Roe := Finite(10.0)]
    ensures stock.metrics[Roe] == Finite(10.00005) ==> Holds(stock, Condition("roe", "=", Finite(10.0)))
    ensures stock.metrics[Roe] == Finite(10.0) ==> !Holds(stock, Condition("roe", "=", Finite(10.001)))
  {
    EqualWithinTolerance(stock, "roe", Finite(10.0));
    EqualWithinTolerance(stock, "roe", Finite(10.001));
  }

  /** Of A (market cap 600) and B (market cap 300), only A has a market cap
      above 500. */
  lemma MarketCapExample(a: Stock, b: Stock)
    requires a == Stock("A", map[MarketCap := Finite(600.0)]) && b == Stock("B", map[MarketCap := Finite(300.0)])
    ensures FilteredData([a, b], Some([Condition("marketCap", ">", Finite(500.0))])) == [a]
  {
    var cs := [Condition("marketCap", ">", Finite(500.0))];
    assert Every(a, cs);
    assert !Every(b, cs) by {
      assert !Holds(b, cs[0]);
    }
    assert [a, b][1..] == [b] && [b][1..] == [];
    assert Matching([b], cs) == [];
    assert Matching([a, b], cs) == [a] + Matching([b], cs);
  }

  /** A record whose P/E ratio is NaN is not kept by `peRatio < 15`. */
  lemma NaNExcluded(data: seq<Stock>, s: Stock)
    requires s in data && PeRatio in s.metrics && s.metrics[PeRatio] == NaN
    ensures s !in FilteredData(data, Some([Condition("peRatio", "<", Finite(15.0))]))
  {
    var c := Condition("peRatio", "<", Finite(15.0));
    OperatorsAreOps("<");
    assert ValueOf(s, "peRatio").NaN?;
    MissingValueFails(s, c);
    assert [c][0] == c && !Every(s, [c]);
  }
}
