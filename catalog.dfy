/**
 * The two static tables of the query builder: the comparison operators and
 * the nine stock metrics a query may name.  Each entry has the token a
 * query uses (`value`) and a display title.  `Field` and `Op` are the typed
 * views of the two tables.
 */
module Catalog {
  import opened Options

  datatype Entry = Entry(value: string, title: string)

  /** The `operators` table. */
  const Operators: seq<Entry> := [
    Entry(">", "Greater than"),
    Entry("<", "Less than"),
    Entry("=", "Equal to")
  ]

  /** The `parameters` table. */
  const Parameters: seq<Entry> := [
    Entry("marketCap", "Market Capitalization (B)"),
    Entry("peRatio", "P/E Ratio"),
    Entry("roe", "ROE (%)"),
    Entry("debtToEquity", "Debt-to-Equity Ratio"),
    Entry("dividendYield", "Dividend Yield (%)"),
    Entry("revenueGrowth", "Revenue Growth (%)"),
    Entry("epsGrowth", "EPS Growth (%)"),
    Entry("currentRatio", "Current Ratio"),
    Entry("grossMargin", "Gross Margin (%)")
  ]

  /** `table.some(e => e.value === token)`. */
  predicate Listed(table: seq<Entry>, token: string) {
    exists i :: 0 <= i < |table| && table[i].value == token
  }

  /** The nine metrics, in the order of the `parameters` table. */
  datatype Field =
    | MarketCap | PeRatio | Roe | DebtToEquity | DividendYield
    | RevenueGrowth | EpsGrowth | CurrentRatio | GrossMargin

  /** The three comparisons, in the order of the `operators` table. */
  datatype Op = Gt | Lt | Eq

  function FieldName(f: Field): string {
    match f
    case MarketCap => "marketCap"
    case PeRatio => "peRatio"
    case Roe => "roe"
    case DebtToEquity => "debtToEquity"
    case DividendYield => "dividendYield"
    case RevenueGrowth => "revenueGrowth"
    case EpsGrowth => "epsGrowth"
    case CurrentRatio => "currentRatio"
    case GrossMargin => "grossMargin"
  }

  function Symbol(o: Op): string {
    match o
    case Gt => ">"
    case Lt => "<"
    case Eq => "="
  }

  /** The metric a parameter token names, if any (exact, case-sensitive). */
  function FieldOf(token: string): (r: Option<Field>)
    ensures r.Some? ==> FieldName(r.value) == token
  {
    if token == "marketCap" then Some(MarketCap)
    else if token == "peRatio" then Some(PeRatio)
    else if token == "roe" then Some(Roe)
    else if token == "debtToEquity" then Some(DebtToEquity)
    else if token == "dividendYield" then Some(DividendYield)
    else if token == "revenueGrowth" then Some(RevenueGrowth)
    else if token == "epsGrowth" then Some(EpsGrowth)
    else if token == "currentRatio" then Some(CurrentRatio)
    else if token == "grossMargin" then Some(GrossMargin)
    else None
  }

  /** The comparison an operator token names, if any (exact match). */
  function OpOf(token: string): (r: Option<Op>)
    ensures r.Some? ==> Symbol(r.value) == token
  {
    if token == ">" then Some(Gt)
    else if token == "<" then Some(Lt)
    else if token == "=" then Some(Eq)
    else None
  }

  /** The `parameters` table lists exactly the names of the nine metrics,
      one entry per metric, so `FieldOf` decides membership in it. */
  lemma ParametersAreFields(token: string)
    ensures |Parameters| == 9
    ensures forall i :: 0 <= i < 9 ==> FieldOf(Parameters[i].value).Some?
    ensures Listed(Parameters, token) <==> FieldOf(token).Some?
  {
    if FieldOf(token).Some? {
      var f := FieldOf(token).value;
      match f
      case MarketCap => assert Parameters[0].value == token;
      case PeRatio => assert Parameters[1].value == token;
      case Roe => assert Parameters[2].value == token;
      case DebtToEquity => assert Parameters[3].value == token;
      case DividendYield => assert Parameters[4].value == token;
      case RevenueGrowth => assert Parameters[5].value == token;
      case EpsGrowth => assert Parameters[6].value == token;
      case CurrentRatio => assert Parameters[7].value == token;
      case GrossMargin => assert Parameters[8].value == token;
    }
  }

  /** Every metric name is read back as that metric. */
  lemma FieldNameRoundTrip(f: Field)
    ensures FieldOf(FieldName(f)) == Some(f)
  {
  }

  /** The `operators` table lists exactly the three symbols `>`, `<`, `=`. */
  lemma OperatorsAreOps(token: string)
    ensures |Operators| == 3
    ensures Listed(Operators, token) <==> OpOf(token).Some?
    ensures Listed(Operators, token) <==> token == ">" || token == "<" || token == "="
  {
    if token == ">" { assert Operators[0].value == token; }
    if token == "<" { assert Operators[1].value == token; }
    if token == "=" { assert Operators[2].value == token; }
  }

  lemma SymbolRoundTrip(o: Op)
    ensures OpOf(Symbol(o)) == Some(o)
  {
  }
}
