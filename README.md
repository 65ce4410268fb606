# Stock screener query language, modelled in Dafny

The screener lets a user type a query such as

```
marketCap > 500 AND
peRatio < 15 AND
roe > 20
```

and shows only the stocks that satisfy every clause. Two pure pieces of the
front end do the work, and this project models both of them:

- **The query parser** (`handleQueryTextChange` in the query builder). It
  splits the text at every `AND`, in any letter case. It splits each clause
  into whitespace-separated tokens. It builds a condition from each clause of
  exactly three tokens. It keeps a condition only if its parameter is in the
  `parameters` table, its operator is in the `operators` table and its value
  is not NaN.
- **The filter** (`filteredData` in the stock table). With no conditions it
  returns all the data. Otherwise it keeps, in their order, the records for
  which every condition holds. `>` and `<` are strict JavaScript comparisons.
  `=` means "less than 0.0001 apart". Any other operator passes.

Modules:

| file | module | contents |
|---|---|---|
| `options.dfy` | `Options` | the `Option` type (an absent conditions list) |
| `js_number.dfy` | `JsNumber` | JavaScript numbers: finite reals, the two infinities and NaN; `<`, `>`, `-`, `Math.abs` and the tolerance test |
| `catalog.dfy` | `Catalog` | the `operators` and `parameters` tables, and typed views `Op` and `Field` of them |
| `lexer.dfy` | `Lexer` | `split(/\s+/)`, `filter(Boolean)`, `trim` and `split(/AND/i)` on strings |
| `query_builder.dfy` | `QueryBuilder` | the parse pipeline, a clause-by-clause reference definition, and the parser's properties |
| `query_examples.dfy` | `QueryExamples` | the parser on the example query and on malformed clauses |
| `stock_table.dfy` | `StockTable` | records, the condition test and `filteredData`, and the filter's properties |

Modelling choices:

- `parseFloat` is a parameter, `parseFloat: string -> Num`. The parser's
  properties hold for every such function. The examples fix only the values
  they need, for instance `parseFloat("500") == Finite(500.0)`.
- A condition keeps the raw parameter and operator tokens, as the JavaScript
  object does. So the filter's `default: return true` branch stays
  reachable.
- A record is a ticker plus a map from `Field` to `Num`. A missing metric
  reads as `undefined`, which behaves like NaN in every comparison.
- Infinite values are ordinary numbers to the code:
  - The parser refuses only NaN (`!isNaN`), so a value of `Infinity` is
    kept (`QueryExamples.InfinityAccepted`).
  - A record value of `Infinity` passes `> 500`, because `>` is plain
    JavaScript comparison (`JsNumber.LessOnExtendedReals`).

## Model

| member | source | states |
|---|---|---|
| Catalog.Listed | src/components/QueryBuilder.jsx:64-65 | `table.some(e => e.value === token)`: some entry of the table has the token as its value |
| Catalog.ParametersAreFields | src/components/QueryBuilder.jsx:9-19 | the parameters table has nine entries, one per metric, so a token is listed exactly when it names a metric |
| Catalog.FieldOf | src/components/QueryBuilder.jsx:9-19 | a token that is read as a metric is that metric's name |
| Catalog.FieldNameRoundTrip | src/components/QueryBuilder.jsx:9-19 | every metric's name is read back as that metric |
| Catalog.OperatorsAreOps | src/components/QueryBuilder.jsx:3-7 | the operators table has three entries; a token is listed exactly when it is `>`, `<` or `=` |
| Catalog.OpOf | src/components/QueryBuilder.jsx:3-7 | a token that is read as an operator is that operator's symbol |
| Catalog.SymbolRoundTrip | src/components/QueryBuilder.jsx:3-7 | every operator's symbol is read back as that operator |
| JsNumber.Less | src/components/StockTable.jsx:57-59 | JavaScript `<` on numbers: false whenever either side is NaN, the order of the reals on finite numbers, with the infinities at the ends; its properties are `LessIsStrictOrder` and `LessOnExtendedReals` |
| JsNumber.Greater | src/components/StockTable.jsx:56-57 | JavaScript `>`, which is `<` with the operands swapped |
| JsNumber.Sub | src/components/StockTable.jsx:61 | JavaScript `-`: NaN propagates, finite numbers subtract exactly, `Infinity - Infinity` is NaN, and otherwise the infinite operand decides the sign |
| JsNumber.Abs | src/components/StockTable.jsx:61 | `Math.abs`: NaN stays NaN, both infinities become `Infinity`, a finite number loses its sign |
| JsNumber.Near | src/components/StockTable.jsx:60-61 | the `=` test `Math.abs(stockValue - queryValue) < 0.0001`; `NearIff` characterises it |
| JsNumber.LessIsStrictOrder | src/components/StockTable.jsx:56-59 | JavaScript `<` is irreflexive, asymmetric and transitive, is total on non-NaN numbers, and NaN compares with nothing |
| JsNumber.LessOnExtendedReals | src/components/StockTable.jsx:56-59 | on finite numbers `<` is the order of the reals; `-Infinity` is below and `Infinity` above every finite number |
| JsNumber.NearIff | src/components/StockTable.jsx:60-61 | `Math.abs(a - b) < 0.0001` holds exactly when both are finite and their difference lies strictly between -0.0001 and 0.0001 |
| Lexer.IsSpace | src/components/QueryBuilder.jsx:51 | the characters `\s` matches and `trim` strips: the ECMAScript white space and line terminator code points |
| Lexer.SplitOnWhitespace | src/components/QueryBuilder.jsx:51 | `split(/\s+/)` yields at least one piece, no piece holds whitespace, and the first piece is empty exactly when the text is empty or starts with whitespace |
| Lexer.NonEmpty | src/components/QueryBuilder.jsx:51 | `filter(Boolean)` never lengthens the list, keeps only non-empty pieces, and keeps each non-empty piece exactly as many times as it occurs |
| Lexer.NonEmptyAppend | src/components/QueryBuilder.jsx:51 | `filter(Boolean)` keeps the order: filtering a concatenation concatenates the filtered parts |
| Lexer.Tokens | src/components/QueryBuilder.jsx:51 | every token is non-empty and free of whitespace |
| Lexer.TokensSkip | src/components/QueryBuilder.jsx:51 | leading whitespace does not change the tokens |
| Lexer.TokensExtend | src/components/QueryBuilder.jsx:51 | a non-space character joins the word that follows it |
| Lexer.TokensStart | src/components/QueryBuilder.jsx:51 | a non-space character before whitespace or the end is a word of its own |
| Lexer.TokensSeparate | src/components/QueryBuilder.jsx:51 | the tokens of `a + [c] + b`, with `c` whitespace, are the tokens of `a` followed by those of `b` |
| Lexer.TokensOfWord | src/components/QueryBuilder.jsx:51 | a non-empty word without whitespace is exactly one token |
| Lexer.TokensOfBlank | src/components/QueryBuilder.jsx:51 | a text has no tokens exactly when it is all whitespace |
| Lexer.TokensOfJoin | src/components/QueryBuilder.jsx:51 | words joined by single spaces split back into the same words |
| Lexer.TokensOfPadded | src/components/QueryBuilder.jsx:51 | whitespace around words joined by spaces does not change the tokens |
| Lexer.Trim | src/components/QueryBuilder.jsx:57-59 | `String.prototype.trim`, stripping whitespace from both ends; `TrimOfWord`, `TrimEnds` and `TrimStrips` characterise it |
| Lexer.TrimOfWord | src/components/QueryBuilder.jsx:57-59 | `trim` leaves a token as it is, so the parser's `trim` calls change nothing |
| Lexer.TrimEnds | src/components/QueryBuilder.jsx:57-59 | a trimmed string neither starts nor ends with whitespace |
| Lexer.TrimStrips | src/components/QueryBuilder.jsx:57-59 | a trimmed string is a slice of the input, and everything cut off on either side is whitespace |
| Lexer.SplitAnd | src/components/QueryBuilder.jsx:50 | `split(/AND/i)` yields at least one clause, the first clause is a prefix of the text, and no clause contains `AND` in any letter case |
| Lexer.SplitAndWhole | src/components/QueryBuilder.jsx:50 | text without a separator is one clause |
| Lexer.SplitAndAt | src/components/QueryBuilder.jsx:50 | the text cuts at the first separator, whatever its letter case |
| Lexer.SplitAndOfJoin | src/components/QueryBuilder.jsx:50 | separator-free clauses joined with `AND` split back into the same clauses |
| Lexer.AndFreeJoin | src/components/QueryBuilder.jsx:50 | a separator cannot straddle whitespace, so separator-free texts meeting at whitespace join into a separator-free text |
| Lexer.BlankIsAndFree | src/components/QueryBuilder.jsx:50 | whitespace-only text holds no separator |
| QueryBuilder.Accepted | src/components/QueryBuilder.jsx:62-66 | the filter's test on a built condition: listed parameter, listed operator and a value that is not NaN |
| QueryBuilder.Build | src/components/QueryBuilder.jsx:52-60 | the second `map`: no condition unless there are exactly three tokens, otherwise the trimmed parameter and operator and the parsed trimmed value |
| QueryBuilder.KeepAccepted | src/components/QueryBuilder.jsx:61-66 | the final filter never lengthens the list, and every kept condition is accepted |
| QueryBuilder.ParseQuery | src/components/QueryBuilder.jsx:49-67 | at most one condition per clause; every condition has a listed parameter, a listed operator and a non-NaN value |
| QueryBuilder.BuildThenKeep | src/components/QueryBuilder.jsx:52-66 | building a clause's condition and then filtering gives the clause's reference result |
| QueryBuilder.KeepAcceptedAppend | src/components/QueryBuilder.jsx:61-66 | the final filter distributes over concatenation |
| QueryBuilder.BuiltClausesAreClauses | src/components/QueryBuilder.jsx:52-66 | mapping and filtering a list of clauses gives the concatenation of the clauses' reference results |
| QueryBuilder.ParseIsClauses | src/components/QueryBuilder.jsx:49-66 | the parser's output is the in-order concatenation of what each clause contributes |
| QueryBuilder.ClauseSpec | src/components/QueryBuilder.jsx:52-66 | a clause yields at most one condition; it yields one exactly when it has three tokens, a listed parameter, a listed operator and a non-NaN value; the condition is made of those tokens |
| QueryBuilder.ParseAtSeparator | src/components/QueryBuilder.jsx:49-66 | a clause before a separator contributes its condition first, and the rest of the text is parsed independently |
| QueryBuilder.SeparatorCaseInsensitive | src/components/QueryBuilder.jsx:50 | `and`, `And`, `aNd` and the other letter cases cut the query exactly where `AND` does |
| QueryBuilder.ParseSingleClause | src/components/QueryBuilder.jsx:50-66 | text without a separator parses as one clause |
| QueryBuilder.ParseBlank | src/components/QueryBuilder.jsx:49-66 | empty or whitespace-only text yields no conditions |
| QueryBuilder.ClauseOfWords | src/components/QueryBuilder.jsx:51-60 | three words padded by whitespace tokenise to those words and yield their condition exactly when it is accepted |
| QueryBuilder.ClauseAndFree | src/components/QueryBuilder.jsx:50 | three separator-free words between blanks form a separator-free clause |
| QueryBuilder.CatalogTokensAreWords | src/components/QueryBuilder.jsx:3-19 | every listed token is a single non-empty word without a separator, so neither split ever cuts one |
| QueryBuilder.FieldNameIsWord | src/components/QueryBuilder.jsx:9-19 | every metric name is a non-empty word without whitespace or a separator |
| QueryBuilder.FirstNamesAreWords | src/components/QueryBuilder.jsx:10-12 | `marketCap`, `peRatio` and `roe` are words without a separator |
| QueryBuilder.MiddleNamesAreWords | src/components/QueryBuilder.jsx:13-15 | `debtToEquity`, `dividendYield` and `revenueGrowth` are words without a separator |
| QueryBuilder.LastNamesAreWords | src/components/QueryBuilder.jsx:16-18 | `epsGrowth`, `currentRatio` and `grossMargin` are words without a separator |
| QueryBuilder.PaddedClause | src/components/QueryBuilder.jsx:49-66 | an accepted condition written back as text is one separator-free clause that yields the same condition |
| QueryBuilder.ParseSerialize | src/components/QueryBuilder.jsx:49-66 | parsing is idempotent: an accepted query written back as text, with values that parse back, parses to the same query |
| QueryExamples.ThreeClauses | src/components/QueryBuilder.jsx:49-66 | three separator-free clauses around two separators contribute in order |
| QueryExamples.ThreeConditions | src/components/QueryBuilder.jsx:49-66 | three clauses that each yield one condition give those three conditions, in order |
| QueryExamples.PaddedWords | src/components/QueryBuilder.jsx:51-66 | a padded three-word clause is separator-free and yields its condition exactly when it is accepted |
| QueryExamples.PaddedWord | src/components/QueryBuilder.jsx:53 | a padded single word is a separator-free clause that yields nothing |
| QueryExamples.ConditionThenNothing | src/components/QueryBuilder.jsx:49-66 | a clause yielding one condition followed by one yielding nothing gives that one condition |
| QueryExamples.ExampleLine1 | src/components/QueryBuilder.jsx:25 | the first line of the example query yields `marketCap > 500` |
| QueryExamples.ExampleLine2 | src/components/QueryBuilder.jsx:25 | the second line, after a line break or a space, yields `peRatio < 15` |
| QueryExamples.ExampleLine3 | src/components/QueryBuilder.jsx:25 | the third line, after a line break or a space, yields `roe > 20` |
| QueryExamples.ExampleQuery | src/components/QueryBuilder.jsx:25 | the example query parses to its three conditions, in order |
| QueryExamples.OneLineQuery | src/components/QueryBuilder.jsx:25 | the example query typed on one line, with single spaces around `AND`, parses to the same three conditions |
| QueryExamples.TooFewTokens | src/components/QueryBuilder.jsx:53 | in `marketCap > 500 AND bogus` the one-token clause is dropped and the first condition remains |
| QueryExamples.UnknownOperator | src/components/QueryBuilder.jsx:65 | `marketCap >> 500` yields nothing, because `>>` is not a listed operator |
| QueryExamples.InfinityAccepted | src/components/QueryBuilder.jsx:66 | `roe > Infinity` is kept, because only NaN is refused |
| StockTable.ValueOf | src/components/StockTable.jsx:52 | the lookup `stock[condition.parameter]` as a number, through the metric the parameter names; `ValueOfByName` states it in terms of the metric names |
| StockTable.ValueOfByName | src/components/StockTable.jsx:52 | `stock[parameter]` reads the metric whose name the parameter is (NaN when the record does not carry it), and any parameter outside the `parameters` table reads NaN |
| StockTable.Holds | src/components/StockTable.jsx:55-64 | the `switch` on the operator: strict `>` and `<`, `=` within the tolerance, and `true` for any other operator; `StrictComparisons`, `EqualWithinTolerance`, `MissingValueFails` and `UnknownOperatorPasses` state its cases |
| StockTable.Every | src/components/StockTable.jsx:51 | `queryConditions.every(...)`: every condition holds for the record |
| StockTable.Matching | src/components/StockTable.jsx:50-66 | the filter never lengthens the data, and a record is in the result exactly when it is in the data and satisfies every condition |
| StockTable.FilteredData | src/components/StockTable.jsx:47-67 | no conditions (absent or empty) give all the data; otherwise a record is kept exactly when every condition holds for it |
| StockTable.MatchingIsSubsequence | src/components/StockTable.jsx:50-66 | the result is a subsequence of the data, and each record occurs as often as in the data if it matches and not at all otherwise |
| StockTable.MatchingAppend | src/components/StockTable.jsx:50-51 | filtering by `cs + [c]` is filtering by `cs` and then by `c` |
| StockTable.EveryAppend | src/components/StockTable.jsx:51 | every condition of `cs + [c]` holds exactly when every condition of `cs` holds and `c` holds |
| StockTable.Monotone | src/components/StockTable.jsx:47-67 | adding a condition shrinks the result to a subsequence of the previous result |
| StockTable.StrictComparisons | src/components/StockTable.jsx:56-59 | a record value equal to the query value passes neither `>` nor `<` |
| StockTable.EqualWithinTolerance | src/components/StockTable.jsx:60-61 | `=` holds exactly when both values are finite and less than 0.0001 apart |
| StockTable.MissingValueFails | src/components/StockTable.jsx:52-61 | a record with no usable value for the condition's metric fails every listed operator |
| StockTable.UnknownOperatorPasses | src/components/StockTable.jsx:62-63 | an operator outside the table is no restriction |
| StockTable.ToleranceExamples | src/components/StockTable.jsx:61 | `10.00005` equals `10` within the tolerance; `10` does not equal `10.001` |
| StockTable.MarketCapExample | src/components/StockTable.jsx:47-67 | of records with market caps 600 and 300, only the first passes `marketCap > 500` |
| StockTable.NaNExcluded | src/components/StockTable.jsx:58-59 | a record whose P/E ratio is NaN is not kept by `peRatio < 15` |

## Left out

- Loading the data (`fetch('/data.csv')`, `Papa.parse` and the per-column `parseFloat`, `src/components/StockTable.jsx:19-45`) is I/O. The model takes the loaded records as a parameter.
- `formatNumber`, the table columns, sorting and pagination (`src/components/StockTable.jsx:6-14` and from line 69 on) are display code.
- React state and memoisation are not modelled: `useState`, `useEffect`, `useMemo`, the `setQueryText` and `onQueryChange` calls, and the wiring in `ParentComponent.jsx` and `App.jsx`. The parser and the filter are modelled as the pure functions they compute.
- The `ExampleQuery` and `ParametersList` components only display text. The model states only that the example query parses as shown.
- The catalog titles (`label`) are display data. The model keeps them in the tables but proves nothing about them.
- JavaScript's `parseFloat` is not modelled; it is a parameter of the parser.
- Finite numbers are exact reals. IEEE-754 rounding, overflow to infinity and signed zero are not modelled. A tolerance test near the 0.0001 boundary can therefore differ from the double-precision result.
- StockTable.ValueOf: a parameter that is not a metric reads as NaN. In JavaScript, `stock["name"]` gives the ticker string, which compares like NaN unless it looks like a number. The parser never produces such a parameter, because only listed metric names survive it.
- Whitespace is the ECMAScript set that `\s` and `trim` use. Text is a sequence of Dafny `char`s. JavaScript strings are UTF-16, and surrogate pairs are not modelled.
