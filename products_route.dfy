/// `GET /api/products` (`app/api/products/route.ts`): the query parameters
/// are folded, one `if` at a time, into a list of column constraints; the
/// store returns the rows meeting all of them, ordered by name.
/// The store is an input: its table and how the call ends.
module ProductsRoute {
  import opened Wrappers
  import opened Strings
  import opened Seqs
  import opened Sorting
  import opened ProductTypes
  import ProductsArea

  /** `url.searchParams.get(...)` for the four parameters; `None` when a parameter is absent. */
  datatype Params = Params(bank: Option<string>, loanType: Option<string>, maxApr: Option<string>, minCreditScore: Option<string>)

  /** A constraint added to the query builder, named by its column as in the source. */
  datatype Constraint =
    | Eq(column: string, text: string)
    | Lte(column: string, bound: real)
    | Gte(column: string, bound: real)

  /** `if (x)` on a search parameter: present and non-empty. */
  predicate Truthy(v: Option<string>) {
    v.Some? && v.value != ""
  }

  function TextColumn(p: Product, column: string): Option<string> {
    if column == "bank" then p.bank
    else if column == "type" then p.loanType
    else None
  }

  function NumberColumn(p: Product, column: string): Option<real> {
    if column == "rate_apr" then p.rateApr
    else if column == "min_credit_score" then
      (match p.minCreditScore case None => None case Some(m) => Some(m as real))
    else None
  }

  /** SQL semantics of one constraint: a NULL column fails every comparison. */
  predicate Satisfies(p: Product, c: Constraint) {
    match c
    case Eq(col, t) => TextColumn(p, col) == Some(t)
    case Lte(col, b) => NumberColumn(p, col).Some? && NumberColumn(p, col).value <= b
    case Gte(col, b) => NumberColumn(p, col).Some? && NumberColumn(p, col).value >= b
  }

  predicate SatisfiesAll(p: Product, query: seq<Constraint>) {
    forall i :: 0 <= i < |query| ==> Satisfies(p, query[i])
  }

  /**
   * The only constraints the route adds, each from a present, non-empty parameter:
   * equality on `bank` or `type` with its text, `rate_apr` at most the numeric `max_apr`,
   * `min_credit_score` at least the numeric `min_credit_score`.
   */
  predicate FromParams(params: Params, num: string -> Option<real>, c: Constraint) {
    match c
    case Eq(col, t) =>
      (col == "bank" && Truthy(params.bank) && params.bank == Some(t))
      || (col == "type" && Truthy(params.loanType) && params.loanType == Some(t))
    case Lte(col, b) => col == "rate_apr" && Truthy(params.maxApr) && num(params.maxApr.value) == Some(b)
    case Gte(col, b) =>
      col == "min_credit_score" && Truthy(params.minCreditScore) && num(params.minCreditScore.value) == Some(b)
  }

  predicate BankOk(params: Params, p: Product) {
    Truthy(params.bank) ==> p.bank == params.bank
  }

  predicate TypeOk(params: Params, p: Product) {
    Truthy(params.loanType) ==> p.loanType == params.loanType
  }

  /** A numeric `max_apr` admits only rows with a stated APR at most the bound. */
  predicate AprOk(params: Params, num: string -> Option<real>, p: Product) {
    Truthy(params.maxApr) && num(params.maxApr.value).Some? ==>
      p.rateApr.Some? && p.rateApr.value <= num(params.maxApr.value).value
  }

  /** A numeric `min_credit_score` admits only rows with a stated score at least the bound. */
  predicate ScoreOk(params: Params, num: string -> Option<real>, p: Product) {
    Truthy(params.minCreditScore) && num(params.minCreditScore.value).Some? ==>
      p.minCreditScore.Some? && p.minCreditScore.value as real >= num(params.minCreditScore.value).value
  }

  /** The rows the route is meant to return, column by column. */
  predicate ServerMatch(params: Params, num: string -> Option<real>, p: Product) {
    BankOk(params, p) && TypeOk(params, p) && AprOk(params, num, p) && ScoreOk(params, num, p)
  }

  lemma SatisfiesAllSnoc(p: Product, query: seq<Constraint>, c: Constraint)
    ensures SatisfiesAll(p, query + [c]) <==> SatisfiesAll(p, query) && Satisfies(p, c)
  {
    assert forall i :: 0 <= i < |query| ==> (query + [c])[i] == query[i];
    assert (query + [c])[|query|] == c;
  }

  lemma FromParamsSnoc(params: Params, num: string -> Option<real>, query: seq<Constraint>, c: Constraint)
    requires forall i :: 0 <= i < |query| ==> FromParams(params, num, query[i])
    requires FromParams(params, num, c)
    ensures forall i :: 0 <= i < |query + [c]| ==> FromParams(params, num, (query + [c])[i])
  {
    forall i | 0 <= i < |query + [c]| ensures FromParams(params, num, (query + [c])[i]) {
      if i < |query| {
        assert (query + [c])[i] == query[i];
      }
    }
  }

  /** The constraint list the sequence of `query = query.eq/lte/gte(...)` reassignments builds. */
  method BuildQuery(params: Params, num: string -> Option<real>) returns (query: seq<Constraint>)
    ensures |query| <= 4
    ensures forall i :: 0 <= i < |query| ==> FromParams(params, num, query[i])
    ensures (!Truthy(params.bank) && !Truthy(params.loanType) && !Truthy(params.maxApr)
             && !Truthy(params.minCreditScore)) ==> query == []
    ensures forall p :: SatisfiesAll(p, query) <==> ServerMatch(params, num, p)
  {
    query := [];
    if Truthy(params.bank) {
      forall p ensures SatisfiesAll(p, query + [Eq("bank", params.bank.value)]) <==> BankOk(params, p) {
        SatisfiesAllSnoc(p, query, Eq("bank", params.bank.value));
      }
      FromParamsSnoc(params, num, query, Eq("bank", params.bank.value));
      query := query + [Eq("bank", params.bank.value)];
    }
    assert forall p :: SatisfiesAll(p, query) <==> BankOk(params, p);
    if Truthy(params.loanType) {
      forall p ensures SatisfiesAll(p, query + [Eq("type", params.loanType.value)])
                   <==> SatisfiesAll(p, query) && TypeOk(params, p) {
        SatisfiesAllSnoc(p, query, Eq("type", params.loanType.value));
      }
      FromParamsSnoc(params, num, query, Eq("type", params.loanType.value));
      query := query + [Eq("type", params.loanType.value)];
    }
    assert forall p :: SatisfiesAll(p, query) <==> BankOk(params, p) && TypeOk(params, p);
    ghost var q2 := query;
    if Truthy(params.maxApr) {
      var aprNum := num(params.maxApr.value);
      if aprNum.Some? {
        forall p ensures SatisfiesAll(p, query + [Lte("rate_apr", aprNum.value)])
                     <==> SatisfiesAll(p, query) && AprOk(params, num, p) {
          SatisfiesAllSnoc(p, query, Lte("rate_apr", aprNum.value));
        }
        FromParamsSnoc(params, num, query, Lte("rate_apr", aprNum.value));
        query := query + [Lte("rate_apr", aprNum.value)];
      }
    }
    assert forall p :: SatisfiesAll(p, query) <==> SatisfiesAll(p, q2) && AprOk(params, num, p);
    ghost var q3 := query;
    if Truthy(params.minCreditScore) {
      var minScore := num(params.minCreditScore.value);
      if minScore.Some? {
        forall p ensures SatisfiesAll(p, query + [Gte("min_credit_score", minScore.value)])
                     <==> SatisfiesAll(p, query) && ScoreOk(params, num, p) {
          SatisfiesAllSnoc(p, query, Gte("min_credit_score", minScore.value));
        }
        FromParamsSnoc(params, num, query, Gte("min_credit_score", minScore.value));
        query := query + [Gte("min_credit_score", minScore.value)];
      }
    }
    assert forall p :: SatisfiesAll(p, query) <==> SatisfiesAll(p, q3) && ScoreOk(params, num, p);
  }

  /** `order("name", { ascending: true })`, by UTF-16 code units in place of the store's collation. */
  predicate NameLe(a: Product, b: Product) {
    LexLe(a.name, b.name)
  }

  lemma NameLeIsTotalPreorder()
    ensures TotalPreorder(NameLe)
  {
    forall a: Product, b: Product ensures NameLe(a, b) || NameLe(b, a) {
      LexLeTotal(a.name, b.name);
    }
    forall a: Product, b: Product, c: Product | NameLe(a, b) && NameLe(b, c) ensures NameLe(a, c) {
      LexLeTransitive(a.name, b.name, c.name);
    }
  }

  /** The rows of `table` the route is meant to return, in name order. */
  function Matching(table: seq<Product>, params: Params, num: string -> Option<real>): seq<Product> {
    SortBy(Filter(table, p => ServerMatch(params, num, p)), NameLe)
  }

  /** How the store call ends: with the rows, with a query error, or by throwing (an `Error` with its message, or another value). */
  datatype StoreOutcome = Answered | QueryFailed(message: string) | Threw(errorMessage: Option<string>)

  datatype Body = Rows(rows: seq<Product>) | ErrorBody(error: string)

  datatype Response = Response(status: int, body: Body)

  /** The handler, over the store's table and the way the call ends. */
  method Get(params: Params, num: string -> Option<real>, table: seq<Product>, outcome: StoreOutcome)
    returns (response: Response)
    ensures outcome.Threw? ==>
              response == Response(500, ErrorBody(outcome.errorMessage.GetOr("Unknown error")))
    ensures outcome.QueryFailed? ==> response == Response(500, ErrorBody(outcome.message))
    ensures outcome.Answered? ==> response == Response(200, Rows(Matching(table, params, num)))
  {
    if outcome.Threw? {
      return Response(500, ErrorBody(outcome.errorMessage.GetOr("Unknown error")));
    }
    var query := BuildQuery(params, num);
    var selected := Filter(table, p => SatisfiesAll(p, query));
    FilterCongruent(table, p => SatisfiesAll(p, query), p => ServerMatch(params, num, p));
    var data := SortBy(selected, NameLe);
    if outcome.QueryFailed? {
      return Response(500, ErrorBody(outcome.message));
    }
    return Response(200, Rows(data));
  }

  // ---------------------------------------------------------------------
  // Properties

  /** The answer is the matching rows: each once per occurrence in the table, sorted by name. */
  lemma MatchingMeaning(table: seq<Product>, params: Params, num: string -> Option<real>)
    ensures var r := Matching(table, params, num);
            && Sorted(r, NameLe)
            && (forall p :: multiset(r)[p] == if ServerMatch(params, num, p) then multiset(table)[p] else 0)
            && (forall i :: 0 <= i < |r| ==> ServerMatch(params, num, r[i]))
  {
    var f := Filter(table, p => ServerMatch(params, num, p));
    NameLeIsTotalPreorder();
    SortBySorted(f, NameLe);
    var r := Matching(table, params, num);
    forall i | 0 <= i < |r| ensures ServerMatch(params, num, r[i]) {
      assert r[i] in multiset(f);
    }
  }

  /** Absent or empty parameters add no constraint: every row is returned. */
  lemma NoParamsReturnsAll(table: seq<Product>, num: string -> Option<real>)
    ensures multiset(Matching(table, Params(Some(""), None, Some(""), None), num)) == multiset(table)
    ensures multiset(Matching(table, Params(None, None, None, None), num)) == multiset(table)
  {
    EveryRowMatches(table, Params(Some(""), None, Some(""), None), num);
    EveryRowMatches(table, Params(None, None, None, None), num);
  }

  /** With no truthy parameter, every row of the table is in the answer. */
  lemma EveryRowMatches(table: seq<Product>, params: Params, num: string -> Option<real>)
    requires !Truthy(params.bank) && !Truthy(params.loanType) && !Truthy(params.maxApr) && !Truthy(params.minCreditScore)
    ensures multiset(Matching(table, params, num)) == multiset(table)
  {
    var keep := p => ServerMatch(params, num, p);
    assert forall i :: 0 <= i < |table| ==> keep(table[i]);
    FilterAll(table, keep);
    assert Matching(table, params, num) == SortBy(table, NameLe);
  }

  /**
   * The two credit-score filters point in opposite directions: for the same numeric
   * text, a product with a stated score other than the bound passes exactly one of them,
   * and a product with no score passes neither while the bound is below 9999.
   */
  lemma CreditFiltersDisagree(p: Product, text: string, num: string -> Option<real>)
    requires text != "" && num(text).Some?
    ensures var client := ProductsArea.Keeps(ProductsArea.Filters("", "", "", text), num, Some(p));
            var server := ServerMatch(Params(None, None, None, Some(text)), num, p);
            && (p.minCreditScore.Some? && p.minCreditScore.value as real != num(text).value ==> client != server)
            && (p.minCreditScore.Some? ==>
                  (client <==> p.minCreditScore.value as real <= num(text).value)
                  && (server <==> p.minCreditScore.value as real >= num(text).value))
            && (p.minCreditScore.None? && num(text).value < 9999.0 ==> !client && !server)
  {
  }
}
