/// `POST /api/products/recommend`: request validation, the empty-catalog
/// check, and the reconciliation of the model's candidate IDs with the
/// catalog (keep valid candidates, cap at five, pad with the cheapest).
/// The prompt text and the parsing of the model's reply are not modelled:
/// the reply arrives as the already-parsed candidate list.
module Recommend {
  import opened Wrappers
  import opened Seqs
  import opened Sorting
  import opened ProductTypes

  /** How many IDs the route returns at most. */
  const MaxIds: nat := 5

  /** The APR used for ranking, with a missing APR counted as 999. */
  function AprRank(p: Product): real {
    p.rateApr.GetOr(999.0)
  }

  /** The comparator `(a.rate_apr ?? 999) - (b.rate_apr ?? 999)`, read as "a sorts no later than b". */
  predicate CheaperOrEqual(a: Product, b: Product) {
    AprRank(a) <= AprRank(b)
  }

  lemma CheaperOrEqualIsPreorder()
    ensures TotalPreorder(CheaperOrEqual)
  {
  }

  /** `[...ps].sort(byApr)`: the stable ascending order by APR rank. */
  function ByApr(ps: seq<Product>): seq<Product> {
    SortBy(ps, CheaperOrEqual)
  }

  function Ids(ps: seq<Product>): (r: seq<string>)
    ensures |r| == |ps| && forall i :: 0 <= i < |ps| ==> r[i] == ps[i].id
  {
    if ps == [] then [] else [ps[0].id] + Ids(ps[1..])
  }

  /** `allProducts.some((p) => p.id === id)`. */
  predicate InCatalog(catalog: seq<Product>, id: string) {
    exists i :: 0 <= i < |catalog| && catalog[i].id == id
  }

  /** The candidates that name a catalog product, duplicates included, in their order. */
  function ValidCandidates(catalog: seq<Product>, candidates: seq<string>): seq<string> {
    Filter(candidates, id => InCatalog(catalog, id))
  }

  /** The catalog products whose ID is not in `taken` (`!existingIds.has(p.id)`). */
  function WithoutIds(catalog: seq<Product>, taken: set<string>): seq<Product> {
    Filter(catalog, (p: Product) => p.id !in taken)
  }

  /** The valid candidates capped at five: the head of every non-fallback answer. */
  function Prefix(catalog: seq<Product>, candidates: seq<string>): seq<string> {
    Take(ValidCandidates(catalog, candidates), MaxIds)
  }

  /** The cheapest products not already chosen, as many as fill the answer to five. */
  function Padding(catalog: seq<Product>, prefix: seq<string>): seq<Product> {
    Take(ByApr(WithoutIds(catalog, Elements(prefix))), MaxIds - Min(|prefix|, MaxIds))
  }

  /** `productIds` before the final `slice(0, 5)`: the fallback, or the prefix and its padding. */
  function Combined(catalog: seq<Product>, candidates: seq<string>): seq<string> {
    if |candidates| == 0 then
      Ids(Take(ByApr(catalog), MaxIds))
    else
      var prefix := Prefix(catalog, candidates);
      if |prefix| < MaxIds then prefix + Ids(Padding(catalog, prefix)) else prefix
  }

  /** The `productIds` the route answers with. */
  function Reconcile(catalog: seq<Product>, candidates: seq<string>): (r: seq<string>)
    ensures |r| <= MaxIds
    ensures forall i :: 0 <= i < |r| ==> InCatalog(catalog, r[i])
  {
    CombinedInCatalog(catalog, candidates);
    Take(Combined(catalog, candidates), MaxIds)
  }

  /** The IDs of catalog products are catalog IDs. */
  lemma IdsInCatalog(catalog: seq<Product>, ps: seq<Product>)
    requires forall i :: 0 <= i < |ps| ==> ps[i] in catalog
    ensures forall i :: 0 <= i < |Ids(ps)| ==> InCatalog(catalog, Ids(ps)[i])
  {
    forall i | 0 <= i < |Ids(ps)| ensures InCatalog(catalog, Ids(ps)[i]) {
      var k :| 0 <= k < |catalog| && catalog[k] == ps[i];
    }
  }

  lemma CombinedInCatalog(catalog: seq<Product>, candidates: seq<string>)
    ensures forall i :: 0 <= i < |Combined(catalog, candidates)| ==> InCatalog(catalog, Combined(catalog, candidates)[i])
  {
    if |candidates| == 0 {
      assert Combined(catalog, candidates) == Ids(Take(ByApr(catalog), MaxIds));
      FallbackInCatalog(catalog);
    } else {
      var prefix := Prefix(catalog, candidates);
      PrefixInCatalog(catalog, candidates);
      if |prefix| < MaxIds {
        var pad := Padding(catalog, prefix);
        PaddingIsUnused(catalog, prefix);
        IdsInCatalog(catalog, pad);
        assert Combined(catalog, candidates) == prefix + Ids(pad);
        AllInCatalogConcat(catalog, prefix, Ids(pad));
      } else {
        assert Combined(catalog, candidates) == prefix;
      }
    }
  }

  lemma AllInCatalogConcat(catalog: seq<Product>, a: seq<string>, b: seq<string>)
    requires forall i :: 0 <= i < |a| ==> InCatalog(catalog, a[i])
    requires forall i :: 0 <= i < |b| ==> InCatalog(catalog, b[i])
    ensures forall i :: 0 <= i < |a + b| ==> InCatalog(catalog, (a + b)[i])
  {
    forall i | 0 <= i < |a + b| ensures InCatalog(catalog, (a + b)[i]) {
      if i < |a| {
        assert (a + b)[i] == a[i];
      } else {
        assert (a + b)[i] == b[i - |a|];
      }
    }
  }

  lemma FallbackInCatalog(catalog: seq<Product>)
    ensures var ids := Ids(Take(ByApr(catalog), MaxIds));
            forall i :: 0 <= i < |ids| ==> InCatalog(catalog, ids[i])
  {
    var s := Take(ByApr(catalog), MaxIds);
    var x :| true;
    ByAprIsStableSort(catalog, x);
    forall i | 0 <= i < |s| ensures s[i] in catalog {
      assert s[i] == ByApr(catalog)[i];
      assert s[i] in multiset(ByApr(catalog));
    }
    IdsInCatalog(catalog, s);
  }

  lemma PrefixInCatalog(catalog: seq<Product>, candidates: seq<string>)
    ensures var prefix := Prefix(catalog, candidates);
            forall i :: 0 <= i < |prefix| ==> InCatalog(catalog, prefix[i])
  {
    var prefix := Prefix(catalog, candidates);
    forall i | 0 <= i < |prefix| ensures InCatalog(catalog, prefix[i]) {
      assert prefix[i] == ValidCandidates(catalog, candidates)[i];
    }
  }

  // ---------------------------------------------------------------------
  // Properties of the reconciliation

  /** The APR order is a stable ascending sort: a permutation, sorted, ties in catalog order. */
  lemma {:induction false} ByAprIsStableSort(ps: seq<Product>, x: Product)
    ensures multiset(ByApr(ps)) == multiset(ps)
    ensures forall i, j :: 0 <= i < j < |ps| ==> AprRank(ByApr(ps)[i]) <= AprRank(ByApr(ps)[j])
    ensures EqualRanked(ByApr(ps), x, CheaperOrEqual) == EqualRanked(ps, x, CheaperOrEqual)
  {
    CheaperOrEqualIsPreorder();
    SortBySorted(ps, CheaperOrEqual);
    SortByStable(ps, x, CheaperOrEqual);
  }

  /** The first `k` of the APR order are the cheapest: none costs more than any product left out. */
  lemma TakeIsCheapest(ps: seq<Product>, k: nat)
    ensures forall i, j :: 0 <= i < |Take(ByApr(ps), k)| <= j < |ps| ==>
              AprRank(Take(ByApr(ps), k)[i]) <= AprRank(ByApr(ps)[j])
  {
    var x :| true;
    ByAprIsStableSort(ps, x);
  }

  /** A sequence no longer than `n` is its own first `n`. */
  lemma TakeAll<T>(s: seq<T>, n: nat)
    requires |s| <= n
    ensures Take(s, n) == s
  {
  }

  /** With no candidates the answer is the first min(5, n) catalog IDs in APR order. */
  lemma FallbackIsCheapestFive(catalog: seq<Product>)
    ensures Reconcile(catalog, []) == Ids(ByApr(catalog)[..Min(MaxIds, |catalog|)])
  {
    var ids := Ids(Take(ByApr(catalog), MaxIds));
    assert Combined(catalog, []) == ids;
    TakeAll(ids, MaxIds);
  }

  /** A non-empty candidate list: the answer is the capped prefix followed by its padding, with nothing cut. */
  lemma ReconcileWithCandidates(catalog: seq<Product>, candidates: seq<string>)
    requires candidates != []
    ensures Reconcile(catalog, candidates) == Prefix(catalog, candidates) + Ids(Padding(catalog, Prefix(catalog, candidates)))
  {
    var prefix := Prefix(catalog, candidates);
    var pad := Padding(catalog, prefix);
    var c := Combined(catalog, candidates);
    if |prefix| < MaxIds {
      assert c == prefix + Ids(pad);
    } else {
      assert |pad| == 0;
      assert c == prefix + Ids(pad);
    }
    assert |c| <= MaxIds;
    TakeAll(c, MaxIds);
  }

  /** Candidates none of which is in the catalog give the same answer as no candidates. */
  lemma NoValidCandidateIsFallback(catalog: seq<Product>, candidates: seq<string>)
    requires forall i :: 0 <= i < |candidates| ==> !InCatalog(catalog, candidates[i])
    ensures Reconcile(catalog, candidates) == Reconcile(catalog, [])
  {
    if candidates != [] {
      ReconcileWithCandidates(catalog, candidates);
      NoValidCandidates(catalog, candidates);
      assert Prefix(catalog, candidates) == [];
      EmptyPrefixPadding(catalog);
      FallbackIsCheapestFive(catalog);
    }
  }

  lemma NoValidCandidates(catalog: seq<Product>, candidates: seq<string>)
    requires forall i :: 0 <= i < |candidates| ==> !InCatalog(catalog, candidates[i])
    ensures ValidCandidates(catalog, candidates) == []
  {
  }

  /** With nothing chosen, the padding is the cheapest five of the whole catalog. */
  lemma EmptyPrefixPadding(catalog: seq<Product>)
    ensures Padding(catalog, []) == Take(ByApr(catalog), MaxIds)
  {
    assert Elements<string>([]) == {};
    FilterAll(catalog, (p: Product) => p.id !in Elements<string>([]));
  }

  /** A non-empty candidate list: the answer starts with the valid candidates, in order, capped at five. */
  lemma CandidatesComeFirst(catalog: seq<Product>, candidates: seq<string>)
    requires candidates != []
    ensures |Prefix(catalog, candidates)| <= |Reconcile(catalog, candidates)|
    ensures Reconcile(catalog, candidates)[..|Prefix(catalog, candidates)|] == Prefix(catalog, candidates)
    ensures IsSubsequence(ValidCandidates(catalog, candidates), candidates)
  {
    ReconcileWithCandidates(catalog, candidates);
  }

  /** The padding is the head of the APR order of the unused products. */
  lemma PaddingIsPoolHead(catalog: seq<Product>, prefix: seq<string>)
    requires |prefix| <= MaxIds
    ensures var pool := ByApr(WithoutIds(catalog, Elements(prefix)));
            var pad := Padding(catalog, prefix);
            |pad| == Min(MaxIds - |prefix|, |pool|) && pad == pool[..|pad|]
  {
  }

  /** Every padding product is a catalog product whose ID is not among the chosen ones. */
  lemma PaddingIsUnused(catalog: seq<Product>, prefix: seq<string>)
    ensures var pad := Padding(catalog, prefix);
            forall i :: 0 <= i < |pad| ==> pad[i] in catalog && pad[i].id !in prefix
  {
    var rest := WithoutIds(catalog, Elements(prefix));
    var pad := Padding(catalog, prefix);
    var x :| true;
    ByAprIsStableSort(rest, x);
    forall i | 0 <= i < |pad| ensures pad[i] in catalog && pad[i].id !in prefix {
      assert pad[i] == ByApr(rest)[i];
      assert pad[i] in multiset(ByApr(rest));
      assert pad[i] in rest;
    }
  }

  /** The padding ascends by APR and costs no more than any unused product it leaves out. */
  lemma PaddingIsCheapest(catalog: seq<Product>, prefix: seq<string>)
    ensures var pool := ByApr(WithoutIds(catalog, Elements(prefix)));
            var pad := Padding(catalog, prefix);
            && (forall i, j :: 0 <= i < j < |pad| ==> AprRank(pad[i]) <= AprRank(pad[j]))
            && (forall i, j :: 0 <= i < |pad| <= j < |pool| ==> AprRank(pad[i]) <= AprRank(pool[j]))
  {
    var rest := WithoutIds(catalog, Elements(prefix));
    var pool := ByApr(rest);
    var pad := Padding(catalog, prefix);
    var x :| true;
    ByAprIsStableSort(rest, x);
    assert |pool| == |rest| by {
      assert |multiset(pool)| == |multiset(rest)|;
    }
    forall i, j | 0 <= i < j < |pad| ensures AprRank(pad[i]) <= AprRank(pad[j]) {
      assert pad[i] == pool[i] && pad[j] == pool[j];
    }
    forall i, j | 0 <= i < |pad| <= j < |pool| ensures AprRank(pad[i]) <= AprRank(pool[j]) {
      assert pad[i] == pool[i];
    }
  }

  /** After the candidates come the cheapest unused catalog products, ascending by APR. */
  lemma PaddingIsCheapestUnused(catalog: seq<Product>, candidates: seq<string>)
    requires candidates != []
    ensures var prefix := Prefix(catalog, candidates);
            var pool := ByApr(WithoutIds(catalog, Elements(prefix)));
            var pad := Padding(catalog, prefix);
            && Reconcile(catalog, candidates) == prefix + Ids(pad)
            && (forall i :: 0 <= i < |pad| ==> pad[i] in catalog && pad[i].id !in prefix)
            && (forall i, j :: 0 <= i < j < |pad| ==> AprRank(pad[i]) <= AprRank(pad[j]))
            && (forall i, j :: 0 <= i < |pad| <= j < |pool| ==> AprRank(pad[i]) <= AprRank(pool[j]))
            && |pad| == Min(MaxIds - |prefix|, |pool|)
  {
    var prefix := Prefix(catalog, candidates);
    ReconcileWithCandidates(catalog, candidates);
    PaddingIsPoolHead(catalog, prefix);
    PaddingIsUnused(catalog, prefix);
    PaddingIsCheapest(catalog, prefix);
  }

  predicate DistinctIds(catalog: seq<Product>) {
    forall i, j :: 0 <= i < j < |catalog| ==> catalog[i].id != catalog[j].id
  }

  function IdSet(catalog: seq<Product>): set<string> {
    set i | 0 <= i < |catalog| :: catalog[i].id
  }

  lemma IdSetCons(catalog: seq<Product>)
    requires catalog != []
    ensures IdSet(catalog) == {catalog[0].id} + IdSet(catalog[1..])
  {
    var rest := catalog[1..];
    forall id | id in IdSet(catalog) ensures id in {catalog[0].id} + IdSet(rest) {
      var i :| 0 <= i < |catalog| && catalog[i].id == id;
      if i > 0 { assert rest[i - 1].id == id; }
    }
    forall id | id in IdSet(rest) ensures id in IdSet(catalog) {
      var i :| 0 <= i < |rest| && rest[i].id == id;
      assert catalog[i + 1].id == id;
    }
  }

  lemma DistinctIdsCons(catalog: seq<Product>)
    requires catalog != [] && DistinctIds(catalog)
    ensures DistinctIds(catalog[1..]) && catalog[0].id !in IdSet(catalog[1..])
  {
    var rest := catalog[1..];
    forall i, j | 0 <= i < j < |rest| ensures rest[i].id != rest[j].id {
      assert rest[i] == catalog[i + 1] && rest[j] == catalog[j + 1];
    }
    forall i | 0 <= i < |rest| ensures rest[i].id != catalog[0].id {
      assert rest[i] == catalog[i + 1];
    }
  }

  lemma {:induction false} WithoutIdsCount(catalog: seq<Product>, taken: set<string>)
    requires DistinctIds(catalog)
    ensures |WithoutIds(catalog, taken)| == |catalog| - |taken * IdSet(catalog)|
  {
    if catalog != [] {
      var rest := catalog[1..];
      DistinctIdsCons(catalog);
      IdSetCons(catalog);
      WithoutIdsCount(rest, taken);
      WithoutIdsStep(catalog, taken);
      TakenCount(taken, catalog[0].id, IdSet(rest));
    }
  }

  /** One step of the filter: the head product is kept exactly when its ID is not taken. */
  lemma WithoutIdsStep(catalog: seq<Product>, taken: set<string>)
    requires catalog != []
    ensures |WithoutIds(catalog, taken)| == |WithoutIds(catalog[1..], taken)| + (if catalog[0].id in taken then 0 else 1)
  {
  }

  lemma TakenCount(taken: set<string>, id: string, ids: set<string>)
    requires id !in ids
    ensures |taken * ({id} + ids)| == |taken * ids| + (if id in taken then 1 else 0)
  {
    if id in taken {
      assert taken * ({id} + ids) == (taken * ids) + {id};
    } else {
      assert taken * ({id} + ids) == taken * ids;
    }
  }

  /** The valid candidates' distinct IDs are catalog IDs. */
  lemma PrefixInIdSet(catalog: seq<Product>, candidates: seq<string>)
    ensures Elements(Prefix(catalog, candidates)) <= IdSet(catalog)
  {
    var prefix := Prefix(catalog, candidates);
    forall id | id in Elements(prefix) ensures id in IdSet(catalog) {
      assert id in ValidCandidates(catalog, candidates);
      var i :| 0 <= i < |catalog| && catalog[i].id == id;
    }
  }

  /**
   * The exact length of the answer for a catalog with distinct IDs: five, or the
   * catalog size plus the number of repeated entries among the candidates kept.
   */
  lemma ReconcileLength(catalog: seq<Product>, candidates: seq<string>)
    requires DistinctIds(catalog)
    ensures var prefix := Prefix(catalog, candidates);
            |Reconcile(catalog, candidates)|
              == Min(MaxIds, |catalog| + |prefix| - |Elements(prefix)|)
  {
    var prefix := Prefix(catalog, candidates);
    if candidates == [] {
      assert ValidCandidates(catalog, candidates) == [];
      assert prefix == [];
      assert Elements(prefix) == {};
      FallbackIsCheapestFive(catalog);
    } else {
      ReconcileWithCandidates(catalog, candidates);
      PaddingIsPoolHead(catalog, prefix);
      var rest := WithoutIds(catalog, Elements(prefix));
      var x :| true;
      ByAprIsStableSort(rest, x);
      assert |ByApr(rest)| == |rest| by {
        assert |multiset(ByApr(rest))| == |multiset(rest)|;
      }
      PrefixInIdSet(catalog, candidates);
      UnusedCount(catalog, prefix);
      DistinctCount(prefix);
    }
  }

  /** With distinct catalog IDs, the unused products are the catalog less one per distinct chosen ID. */
  lemma UnusedCount(catalog: seq<Product>, prefix: seq<string>)
    requires DistinctIds(catalog) && Elements(prefix) <= IdSet(catalog)
    ensures |WithoutIds(catalog, Elements(prefix))| == |catalog| - |Elements(prefix)|
    ensures |Elements(prefix)| <= |catalog|
  {
    WithoutIdsCount(catalog, Elements(prefix));
    assert Elements(prefix) * IdSet(catalog) == Elements(prefix);
    DistinctIdsCount(catalog);
    SubsetCardinality(Elements(prefix), IdSet(catalog));
  }

  lemma SubsetCardinality(a: set<string>, b: set<string>)
    requires a <= b
    ensures |a| <= |b|
  {
    assert b == a + (b - a);
  }

  lemma {:induction false} DistinctIdsCount(catalog: seq<Product>)
    ensures |IdSet(catalog)| <= |catalog|
  {
    if catalog != [] {
      var rest := catalog[1..];
      DistinctIdsCount(rest);
      assert IdSet(catalog) <= {catalog[0].id} + IdSet(rest) by {
        forall id | id in IdSet(catalog) ensures id in {catalog[0].id} + IdSet(rest) {
          var i :| 0 <= i < |catalog| && catalog[i].id == id;
          if i > 0 { assert rest[i - 1].id == id; }
        }
      }
      SubsetCardinality(IdSet(catalog), {catalog[0].id} + IdSet(rest));
    }
  }

  /** With at least five products (distinct IDs) the answer always holds exactly five IDs. */
  lemma FiveFromLargeCatalog(catalog: seq<Product>, candidates: seq<string>)
    requires DistinctIds(catalog) && |catalog| >= MaxIds
    ensures |Reconcile(catalog, candidates)| == MaxIds
  {
    ReconcileLength(catalog, candidates);
    DistinctCount(Prefix(catalog, candidates));
  }

  /**
   * With fewer than five products the answer has exactly one ID per product
   * iff the kept candidates hold no duplicate.
   */
  lemma SmallCatalogLength(catalog: seq<Product>, candidates: seq<string>)
    requires DistinctIds(catalog) && |catalog| < MaxIds
    ensures |Reconcile(catalog, candidates)| == |catalog| <==> NoDup(Prefix(catalog, candidates))
  {
    ReconcileLength(catalog, candidates);
    DistinctCount(Prefix(catalog, candidates));
  }

  // ---------------------------------------------------------------------
  // The route handler

  /** The profile the onboarding form sends. */
  datatype Profile = Profile(income: string, occupation: string, purpose: string)

  /** A field that `z.string().min(1)` accepts. */
  function NonEmptyString(v: JsValue): Option<string> {
    if v.JsString? && |v.s| >= 1 then Some(v.s) else None
  }

  /** `RequestSchema.safeParse(body)`: an object with three non-empty string fields (other keys are ignored). */
  function ParseRequest(body: JsValue): (r: Option<Profile>)
    ensures r.Some? <==> body.JsObject? && (forall k :: k in ["income", "occupation", "purpose"] ==>
                           k in body.fields && body.fields[k].JsString? && |body.fields[k].s| >= 1)
    ensures r.Some? ==> (&& body.fields["income"] == JsString(r.value.income)
                         && body.fields["occupation"] == JsString(r.value.occupation)
                         && body.fields["purpose"] == JsString(r.value.purpose))
  {
    if !body.JsObject? then None
    else
      var f := body.fields;
      if "income" in f && "occupation" in f && "purpose" in f then
        match (NonEmptyString(f["income"]), NonEmptyString(f["occupation"]), NonEmptyString(f["purpose"]))
        case (Some(i), Some(o), Some(p)) => Some(Profile(i, o, p))
        case _ => None
      else None
  }

  /** What `await req.json()` produced: a value, or a syntax error with its message. */
  datatype RequestJson = Malformed(errorMessage: string) | Parsed(value: JsValue)

  /** What the language-model call ended in, with a successful reply already parsed into candidate IDs. */
  datatype ModelReply = ModelNotOk | ModelOk(candidates: seq<string>)

  /** The external calls the handler makes, in order. */
  datatype Effect = FetchCatalog | CallModel(profile: Profile, catalog: seq<Product>)

  datatype Body = ErrorBody(error: string) | Recommendation(productIds: seq<string>, userProfile: Profile)

  datatype Response = Response(status: int, body: Body)

  /** The handler: its response and the external calls it made. */
  function Post(request: RequestJson, catalog: QueryResult<seq<Product>>, reply: ModelReply)
    : (r: (Response, seq<Effect>))
    ensures request.Malformed? ==> r == (Response(500, ErrorBody(request.errorMessage)), [])
    ensures request.Parsed? && ParseRequest(request.value).None? ==>
              r == (Response(400, ErrorBody("Invalid request")), [])
    ensures request.Parsed? && ParseRequest(request.value).Some? && (catalog.QueryError? || catalog.data == []) ==>
              r == (Response(404, ErrorBody("No products found")), [FetchCatalog])
    ensures r.0.status == 200 <==> r.0.body.Recommendation?
    ensures r.0.status == 200 ==>
              && request.Parsed? && catalog.QueryOk? && reply.ModelOk?
              && r.0.body == Recommendation(Reconcile(catalog.data, reply.candidates), ParseRequest(request.value).value)
              && r.1 == [FetchCatalog, CallModel(r.0.body.userProfile, catalog.data)]
    ensures reply.ModelNotOk? && r.1 != [] && |r.1| == 2 ==>
              r.0 == Response(500, ErrorBody("Failed to get AI recommendations"))
  {
    match request
    case Malformed(msg) => (Response(500, ErrorBody(msg)), [])
    case Parsed(body) =>
      match ParseRequest(body)
      case None => (Response(400, ErrorBody("Invalid request")), [])
      case Some(profile) =>
        if catalog.QueryError? || catalog.data == [] then
          (Response(404, ErrorBody("No products found")), [FetchCatalog])
        else
          var effects := [FetchCatalog, CallModel(profile, catalog.data)];
          match reply
          case ModelNotOk => (Response(500, ErrorBody("Failed to get AI recommendations")), effects)
          case ModelOk(candidates) =>
            (Response(200, Recommendation(Reconcile(catalog.data, candidates), profile)), effects)
  }

  /** A model failure is a 500 with no fallback, even when the catalog is non-empty. */
  lemma ModelFailureHasNoFallback(request: RequestJson, catalog: seq<Product>)
    requires request.Parsed? && ParseRequest(request.value).Some? && catalog != []
    ensures Post(request, QueryOk(catalog), ModelNotOk).0 == Response(500, ErrorBody("Failed to get AI recommendations"))
  {
  }
}
