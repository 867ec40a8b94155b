/// The catalog page's client-side filtering (`components/products-area.tsx`):
/// the `filtered` predicate over the four filter controls and the
/// distinct, sorted option lists for the bank and type drop-downs.
/// `Number(...)` is the parameter `num`, with `None` standing for NaN.
module ProductsArea {
  import opened Wrappers
  import opened Strings
  import opened Seqs
  import opened Sorting
  import opened ProductTypes

  /** The raw strings the four controls hold; `""` means the control is unset. */
  datatype Filters = Filters(bank: string, loanType: string, maxApr: string, minCreditScore: string)

  const NoFilters: Filters := Filters("", "", "", "")

  /** The APR bound in force, if the control is set and numeric. */
  function AprBound(f: Filters, num: string -> Option<real>): Option<real> {
    if f.maxApr != "" then num(f.maxApr) else None
  }

  /** The credit-score bound in force, if the control is set and numeric. */
  function ScoreBound(f: Filters, num: string -> Option<real>): Option<real> {
    if f.minCreditScore != "" then num(f.minCreditScore) else None
  }

  /** The callback given to `initialProducts.filter`, with its early returns in source order. */
  predicate Keeps(f: Filters, num: string -> Option<real>, e: Option<Product>) {
    if e.None? then false
    else
      var p := e.value;
      if f.bank != "" && p.bank != Some(f.bank) then false
      else if f.loanType != "" && p.loanType != Some(f.loanType) then false
      else if AprBound(f, num).Some? && p.rateApr.GetOr(0.0) > AprBound(f, num).value then false
      else if ScoreBound(f, num).Some? && (p.minCreditScore.GetOr(9999) as real) > ScoreBound(f, num).value then false
      else true
  }

  /** The `filtered` list. */
  function Filtered(entries: seq<Option<Product>>, f: Filters, num: string -> Option<real>): seq<Option<Product>> {
    Filter(entries, e => Keeps(f, num, e))
  }

  // ---------------------------------------------------------------------
  // Properties of the filter

  /** With every control unset the list is the input with its null entries removed, in order. */
  lemma NoFiltersDropsOnlyNulls(entries: seq<Option<Product>>, num: string -> Option<real>)
    ensures Filtered(entries, NoFilters, num) == Filter(entries, (e: Option<Product>) => e.Some?)
    ensures forall e :: e in Filtered(entries, NoFilters, num) <==> e in entries && e.Some?
  {
    FilterCongruent(entries, e => Keeps(NoFilters, num, e), (e: Option<Product>) => e.Some?);
  }

  /**
   * The list is an order-preserving subsequence of the input, and an entry is in
   * it exactly when it is a product that meets every control in force.
   */
  lemma FilteredMeaning(entries: seq<Option<Product>>, f: Filters, num: string -> Option<real>)
    ensures IsSubsequence(Filtered(entries, f, num), entries)
    ensures forall e :: e in Filtered(entries, f, num) <==>
              && e in entries && e.Some?
              && (f.bank != "" ==> e.value.bank == Some(f.bank))
              && (f.loanType != "" ==> e.value.loanType == Some(f.loanType))
              && (AprBound(f, num).Some? ==> e.value.rateApr.GetOr(0.0) <= AprBound(f, num).value)
              && (ScoreBound(f, num).Some? ==>
                    (e.value.minCreditScore.GetOr(9999) as real) <= ScoreBound(f, num).value)
  {
  }

  /** A product with no APR passes the APR control whatever its value. */
  lemma MissingAprPasses(f: Filters, num: string -> Option<real>, p: Product)
    requires p.rateApr.None?
    requires AprBound(f, num).Some? && AprBound(f, num).value >= 0.0
    ensures Keeps(f, num, Some(p)) == Keeps(f.(maxApr := ""), num, Some(p))
  {
  }

  /** A product with no stated credit score fails any numeric credit control below 9999. */
  lemma MissingScoreExcluded(f: Filters, num: string -> Option<real>, p: Product)
    requires p.minCreditScore.None?
    requires ScoreBound(f, num).Some? && ScoreBound(f, num).value < 9999.0
    ensures !Keeps(f, num, Some(p))
  {
  }

  /** An APR control whose text is not a number imposes nothing. */
  lemma NonNumericAprIgnored(entries: seq<Option<Product>>, f: Filters, num: string -> Option<real>)
    requires num(f.maxApr).None?
    ensures Filtered(entries, f, num) == Filtered(entries, f.(maxApr := ""), num)
  {
    var g := f.(maxApr := "");
    assert AprBound(f, num).None? && AprBound(g, num).None?;
    assert ScoreBound(f, num) == ScoreBound(g, num);
    FilterCongruent(entries, e => Keeps(f, num, e), e => Keeps(g, num, e));
  }

  /** A credit-score control whose text is not a number imposes nothing. */
  lemma NonNumericScoreIgnored(entries: seq<Option<Product>>, f: Filters, num: string -> Option<real>)
    requires num(f.minCreditScore).None?
    ensures Filtered(entries, f, num) == Filtered(entries, f.(minCreditScore := ""), num)
  {
    var g := f.(minCreditScore := "");
    assert ScoreBound(f, num).None? && ScoreBound(g, num).None?;
    assert AprBound(f, num) == AprBound(g, num);
    FilterCongruent(entries, e => Keeps(f, num, e), e => Keeps(g, num, e));
  }

  /** Filtering the filtered list again with the same settings changes nothing. */
  lemma FilteredIdempotent(entries: seq<Option<Product>>, f: Filters, num: string -> Option<real>)
    ensures Filtered(Filtered(entries, f, num), f, num) == Filtered(entries, f, num)
  {
    FilterIdempotent(entries, e => Keeps(f, num, e));
  }

  // ---------------------------------------------------------------------
  // The drop-down option lists

  /** `vs.filter(Boolean)`: the present, non-empty strings, in order. */
  function TruthyStrings(vs: seq<Option<string>>): (r: seq<string>)
    ensures |r| <= |vs|
    ensures forall x :: x in r <==> x != "" && Some(x) in vs
  {
    if vs == [] then []
    else
      var rest := TruthyStrings(vs[1..]);
      assert vs == [vs[0]] + vs[1..];
      if vs[0].Some? && vs[0].value != "" then [vs[0].value] + rest else rest
  }

  /** `Array.from(new Set(vs.filter(Boolean))).sort()`. */
  function DistinctSorted(vs: seq<Option<string>>): seq<string> {
    SortBy(Dedup(TruthyStrings(vs)), LexLe)
  }

  /** One column of a product list (`map((p) => p.bank)`). */
  function Column(ps: seq<Product>, get: Product -> Option<string>): (r: seq<Option<string>>)
    ensures |r| == |ps| && forall i :: 0 <= i < |ps| ==> r[i] == get(ps[i])
  {
    if ps == [] then [] else [get(ps[0])] + Column(ps[1..], get)
  }

  predicate NoNulls(entries: seq<Option<Product>>) {
    forall i :: 0 <= i < |entries| ==> entries[i].Some?
  }

  function Values(entries: seq<Option<Product>>): (r: seq<Product>)
    requires NoNulls(entries)
    ensures |r| == |entries| && forall i :: 0 <= i < |r| ==> entries[i] == Some(r[i])
  {
    if entries == [] then [] else [entries[0].value] + Values(entries[1..])
  }

  /** The option list for a column; `None` when a null entry makes the `map` callback throw. */
  function Options(entries: seq<Option<Product>>, get: Product -> Option<string>): Option<seq<string>> {
    if NoNulls(entries) then Some(DistinctSorted(Column(Values(entries), get))) else None
  }

  /** The `banks` list. */
  function Banks(entries: seq<Option<Product>>): Option<seq<string>> {
    Options(entries, (p: Product) => p.bank)
  }

  /** The `types` list. */
  function Types(entries: seq<Option<Product>>): Option<seq<string>> {
    Options(entries, (p: Product) => p.loanType)
  }

  /** The option list ascends in UTF-16 code-unit order, has no repeats and holds every truthy value. */
  lemma DistinctSortedMeaning(vs: seq<Option<string>>)
    ensures var r := DistinctSorted(vs);
            && Sorted(r, LexLe)
            && NoDup(r)
            && (forall i :: 0 <= i < |r| ==> r[i] != "")
            && (forall x :: x in r <==> x != "" && Some(x) in vs)
  {
    var d := Dedup(TruthyStrings(vs));
    var r := DistinctSorted(vs);
    LexLeIsTotalPreorder();
    SortBySorted(d, LexLe);
    assert forall x :: x in r <==> x in d by {
      assert forall x :: x in r <==> x in multiset(r);
    }
    assert Elements(r) == Elements(d);
    DistinctCount(d);
    DistinctCount(r);
    forall i | 0 <= i < |r| ensures r[i] != "" {
      assert r[i] in d;
    }
  }

  /**
   * The `banks` and `types` lists exist exactly when no entry is null, and then
   * hold, sorted and once each, the non-empty values some product has.
   */
  lemma OptionsMeaning(entries: seq<Option<Product>>, get: Product -> Option<string>)
    ensures Options(entries, get).Some? <==> NoNulls(entries)
    ensures Options(entries, get).Some? ==>
              var r := Options(entries, get).value;
              && Sorted(r, LexLe) && NoDup(r)
              && (forall i :: 0 <= i < |r| ==> r[i] != "")
              && (forall x :: x in r <==>
                    x != "" && exists i :: 0 <= i < |entries| && get(entries[i].value) == Some(x))
  {
    if NoNulls(entries) {
      var ps := Values(entries);
      var col := Column(ps, get);
      DistinctSortedMeaning(col);
      forall x ensures Some(x) in col <==> exists i :: 0 <= i < |entries| && get(entries[i].value) == Some(x) {
        if Some(x) in col {
          var i :| 0 <= i < |col| && col[i] == Some(x);
          assert get(entries[i].value) == Some(x);
        }
        if exists i :: 0 <= i < |entries| && get(entries[i].value) == Some(x) {
          var i :| 0 <= i < |entries| && get(entries[i].value) == Some(x);
          assert col[i] == Some(x);
        }
      }
    }
  }
}
