/// The home page's "Top 5 Products" panel (`components/TopProducts.tsx`):
/// a small state machine over the saved preferences, the product list and
/// three flags, plus the pure parts it renders with (the reordering of the
/// recommended rows, the badges and the screen it shows).
/// Browser storage is the field `stored` (the entry under `StorageKey`);
/// the store's answers, the recommend route's reply, `JSON.parse`,
/// `JSON.stringify` and `Date.now()` are parameters.
module TopProducts {
  import opened Wrappers
  import opened Seqs
  import opened ProductTypes
  import Recommend
  import ProductsArea

  /** The storage key of the saved preferences (types/user-preferences.ts). */
  const StorageKey: string := "loan_user_preferences"

  /** `UserPreferences`. */
  datatype Prefs = Prefs(
    income: string,
    occupation: string,
    purpose: string,
    recommendedProductIds: seq<string>,
    timestamp: int)

  /** How a store query ended: it threw, it answered with an error or no data, or it returned rows. */
  datatype Fetch = Threw | Failed | Rows(rows: seq<Product>)

  /** What the `POST /api/products/recommend` call ended in, as the submit handler sees it. */
  datatype SubmitReply = SubmitFailed | SubmitOk(productIds: seq<string>, userProfile: Recommend.Profile)

  // ---------------------------------------------------------------------
  // Reordering the recommended rows

  predicate HasRow(rows: seq<Product>, id: string) {
    exists i :: 0 <= i < |rows| && rows[i].id == id
  }

  /** `data.find((p) => p.id === id)`: the first row with that ID. */
  function FindById(rows: seq<Product>, id: string): (r: Option<Product>)
    ensures r.Some? <==> HasRow(rows, id)
    ensures r.Some? ==> exists i :: 0 <= i < |rows| && rows[i] == r.value && rows[i].id == id
                                   && forall j :: 0 <= j < i ==> rows[j].id != id
  {
    if rows == [] then None
    else if rows[0].id == id then Some(rows[0])
    else
      var r := FindById(rows[1..], id);
      assert forall i :: 0 < i < |rows| ==> rows[i] == rows[1..][i - 1];
      assert r.Some? ==> exists i :: 0 < i < |rows| && rows[i] == r.value && rows[i].id == id
                                     && forall j :: 0 <= j < i ==> rows[j].id != id by {
        if r.Some? {
          var k :| 0 <= k < |rows[1..]| && rows[1..][k] == r.value && rows[1..][k].id == id
                   && forall j :: 0 <= j < k ==> rows[1..][j].id != id;
          assert rows[k + 1] == r.value;
          forall j | 0 <= j < k + 1 ensures rows[j].id != id {
            if j > 0 { assert rows[j] == rows[1..][j - 1]; }
          }
        }
      }
      r
  }

  /** `productIds.map(find).filter(defined)`: the rows in the order of the IDs. */
  function Reorder(ids: seq<string>, rows: seq<Product>): seq<Product> {
    if ids == [] then []
    else match FindById(rows, ids[0])
      case None => Reorder(ids[1..], rows)
      case Some(p) => [p] + Reorder(ids[1..], rows)
  }

  /**
   * The reordered rows are rows of the answer and follow the recommended IDs exactly,
   * dropping the IDs that have no row (so no more rows than IDs, repeats kept).
   */
  lemma {:induction false} ReorderMeaning(ids: seq<string>, rows: seq<Product>)
    ensures Recommend.Ids(Reorder(ids, rows)) == Filter(ids, id => HasRow(rows, id))
    ensures |Reorder(ids, rows)| <= |ids|
    ensures forall i :: 0 <= i < |Reorder(ids, rows)| ==> Reorder(ids, rows)[i] in rows
  {
    if ids != [] {
      ReorderMeaning(ids[1..], rows);
      var rest := Reorder(ids[1..], rows);
      match FindById(rows, ids[0])
      case None =>
      case Some(p) =>
        assert Recommend.Ids([p] + rest)[1..] == Recommend.Ids(rest);
        assert forall i :: 0 < i < |[p] + rest| ==> ([p] + rest)[i] == rest[i - 1];
    }
  }

  /** When every recommended ID has a row, the list holds one row per ID, in the same order. */
  lemma AllFoundKeepsOrder(ids: seq<string>, rows: seq<Product>)
    requires forall i :: 0 <= i < |ids| ==> HasRow(rows, ids[i])
    ensures Recommend.Ids(Reorder(ids, rows)) == ids
  {
    ReorderMeaning(ids, rows);
    FilterAll(ids, id => HasRow(rows, id));
  }

  // ---------------------------------------------------------------------
  // Badges and the screen

  /** The list literal of badge slots, before `.filter(Boolean)`. */
  function BadgeSlots(p: Product): seq<Option<string>> {
    var apr := p.rateApr.GetOr(0.0);
    var minCredit := p.minCreditScore.GetOr(9999);
    var tenureMin := p.tenureMinMonths.GetOr(0);
    var tenureRange := p.tenureMaxMonths.GetOr(0) - tenureMin;
    [ None,
      if apr <= 9.5 then Some("Low APR") else None,
      if tenureMin <= 6 then Some("Fast disbursal") else None,
      if tenureRange >= 48 then Some("Flexible tenure") else None,
      if minCredit <= 650 then Some("Low credit req") else None ]
  }

  /** The badges of a card. */
  function Badges(p: Product): seq<string> {
    ProductsArea.TruthyStrings(BadgeSlots(p))
  }

  /** A label is a badge exactly when its slot holds it. */
  lemma BadgeSlot(p: Product, b: string)
    ensures b in Badges(p) <==> b != "" && Some(b) in BadgeSlots(p)[1..]
  {
    var s := BadgeSlots(p);
    assert s == [None] + s[1..];
  }

  /** The labels the four slots hold, each with its threshold rule. */
  lemma BadgeSlotRules(p: Product, b: string)
    ensures b in Badges(p) <==>
              || (b == "Low APR" && p.rateApr.GetOr(0.0) <= 9.5)
              || (b == "Fast disbursal" && p.tenureMinMonths.GetOr(0) <= 6)
              || (b == "Flexible tenure" && p.tenureMaxMonths.GetOr(0) - p.tenureMinMonths.GetOr(0) >= 48)
              || (b == "Low credit req" && p.minCreditScore.GetOr(9999) <= 650)
  {
    BadgeSlot(p, b);
    var t := BadgeSlots(p)[1..];
    assert Some(b) in t <==> Some(b) == t[0] || Some(b) == t[1] || Some(b) == t[2] || Some(b) == t[3];
  }

  /** The threshold rules: each badge appears iff its rule holds, and there are no others. */
  lemma BadgeRules(p: Product)
    ensures "Low APR" in Badges(p) <==> p.rateApr.GetOr(0.0) <= 9.5
    ensures "Fast disbursal" in Badges(p) <==> p.tenureMinMonths.GetOr(0) <= 6
    ensures "Flexible tenure" in Badges(p) <==> p.tenureMaxMonths.GetOr(0) - p.tenureMinMonths.GetOr(0) >= 48
    ensures "Low credit req" in Badges(p) <==> p.minCreditScore.GetOr(9999) <= 650
    ensures forall b :: b in Badges(p) ==> b in ["Low APR", "Fast disbursal", "Flexible tenure", "Low credit req"]
  {
    assert "Low APR"[4] != "Low credit req"[4] && "Fast disbursal"[1] != "Flexible tenure"[1];
    assert "Low APR"[0] != "Fast disbursal"[0] && "Low APR"[0] != "Flexible tenure"[0];
    assert "Low credit req"[0] != "Fast disbursal"[0] && "Low credit req"[0] != "Flexible tenure"[0];
    BadgeSlotRules(p, "Low APR");
    BadgeSlotRules(p, "Fast disbursal");
    BadgeSlotRules(p, "Flexible tenure");
    BadgeSlotRules(p, "Low credit req");
    forall b | b in Badges(p)
      ensures b in ["Low APR", "Fast disbursal", "Flexible tenure", "Low credit req"]
    {
      BadgeSlotRules(p, b);
    }
  }

  /** Slots holding pairwise different labels give a list without repeats. */
  lemma {:induction false} TruthyStringsNoDup(vs: seq<Option<string>>)
    requires forall i, j :: 0 <= i < j < |vs| && vs[i].Some? && vs[j].Some? ==> vs[i].value != vs[j].value
    ensures NoDup(ProductsArea.TruthyStrings(vs))
  {
    if vs != [] {
      var rest := vs[1..];
      forall i, j | 0 <= i < j < |rest| && rest[i].Some? && rest[j].Some? ensures rest[i].value != rest[j].value {
        assert rest[i] == vs[i + 1] && rest[j] == vs[j + 1];
      }
      TruthyStringsNoDup(rest);
      var t := ProductsArea.TruthyStrings(rest);
      if vs[0].Some? && vs[0].value != "" {
        assert vs[0].value !in t;
        var r := [vs[0].value] + t;
        forall i, j | 0 <= i < j < |r| ensures r[i] != r[j] {
          if i == 0 { assert r[j] == t[j - 1]; assert t[j - 1] in t; } else { assert r[i] == t[i - 1] && r[j] == t[j - 1]; }
        }
      }
    }
  }

  /** A badge is never listed twice, so the labels are distinct React keys. */
  lemma BadgesDistinct(p: Product)
    ensures NoDup(Badges(p))
  {
    var s := BadgeSlots(p);
    assert "Low APR"[4] != "Low credit req"[4] && "Fast disbursal"[1] != "Flexible tenure"[1];
    assert "Low APR"[0] != "Fast disbursal"[0] && "Low APR"[0] != "Flexible tenure"[0];
    assert "Low credit req"[0] != "Fast disbursal"[0] && "Low credit req"[0] != "Flexible tenure"[0];
    TruthyStringsNoDup(s);
  }

  /** One product card. */
  datatype Card = Card(product: Product, bestMatch: bool, badges: seq<string>)

  /** What the panel renders. */
  datatype Screen =
    | FormScreen(submitting: bool)
    | LoadingScreen
    | EmptyScreen
    | ListScreen(title: string, basedOn: Option<(string, string)>, cards: seq<Card>)

  const RecommendedTitle: string := "Top 5 Products (Recommended for You)"
  const LowAprTitle: string := "Top 5 Products (Low APR)"

  // ---------------------------------------------------------------------
  // The component

  class TopProductsPanel {
    var userPrefs: Option<Prefs>
    var products: seq<Product>
    var isLoading: bool
    var showForm: bool
    var isSubmitting: bool
    /** The storage entry under `StorageKey`. */
    var stored: Option<string>

    /** The first render, before the mount effect runs, over whatever storage holds. */
    constructor (saved: Option<string>)
      ensures userPrefs.None? && products == [] && isLoading && !showForm && !isSubmitting
      ensures stored == saved
    {
      userPrefs := None;
      products := [];
      isLoading := true;
      showForm := false;
      isSubmitting := false;
      stored := saved;
    }

    /** The screen for the current state: form, then loading, then empty, then the list. */
    function View(): (s: Screen)
      reads this
      ensures s.FormScreen? <==> showForm
      ensures s.LoadingScreen? <==> !showForm && isLoading
      ensures s.EmptyScreen? <==> !showForm && !isLoading && products == []
      ensures s.ListScreen? ==>
                && (s.title == RecommendedTitle <==> userPrefs.Some?)
                && (s.title == LowAprTitle <==> userPrefs.None?)
                && |s.cards| == |products|
                && (forall i :: 0 <= i < |products| ==>
                      s.cards[i].product == products[i] && s.cards[i].badges == Badges(products[i])
                      && (s.cards[i].bestMatch <==> userPrefs.Some? && i == 0))
    {
      if showForm then FormScreen(isSubmitting)
      else if isLoading then LoadingScreen
      else if |products| == 0 then EmptyScreen
      else
        var title := if userPrefs.Some? then RecommendedTitle else LowAprTitle;
        var basedOn := if userPrefs.Some? then Some((userPrefs.value.occupation, userPrefs.value.purpose)) else None;
        ListScreen(title, basedOn,
          seq(|products|, i requires 0 <= i < |products| reads this =>
            Card(products[i], userPrefs.Some? && i == 0, Badges(products[i]))))
    }

    /** `loadDefaultProducts`: take the rows if the query returned any, and stop loading. */
    method LoadDefaultProducts(defaults: Fetch)
      modifies this`products, this`isLoading
      ensures products == (if defaults.Rows? then defaults.rows else old(products))
      ensures !isLoading
    {
      isLoading := true;
      if defaults.Rows? {
        products := defaults.rows;
      }
      isLoading := false;
    }

    /** `loadRecommendedProducts`: the rows in recommended order, or the default list if the query fails or throws. */
    method LoadRecommendedProducts(ids: seq<string>, recommended: Fetch, defaults: Fetch)
      modifies this`products, this`isLoading
      ensures recommended.Rows? ==> products == Reorder(ids, recommended.rows)
      ensures !recommended.Rows? ==> products == (if defaults.Rows? then defaults.rows else old(products))
      ensures !isLoading
    {
      isLoading := true;
      if recommended.Rows? {
        products := Reorder(ids, recommended.rows);
      } else {
        LoadDefaultProducts(defaults);
      }
      isLoading := false;
    }

    /** The mount effect; `parse` is `JSON.parse` of the stored text, `None` when it throws. */
    method Mount(parse: string -> Option<Prefs>, recommended: Fetch, defaults: Fetch)
      modifies this`userPrefs, this`products, this`isLoading, this`showForm, this`stored
      ensures !isLoading
      ensures (old(stored).Some? && old(stored).value != "" && parse(old(stored).value).Some?) ==>
                && userPrefs == parse(old(stored).value) && !showForm && stored == old(stored)
                && products == (if recommended.Rows? then Reorder(userPrefs.value.recommendedProductIds, recommended.rows)
                                else if defaults.Rows? then defaults.rows else old(products))
      ensures (old(stored).Some? && old(stored).value != "" && parse(old(stored).value).None?) ==>
                && stored.None? && userPrefs == old(userPrefs) && showForm == old(showForm)
                && products == (if defaults.Rows? then defaults.rows else old(products))
      ensures (old(stored).None? || old(stored).value == "") ==>
                && showForm && stored == old(stored) && userPrefs == old(userPrefs)
                && products == (if defaults.Rows? then defaults.rows else old(products))
    {
      if stored.Some? && stored.value != "" {
        var prefs := parse(stored.value);
        if prefs.Some? {
          userPrefs := prefs;
          showForm := false;
          LoadRecommendedProducts(prefs.value.recommendedProductIds, recommended, defaults);
        } else {
          stored := None;
          LoadDefaultProducts(defaults);
        }
      } else {
        showForm := true;
        LoadDefaultProducts(defaults);
      }
    }

    /** `handleFormSubmit`; `serialize` is `JSON.stringify` and `now` is `Date.now()`. */
    method HandleFormSubmit(reply: SubmitReply, now: int, serialize: Prefs -> string, recommended: Fetch, defaults: Fetch)
      modifies this
      ensures !isSubmitting
      ensures reply.SubmitFailed? ==>
                && userPrefs == old(userPrefs) && products == old(products) && isLoading == old(isLoading)
                && showForm == old(showForm) && stored == old(stored)
      ensures reply.SubmitOk? ==>
                var prefs := Prefs(reply.userProfile.income, reply.userProfile.occupation, reply.userProfile.purpose,
                                   reply.productIds, now);
                && userPrefs == Some(prefs) && stored == Some(serialize(prefs)) && !showForm && !isLoading
                && products == (if recommended.Rows? then Reorder(reply.productIds, recommended.rows)
                                else if defaults.Rows? then defaults.rows else old(products))
    {
      isSubmitting := true;
      if reply.SubmitOk? {
        var prefs := Prefs(reply.userProfile.income, reply.userProfile.occupation, reply.userProfile.purpose,
                           reply.productIds, now);
        stored := Some(serialize(prefs));
        userPrefs := Some(prefs);
        showForm := false;
        LoadRecommendedProducts(reply.productIds, recommended, defaults);
      }
      isSubmitting := false;
    }

    /** `handleGetMoreSuggestions`: forget the preferences and bring the form back. */
    method HandleGetMoreSuggestions()
      modifies this`stored, this`userPrefs, this`products, this`showForm
      ensures stored.None? && userPrefs.None? && products == [] && showForm
      ensures isLoading == old(isLoading) && isSubmitting == old(isSubmitting)
      ensures View() == FormScreen(isSubmitting)
    {
      stored := None;
      userPrefs := None;
      products := [];
      showForm := true;
    }
  }

  // ---------------------------------------------------------------------
  // Scenarios across a reload

  /**
   * A visitor with nothing stored sees the form; after a successful submit, a
   * reload of the page finds the saved preferences and shows the recommended list
   * without the form, provided `JSON.parse` reads back what `JSON.stringify` wrote.
   */
  method SubmitThenReload(
    parse: string -> Option<Prefs>, serialize: Prefs -> string,
    ids: seq<string>, profile: Recommend.Profile, now: int, rows: seq<Product>, defaults: Fetch)
    returns (firstScreen: Screen, prefsAfterReload: Option<Prefs>, reloadScreen: Screen)
    requires forall p :: serialize(p) != "" && parse(serialize(p)) == Some(p)
    ensures firstScreen == FormScreen(false)
    ensures prefsAfterReload == Some(Prefs(profile.income, profile.occupation, profile.purpose, ids, now))
    ensures Reorder(ids, rows) == [] ==> reloadScreen == EmptyScreen
    ensures Reorder(ids, rows) != [] ==>
              && reloadScreen.ListScreen? && reloadScreen.title == RecommendedTitle
              && |reloadScreen.cards| == |Reorder(ids, rows)| && reloadScreen.cards[0].bestMatch
  {
    var panel := new TopProductsPanel(None);
    panel.Mount(parse, Failed, defaults);
    firstScreen := panel.View();
    panel.HandleFormSubmit(SubmitOk(ids, profile), now, serialize, Rows(rows), defaults);
    var reloaded := new TopProductsPanel(panel.stored);
    reloaded.Mount(parse, Rows(rows), defaults);
    prefsAfterReload := reloaded.userPrefs;
    reloadScreen := reloaded.View();
  }

  /** Unreadable saved preferences are removed and the default list is shown, without the form. */
  method CorruptPrefsSkipForm(parse: string -> Option<Prefs>, text: string, defaults: seq<Product>)
    returns (storedAfter: Option<string>, screen: Screen)
    requires text != "" && parse(text).None? && defaults != []
    ensures storedAfter.None?
    ensures screen.ListScreen? && screen.title == LowAprTitle
  {
    var panel := new TopProductsPanel(Some(text));
    panel.Mount(parse, Failed, Rows(defaults));
    storedAfter := panel.stored;
    screen := panel.View();
  }
}
