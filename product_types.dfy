/// The product record and the FAQ type guards of `types/product.ts`.
module ProductTypes {
  import opened Wrappers

  /** A JavaScript value as the type guards see it (`unknown`); a number is never NaN here. */
  datatype JsValue =
    | JsUndefined
    | JsNull
    | JsBool(b: bool)
    | JsNumber(n: real)
    | JsString(s: string)
    | JsArray(items: seq<JsValue>)
    | JsObject(fields: map<string, JsValue>)

  /** JavaScript falsiness: `undefined`, `null`, `false`, `0` and `""`. */
  predicate Falsy(v: JsValue) {
    match v
    case JsUndefined => true
    case JsNull => true
    case JsBool(b) => !b
    case JsNumber(n) => n == 0.0
    case JsString(s) => s == ""
    case _ => false
  }

  /**
   * Property access `v.key`: `None` when it throws (on `null` or `undefined`), the
   * field of an object that has it, and `undefined` otherwise.
   */
  function GetField(v: JsValue, key: string): (r: Option<JsValue>)
    ensures r.None? <==> v.JsNull? || v.JsUndefined?
    ensures v.JsObject? && key in v.fields ==> r == Some(v.fields[key])
    ensures !(v.JsNull? || v.JsUndefined?) && !(v.JsObject? && key in v.fields) ==> r == Some(JsUndefined)
  {
    if v.JsNull? || v.JsUndefined? then None
    else if v.JsObject? && key in v.fields then Some(v.fields[key])
    else Some(JsUndefined)
  }

  /** One question/answer pair. */
  datatype FAQItem = FAQItem(q: string, a: string)

  /** A product row as the catalog store holds it; `loanType` is the `type` column. */
  datatype Product = Product(
    id: string,
    name: string,
    bank: Option<string>,
    loanType: Option<string>,
    rateApr: Option<real>,
    minIncome: Option<int>,
    minCreditScore: Option<int>,
    tenureMinMonths: Option<int>,
    tenureMaxMonths: Option<int>,
    summary: Option<string>,
    faq: JsValue,
    description: JsValue)

  /** `isFAQItem`: a non-null object whose `q` and `a` both exist and are strings. */
  predicate IsFAQItem(v: JsValue) {
    && v.JsObject?
    && "q" in v.fields && "a" in v.fields
    && v.fields["q"].JsString? && v.fields["a"].JsString?
  }

  /** The pair a value satisfying `isFAQItem` denotes. */
  function AsFAQItem(v: JsValue): (item: FAQItem)
    requires IsFAQItem(v)
    ensures JsString(item.q) == v.fields["q"] && JsString(item.a) == v.fields["a"]
  {
    FAQItem(v.fields["q"].s, v.fields["a"].s)
  }

  /** `items.every(isFAQItem)`, the element-by-element walk `every` performs. */
  predicate AllFAQItems(items: seq<JsValue>) {
    items == [] || (IsFAQItem(items[0]) && AllFAQItems(items[1..]))
  }

  /** `isFAQArray`: an array every element of which is a FAQ item. */
  predicate IsFAQArray(v: JsValue) {
    v.JsArray? && AllFAQItems(v.items)
  }

  /** `isFAQString`. */
  predicate IsFAQString(v: JsValue) {
    v.JsString?
  }

  /** `every` holds exactly when the guard holds at every index. */
  lemma {:induction false} AllFAQItemsEvery(items: seq<JsValue>)
    ensures AllFAQItems(items) <==> forall i :: 0 <= i < |items| ==> IsFAQItem(items[i])
  {
    if items != [] {
      AllFAQItemsEvery(items[1..]);
      assert forall i :: 1 <= i < |items| ==> items[i] == items[1..][i - 1];
    }
  }

  /** Appending one element to an array keeps it a FAQ array exactly when that element is a FAQ item. */
  lemma {:induction false} FAQArraySnoc(xs: seq<JsValue>, x: JsValue)
    ensures IsFAQArray(JsArray(xs + [x])) == (IsFAQArray(JsArray(xs)) && IsFAQItem(x))
  {
    if xs == [] {
      assert ([] + [x])[1..] == [];
    } else {
      assert (xs + [x])[1..] == xs[1..] + [x];
      FAQArraySnoc(xs[1..], x);
    }
  }

  /** The three guards never hold of the same value, and the empty array is a FAQ array. */
  lemma GuardsExclusive(v: JsValue)
    ensures !(IsFAQString(v) && IsFAQItem(v))
    ensures !(IsFAQString(v) && IsFAQArray(v))
    ensures !(IsFAQItem(v) && IsFAQArray(v))
    ensures IsFAQArray(JsArray([]))
  {
  }
}
