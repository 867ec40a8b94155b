/// The text the product page builds (`components/product-details-client.tsx`):
/// `formatMonths`, the two tenure texts, `renderTextContent` and the shape
/// dispatch of `renderFAQ`. `JSON.stringify` and `String(...)` of values
/// that are neither strings nor FAQ items are the parameters `stringify`
/// and `show`.
module ProductDetails {
  import opened Wrappers
  import opened Strings
  import opened ProductTypes

  // ---------------------------------------------------------------------
  // formatMonths

  /** The count `n` and `word`, with an "s" when `n > 1`, as the template literals write it. */
  function Counted(n: int, word: string): string {
    IntText(n) + " " + Plural(n, word)
  }

  /** `formatMonths(months)`; a null count is "N/A". */
  function FormatMonths(months: Option<int>): string {
    match months
    case None => "N/A"
    case Some(m) =>
      if m < 12 then IntText(m) + " months"
      else
        var years := m / 12;
        var remainingMonths := m % 12;
        if remainingMonths == 0 then Counted(years, "year")
        else Counted(years, "year") + " " + Counted(remainingMonths, "month")
  }

  /** Reads the words of a `formatMonths` text back into the count they show. */
  function ParseMonthWords(w: seq<string>): Option<int> {
    if |w| == 2 && w[1] == "months" then ParseInt(w[0])
    else if |w| == 2 && (w[1] == "year" || w[1] == "years") then
      match ParseInt(w[0])
      case Some(y) => Some(12 * y)
      case None => None
    else if |w| == 4 && (w[1] == "year" || w[1] == "years") && (w[3] == "month" || w[3] == "months") then
      match (ParseInt(w[0]), ParseInt(w[2]))
      case (Some(y), Some(r)) => Some(12 * y + r)
      case _ => None
    else None
  }

  /** Reads a `formatMonths` text back into the count it shows; `Some(None)` for "N/A". */
  function ParseMonths(t: string): Option<Option<int>> {
    if t == "N/A" then Some(None)
    else
      match ParseMonthWords(Split(t, ' '))
      case Some(m) => Some(Some(m))
      case None => None
  }

  lemma IntTextHasNoSpace(i: int)
    ensures ' ' !in IntText(i)
  {
    var t := IntText(i);
    forall k | 0 <= k < |t| ensures t[k] != ' ' {
    }
  }

  function Plural(n: int, word: string): string {
    word + (if n > 1 then "s" else "")
  }

  lemma JoinTwo(a: string, b: string, sep: string)
    ensures Join([a, b], sep) == a + sep + b
  {
    assert [a, b][1..] == [b];
  }

  lemma JoinFour(a: string, b: string, c: string, d: string, sep: string)
    ensures Join([a, b, c, d], sep) == a + sep + b + sep + c + sep + d
  {
    JoinTwo(a, b, sep);
    JoinTwo(c, d, sep);
    assert [a, b, c, d] == [a, b] + [c, d];
    JoinAppend([a, b], [c, d], sep);
  }

  /** A non-"N/A" text whose words are `ws` reads back as `ParseMonthWords(ws)`. */
  lemma ParseMonthsOfWords(t: string, ws: seq<string>)
    requires |ws| >= 1 && forall i :: 0 <= i < |ws| ==> ' ' !in ws[i]
    requires t == Join(ws, " ") && t != "N/A"
    ensures ParseMonthWords(ws).Some? ==> ParseMonths(t) == Some(ParseMonthWords(ws))
  {
    SplitJoin(ws, ' ');
  }

  /** A text starting with a numeral is not "N/A". */
  lemma NotNA(t: string, numeral: string)
    requires |numeral| >= 1 && (IsDigit(numeral[0]) || numeral[0] == '-')
    requires |numeral| <= |t| && t[..|numeral|] == numeral
    ensures t != "N/A"
  {
    assert t[0] == numeral[0];
    assert "N/A"[0] == 'N';
  }

  lemma FormatMonthsUnderAYear(m: int)
    requires m < 12
    ensures ParseMonths(FormatMonths(Some(m))) == Some(Some(m))
  {
    var ws := [IntText(m), "months"];
    JoinTwo(IntText(m), "months", " ");
    IntTextHasNoSpace(m);
    ParseIntText(m);
    assert ParseMonthWords(ws) == Some(m);
    NotNA(FormatMonths(Some(m)), IntText(m));
    ParseMonthsOfWords(FormatMonths(Some(m)), ws);
  }

  lemma FormatMonthsWholeYears(m: int)
    requires m >= 12 && m % 12 == 0
    ensures ParseMonths(FormatMonths(Some(m))) == Some(Some(m))
  {
    var y := m / 12;
    var ws := [IntText(y), Plural(y, "year")];
    JoinTwo(IntText(y), Plural(y, "year"), " ");
    IntTextHasNoSpace(y);
    ParseIntText(y);
    assert ParseMonthWords(ws) == Some(12 * y);
    NotNA(FormatMonths(Some(m)), IntText(y));
    ParseMonthsOfWords(FormatMonths(Some(m)), ws);
  }

  /** A years-and-months text reads back as 12 * years + months. */
  lemma YearsAndMonthsText(y: int, r: int)
    requires y >= 1 && 1 <= r < 12
    ensures ParseMonths(Counted(y, "year") + " " + Counted(r, "month")) == Some(Some(12 * y + r))
  {
    var ws := [IntText(y), Plural(y, "year"), IntText(r), Plural(r, "month")];
    JoinFour(IntText(y), Plural(y, "year"), IntText(r), Plural(r, "month"), " ");
    var t := Counted(y, "year") + " " + Counted(r, "month");
    assert t == Join(ws, " ");
    IntTextHasNoSpace(y);
    IntTextHasNoSpace(r);
    YearsAndMonthsWords(y, r);
    ParseIntText(y);
    NotNA(t, IntText(y));
    ParseMonthsOfWords(t, ws);
  }

  /** The four words of a years-and-months text read back as 12 * years + months. */
  lemma YearsAndMonthsWords(y: int, r: int)
    requires y >= 1 && 1 <= r < 12
    ensures ParseMonthWords([IntText(y), Plural(y, "year"), IntText(r), Plural(r, "month")]) == Some(12 * y + r)
  {
    var ws := [IntText(y), Plural(y, "year"), IntText(r), Plural(r, "month")];
    ParseIntText(y);
    ParseIntText(r);
    assert ws[1] == "year" || ws[1] == "years";
    assert ws[3] == "month" || ws[3] == "months";
  }

  lemma FormatMonthsYearsAndMonths(m: int)
    requires m >= 12 && m % 12 != 0
    ensures ParseMonths(FormatMonths(Some(m))) == Some(Some(m))
  {
    var y, r := m / 12, m % 12;
    assert FormatMonths(Some(m)) == Counted(y, "year") + " " + Counted(r, "month");
    YearsAndMonthsText(y, r);
  }

  /**
   * The text determines the count: reading back what `formatMonths` shows gives the
   * count it was given (12 * years + months, with the months in 1..11).
   */
  lemma FormatMonthsRoundTrip(months: Option<int>)
    ensures ParseMonths(FormatMonths(months)) == Some(months)
  {
    if months.Some? {
      var m := months.value;
      if m < 12 {
        FormatMonthsUnderAYear(m);
      } else if m % 12 == 0 {
        FormatMonthsWholeYears(m);
      } else {
        FormatMonthsYearsAndMonths(m);
      }
    }
  }

  /** A shown count is a numeral followed by words; a hyphen can only be its sign. */
  lemma FormatMonthsChars(m: int)
    ensures var t := FormatMonths(Some(m));
            && |t| >= 1 && (IsDigit(t[0]) || t[0] == '-')
            && forall i :: 1 <= i < |t| ==> t[i] != '-'
  {
    var t := FormatMonths(Some(m));
    if m < 12 {
      assert t == IntText(m) + " months";
      forall i | 1 <= i < |t| ensures t[i] != '-' {
        if i < |IntText(m)| { assert t[i] == IntText(m)[i]; }
      }
    } else {
      var y, r := m / 12, m % 12;
      var c := Counted(y, "year");
      assert c[..|IntText(y)|] == IntText(y);
      forall i | 1 <= i < |c| ensures c[i] != '-' {
        if i < |IntText(y)| { assert c[i] == IntText(y)[i]; }
      }
      if r != 0 {
        var d := Counted(r, "month");
        forall i | 0 <= i < |d| ensures d[i] != '-' {
          if i < |IntText(r)| { assert d[i] == IntText(r)[i]; }
        }
        assert t == c + " " + d;
        forall i | 1 <= i < |t| ensures t[i] != '-' {
          if i < |c| { assert t[i] == c[i]; }
          else if i > |c| { assert t[i] == d[i - |c| - 1]; }
        }
      }
      assert t[0] == IntText(y)[0];
    }
  }

  // ---------------------------------------------------------------------
  // Tenure texts

  /** The "Tenure" metric: both bounds as "min - max", otherwise "N/A". */
  function TenureMetric(min: Option<int>, max: Option<int>): string {
    if min.Some? && max.Some? then FormatMonths(min) + " - " + FormatMonths(max) else "N/A"
  }

  /** The "Tenure Range" line of the Loan Terms section; `None` when the section is not shown. */
  function TenureRange(min: Option<int>, max: Option<int>): Option<string> {
    if min.None? && max.None? then None
    else Some(
      if min.Some? && max.Some? then FormatMonths(min) + " - " + FormatMonths(max)
      else if min.Some? then "From " + FormatMonths(min)
      else if max.Some? then "Up to " + FormatMonths(max)
      else "N/A")
  }

  /** The first position of " - " in `s`. */
  function FindRangeDash(s: string): (r: Option<nat>)
    ensures r.Some? ==> r.value + 3 <= |s| && s[r.value..r.value + 3] == " - "
  {
    if |s| < 3 then None
    else if s[..3] == " - " then Some(0)
    else
      match FindRangeDash(s[1..])
      case None => None
      case Some(k) => Some(k + 1)
  }

  lemma {:induction false} FindRangeDashAfter(a: string, b: string)
    requires forall i :: 1 <= i < |a| ==> a[i] != '-'
    ensures FindRangeDash(a + " - " + b) == Some(|a|)
  {
    var s := a + " - " + b;
    if a == [] {
      assert s[..3] == " - ";
    } else {
      assert s[1] != '-' by {
        if |a| > 1 { assert s[1] == a[1]; } else { assert s[1] == ' '; }
      }
      assert s[..3] != " - " by { assert s[..3][1] == s[1]; }
      assert s[1..] == a[1..] + " - " + b;
      FindRangeDashAfter(a[1..], b);
    }
  }

  /** Reads a tenure line back into its two bounds. */
  function ParseTenureRange(t: string): Option<(Option<int>, Option<int>)> {
    if StartsWith(t, "From ") then
      match ParseMonths(t[5..])
      case Some(Some(a)) => Some((Some(a), None))
      case _ => None
    else if StartsWith(t, "Up to ") then
      match ParseMonths(t[6..])
      case Some(Some(b)) => Some((None, Some(b)))
      case _ => None
    else
      match FindRangeDash(t)
      case None => None
      case Some(k) =>
        match (ParseMonths(t[..k]), ParseMonths(t[k + 3..]))
        case (Some(Some(a)), Some(Some(b))) => Some((Some(a), Some(b)))
        case _ => None
  }

  lemma TenureBothRoundTrip(a: int, b: int)
    ensures ParseTenureRange(TenureRange(Some(a), Some(b)).value) == Some((Some(a), Some(b)))
  {
    var sa, sb := FormatMonths(Some(a)), FormatMonths(Some(b));
    FormatMonthsChars(a);
    FormatMonthsRoundTrip(Some(a));
    FormatMonthsRoundTrip(Some(b));
    var t := sa + " - " + sb;
    assert t[0] == sa[0];
    assert "From "[0] == 'F' && "Up to "[0] == 'U';
    assert !StartsWith(t, "From ");
    assert !StartsWith(t, "Up to ");
    FindRangeDashAfter(sa, sb);
    assert t[..|sa|] == sa && t[|sa| + 3..] == sb;
  }

  lemma TenureFromRoundTrip(a: int)
    ensures ParseTenureRange(TenureRange(Some(a), None).value) == Some((Some(a), None))
  {
    var sa := FormatMonths(Some(a));
    FormatMonthsRoundTrip(Some(a));
    var t := "From " + sa;
    assert StartsWith(t, "From ") && t[5..] == sa;
  }

  lemma TenureUpToRoundTrip(b: int)
    ensures ParseTenureRange(TenureRange(None, Some(b)).value) == Some((None, Some(b)))
  {
    var sb := FormatMonths(Some(b));
    FormatMonthsRoundTrip(Some(b));
    var t := "Up to " + sb;
    assert t[..5][0] == 'U' && "From "[0] == 'F';
    assert StartsWith(t, "Up to ") && t[6..] == sb;
  }

  /**
   * The section is hidden exactly when both bounds are null, and otherwise its line
   * shows which bounds exist and what they are: reading it back gives both.
   */
  lemma TenureRangeRoundTrip(min: Option<int>, max: Option<int>)
    ensures TenureRange(min, max).None? <==> min.None? && max.None?
    ensures TenureRange(min, max).Some? ==> ParseTenureRange(TenureRange(min, max).value) == Some((min, max))
  {
    if min.Some? && max.Some? {
      TenureBothRoundTrip(min.value, max.value);
    } else if min.Some? {
      TenureFromRoundTrip(min.value);
    } else if max.Some? {
      TenureUpToRoundTrip(max.value);
    }
  }

  /** The metric and the Loan Terms line agree when both bounds exist; otherwise the metric is "N/A". */
  lemma TenureMetricAgrees(min: Option<int>, max: Option<int>)
    ensures min.Some? && max.Some? ==> TenureRange(min, max) == Some(TenureMetric(min, max))
    ensures !(min.Some? && max.Some?) ==> TenureMetric(min, max) == "N/A"
  {
  }

  // ---------------------------------------------------------------------
  // renderTextContent

  /** "Q: q\nA: a". */
  function FAQText(item: FAQItem): string {
    "Q: " + item.q + "\nA: " + item.a
  }

  /** The `map` callback for one array element. */
  function RenderItem(item: JsValue, stringify: JsValue -> string, show: JsValue -> string): string {
    if item.JsString? then item.s
    else if IsFAQItem(item) then FAQText(AsFAQItem(item))
    else if item.JsObject? || item.JsArray? then stringify(item)
    else show(item)
  }

  function RenderItems(items: seq<JsValue>, stringify: JsValue -> string, show: JsValue -> string): (r: seq<string>)
    ensures |r| == |items| && forall i :: 0 <= i < |items| ==> r[i] == RenderItem(items[i], stringify, show)
  {
    if items == [] then [] else [RenderItem(items[0], stringify, show)] + RenderItems(items[1..], stringify, show)
  }

  /** `renderTextContent(content)`. */
  function RenderTextContent(content: JsValue, stringify: JsValue -> string, show: JsValue -> string): string {
    if Falsy(content) then ""
    else if content.JsString? then content.s
    else if content.JsArray? then Join(RenderItems(content.items, stringify, show), "\n\n")
    else if IsFAQItem(content) then FAQText(AsFAQItem(content))
    else if content.JsObject? then stringify(content)
    else show(content)
  }

  /** The four cases the page relies on. */
  lemma RenderTextContentCases(content: JsValue, stringify: JsValue -> string, show: JsValue -> string)
    ensures Falsy(content) ==> RenderTextContent(content, stringify, show) == ""
    ensures content.JsString? ==> RenderTextContent(content, stringify, show) == content.s
    ensures IsFAQItem(content) ==>
              RenderTextContent(content, stringify, show) == "Q: " + content.fields["q"].s + "\nA: " + content.fields["a"].s
    ensures content.JsArray? && |content.items| == 1 ==>
              RenderTextContent(content, stringify, show) == RenderItem(content.items[0], stringify, show)
  {
  }

  /** A string or FAQ item renders the same alone or as the only element of an array. */
  lemma RenderSingleton(x: JsValue, stringify: JsValue -> string, show: JsValue -> string)
    requires x.JsString? || IsFAQItem(x)
    ensures RenderTextContent(JsArray([x]), stringify, show) == RenderTextContent(x, stringify, show)
  {
  }

  /** Rendering an array distributes over concatenation, with a blank line between the parts. */
  lemma RenderConcat(a: seq<JsValue>, b: seq<JsValue>, stringify: JsValue -> string, show: JsValue -> string)
    requires a != [] && b != []
    ensures RenderTextContent(JsArray(a + b), stringify, show)
         == RenderTextContent(JsArray(a), stringify, show) + "\n\n" + RenderTextContent(JsArray(b), stringify, show)
  {
    var ra, rb := RenderItems(a, stringify, show), RenderItems(b, stringify, show);
    RenderItemsConcat(a, b, stringify, show);
    RenderArray(a, stringify, show);
    RenderArray(b, stringify, show);
    RenderArray(a + b, stringify, show);
    JoinAppend(ra, rb, "\n\n");
  }

  lemma RenderItemsConcat(a: seq<JsValue>, b: seq<JsValue>, stringify: JsValue -> string, show: JsValue -> string)
    ensures RenderItems(a + b, stringify, show) == RenderItems(a, stringify, show) + RenderItems(b, stringify, show)
  {
    var r, ra, rb := RenderItems(a + b, stringify, show), RenderItems(a, stringify, show), RenderItems(b, stringify, show);
    forall i | 0 <= i < |r| ensures r[i] == (ra + rb)[i] {
      if i < |a| {
        assert (a + b)[i] == a[i];
      } else {
        assert (a + b)[i] == b[i - |a|];
      }
    }
  }

  /** An array renders as its elements' texts joined by blank lines. */
  lemma RenderArray(items: seq<JsValue>, stringify: JsValue -> string, show: JsValue -> string)
    ensures RenderTextContent(JsArray(items), stringify, show) == Join(RenderItems(items, stringify, show), "\n\n")
  {
    assert !Falsy(JsArray(items));
  }

  // ---------------------------------------------------------------------
  // renderFAQ

  /** What `renderFAQ` shows. */
  datatype FAQView =
    | NoFAQ
    | FAQParagraph(text: string)
    | FAQList(items: seq<FAQItem>)
    | FAQSingle(item: FAQItem)
    | FAQRaw(value: JsValue)

  function FAQItems(items: seq<JsValue>): (r: seq<FAQItem>)
    requires AllFAQItems(items)
    ensures |r| == |items|
  {
    if items == [] then [] else [AsFAQItem(items[0])] + FAQItems(items[1..])
  }

  /** The dispatch of `renderFAQ`: falsy, then string, then array of items, then a single item, then the fallback. */
  function RenderFAQ(faq: JsValue): FAQView {
    if Falsy(faq) then NoFAQ
    else if IsFAQString(faq) then FAQParagraph(faq.s)
    else if IsFAQArray(faq) then FAQList(FAQItems(faq.items))
    else if IsFAQItem(faq) then FAQSingle(AsFAQItem(faq))
    else FAQRaw(faq)
  }

  lemma {:induction false} FAQItemsAt(items: seq<JsValue>, i: nat)
    requires AllFAQItems(items) && i < |items|
    ensures IsFAQItem(items[i]) && FAQItems(items)[i] == AsFAQItem(items[i])
  {
    if i > 0 {
      FAQItemsAt(items[1..], i - 1);
    }
  }

  /**
   * Each view is chosen exactly when its guard holds (the guards being exclusive,
   * their order only matters for the empty string), and a list shows every pair in order.
   */
  lemma RenderFAQMeaning(faq: JsValue)
    ensures RenderFAQ(faq).NoFAQ? <==> Falsy(faq)
    ensures RenderFAQ(faq).FAQParagraph? <==> IsFAQString(faq) && faq.s != ""
    ensures RenderFAQ(faq).FAQList? <==> IsFAQArray(faq)
    ensures RenderFAQ(faq).FAQSingle? <==> IsFAQItem(faq)
    ensures RenderFAQ(faq).FAQList? ==>
              var items := RenderFAQ(faq).items;
              |items| == |faq.items|
              && forall i :: 0 <= i < |items| ==> IsFAQItem(faq.items[i]) && items[i] == AsFAQItem(faq.items[i])
  {
    GuardsExclusive(faq);
    if IsFAQArray(faq) {
      forall i | 0 <= i < |faq.items| ensures
        IsFAQItem(faq.items[i]) && FAQItems(faq.items)[i] == AsFAQItem(faq.items[i])
      {
        FAQItemsAt(faq.items, i);
      }
    }
  }
}
