# Loan products site — a Dafny model

This project models the core of a small loan-comparison web application.
The application has a product catalog with filters, a "Top 5 Products" panel on
the home page, an onboarding form, and two chat surfaces that ask a language model
about a product. The model covers these parts:

- **`GET /api/products`** (`ProductsRoute`): builds the list of column constraints
  from the query parameters. The rows that satisfy all of them are exactly the rows
  the parameters are meant to select. The answer is those rows sorted by name.
- **`POST /api/products/recommend`** (`Recommend`):
  - the request check;
  - the 400, 404 and 500 paths;
  - the reconciliation of the model's candidate IDs against the catalog. This is
    what the application promises most strongly: at most five IDs, all from the
    catalog, the valid candidates first and in order, then the cheapest unused
    products by APR (a missing APR ranks as 999), or with no candidates the five
    cheapest.
- **`POST /api/products/ai/ask`** (`AskRoute`):
  - the trimmed question;
  - the optional product-context block;
  - the user and system turns sent to the model;
  - every store write and model call, in order, as a trace;
  - every error path.
- **The catalog page's client filter and drop-down lists** (`ProductsArea`).
- **The route guard** (`Middleware`).
- **The product page's text helpers** (`ProductDetails`): `formatMonths`, the
  tenure lines, `renderTextContent`, and the shape dispatch of `renderFAQ`. Each
  comes with a round-trip proof or a case proof.
- **The FAQ type guards and the product record** (`ProductTypes`).
- **The client components whose state changes step by step**, written as classes
  with `modifies` clauses, plus small scenario methods:
  - `TopProducts.TopProductsPanel`;
  - `AiChatModal.ChatModal`;
  - `ChatSheet.Sheet`;
  - `OnboardingForm.Form`.
- **Helper modules**: `Strings` (JavaScript `trim`, `startsWith`, integer text,
  split and join, the UTF-16 code-unit string order), `Seqs` (filter, take, dedup), `Sorting`
  (a stable insertion sort over a total preorder, the order `Array.prototype.sort`
  guarantees) and `Wrappers`.

How the outside world enters the model:

- Everything outside the application is an input value: the database answers, the
  language-model outcome, the session lookup, `process.env`, `Date.now()`,
  `JSON.parse` / `JSON.stringify` and `Number(...)`.
- A handler that calls out returns a trace of the calls it made.
- An `async` chat handler is split at its `await` into `Send` and `Receive`, so the
  in-flight state is visible.

In these places the code does something a reader might not expect; the model follows the code:

- A failed model call in the recommend route gives a 500 with no fallback list
  (`Recommend.ModelFailureHasNoFallback`).
- An unknown `productId` in the Q&A route is not a 404. The question is answered
  with an empty context (`AskRoute.UnknownProductStillAnswered`).
- Unreadable saved preferences are removed, but the onboarding form is not shown
  again (`TopProducts.CorruptPrefsSkipForm`).
- The client credit-score filter keeps products whose required score is at most
  the entered value. The server keeps those whose score is at least it: the two
  point in opposite directions (`ProductsRoute.CreditFiltersDisagree`).
- The Q&A route ignores the `history` the dialog sends. It replies with
  `{reply, productSummary}`, not `{answer, product}`.

## Model

| member | source | states |
|---|---|---|
| ProductTypes.GetField | components/ai-chat-modal.tsx:55-56 | property access throws exactly on null/undefined, gives the field of an object that has it, and `undefined` for any other value or missing key |
| ProductTypes.IsFAQItem | types/product.ts:39-48 | the `isFAQItem` guard; `AsFAQItem` and `GuardsExclusive` state what it admits |
| ProductTypes.IsFAQArray | types/product.ts:50-52 | the `isFAQArray` guard; `AllFAQItemsEvery` and `FAQArraySnoc` state what it admits |
| ProductTypes.IsFAQString | types/product.ts:54-56 | the `isFAQString` guard; `GuardsExclusive` relates it to the other two |
| ProductTypes.AsFAQItem | types/product.ts:39-48 | a value passing `isFAQItem` has string fields `q` and `a`, which are the pair |
| ProductTypes.AllFAQItemsEvery | types/product.ts:50-52 | the `every` walk holds iff every element is a FAQ item |
| ProductTypes.FAQArraySnoc | types/product.ts:50-52 | appending keeps an array a FAQ array iff the new element is a FAQ item |
| ProductTypes.GuardsExclusive | types/product.ts:39-56 | the string, item and array guards never hold together; the empty array is a FAQ array |
| ProductsRoute.ServerMatch | app/api/products/route.ts:16-30 | the reference meaning of the query parameters, column by column; `BuildQuery` is proved to select exactly these rows |
| ProductsRoute.Matching | app/api/products/route.ts:14-37 | the rows the route answers with; `MatchingMeaning` states that they are the matching rows in name order |
| ProductsRoute.BuildQuery | app/api/products/route.ts:14-30 | at most four constraints, each from a truthy parameter (numeric ones only when `Number` is not NaN); none without parameters; a row satisfies all of them iff it matches every parameter column by column |
| ProductsRoute.Get | app/api/products/route.ts:5-41 | a throw is a 500 with the error message or "Unknown error"; a query error is a 500 with its message; otherwise 200 with exactly the matching rows in name order |
| ProductsRoute.MatchingMeaning | app/api/products/route.ts:32-37 | the answer is sorted by name, holds each matching row as often as the table does, and only matching rows |
| ProductsRoute.NameLeIsTotalPreorder | app/api/products/route.ts:32 | ordering by name is total and transitive |
| ProductsRoute.NoParamsReturnsAll | app/api/products/route.ts:16-30 | absent or empty parameters return every row of the table |
| ProductsRoute.EveryRowMatches | app/api/products/route.ts:16-30 | with no truthy parameter the answer is a permutation of the table |
| ProductsRoute.CreditFiltersDisagree | app/api/products/route.ts:27-30 | for one bound, a stated score other than the bound passes exactly one of the client and server filters; a missing score passes neither below 9999 |
| ProductsArea.Keeps | components/products-area.tsx:41-54 | the `filter` callback; `FilteredMeaning` states when it keeps an entry |
| ProductsArea.Filtered | components/products-area.tsx:40-55 | the filtered list; its meaning is stated by `FilteredMeaning`, `NoFiltersDropsOnlyNulls` and `FilteredIdempotent` |
| ProductsArea.FilteredMeaning | components/products-area.tsx:40-55 | the filtered list is an order-preserving subsequence; an entry is in it iff it is non-null and meets every control in force |
| ProductsArea.NoFiltersDropsOnlyNulls | components/products-area.tsx:40-55 | with all controls unset only the null entries are removed |
| ProductsArea.MissingAprPasses | components/products-area.tsx:45-48 | a product with no APR passes any non-negative APR bound |
| ProductsArea.MissingScoreExcluded | components/products-area.tsx:49-52 | a product with no credit score fails any numeric bound below 9999 |
| ProductsArea.NonNumericAprIgnored | components/products-area.tsx:45-48 | a NaN APR control filters exactly as an unset one |
| ProductsArea.NonNumericScoreIgnored | components/products-area.tsx:49-52 | a NaN credit-score control filters exactly as an unset one |
| ProductsArea.FilteredIdempotent | components/products-area.tsx:40-55 | filtering twice with the same controls equals filtering once |
| ProductsArea.TruthyStrings | components/products-area.tsx:29-37 | `filter(Boolean)` keeps exactly the present non-empty strings |
| ProductsArea.DistinctSorted | components/products-area.tsx:29-37 | an option list; `DistinctSortedMeaning` states what it holds |
| ProductsArea.DistinctSortedMeaning | components/products-area.tsx:29-37 | the option list is sorted in the UTF-16 code-unit order of `sort()`, without repeats or empty strings, and holds every truthy value |
| ProductsArea.Options | components/products-area.tsx:29-37 | the `banks` or `types` list, `None` when a null entry makes the `map` callback throw; `OptionsMeaning` states what it holds |
| ProductsArea.OptionsMeaning | components/products-area.tsx:29-37 | the bank and type lists exist iff no entry is null, and then hold, once each and in the code-unit order of `sort()`, the non-empty values some product has |
| Recommend.CheaperOrEqualIsPreorder | app/api/products/recommend/route.ts:133-134 | the APR comparator (missing APR = 999) is a total preorder |
| Recommend.ValidCandidates | app/api/products/recommend/route.ts:139-141 | the candidates that name a catalog product, in order; `CandidatesComeFirst` states it |
| Recommend.Padding | app/api/products/recommend/route.ts:145-151 | the products that fill up the list; `PaddingIsPoolHead`, `PaddingIsUnused` and `PaddingIsCheapest` state what they are |
| Recommend.Combined | app/api/products/recommend/route.ts:131-153 | the list before the final cut; `FallbackIsCheapestFive` and `ReconcileWithCandidates` state it for each branch |
| Recommend.Reconcile | app/api/products/recommend/route.ts:131-157 | at most five IDs, every one naming a catalog product |
| Recommend.ByAprIsStableSort | app/api/products/recommend/route.ts:133-134 | the APR order is a permutation, ascending by rank, keeping ties in catalog order |
| Recommend.TakeIsCheapest | app/api/products/recommend/route.ts:133-135 | none of the first k costs more than any product left out |
| Recommend.FallbackIsCheapestFive | app/api/products/recommend/route.ts:131-136 | with no candidates the answer is the IDs of the first min(5, n) products in APR order |
| Recommend.ReconcileWithCandidates | app/api/products/recommend/route.ts:137-157 | with candidates the answer is the capped valid candidates followed by the padding, nothing cut |
| Recommend.NoValidCandidateIsFallback | app/api/products/recommend/route.ts:139-153 | candidates none of which is in the catalog give the same answer as no candidates |
| Recommend.EmptyPrefixPadding | app/api/products/recommend/route.ts:145-153 | with nothing chosen the padding is the five cheapest of the catalog |
| Recommend.CandidatesComeFirst | app/api/products/recommend/route.ts:139-142 | the answer starts with the valid candidates in their order (capped at five), and they are a subsequence of the candidates |
| Recommend.PaddingIsPoolHead | app/api/products/recommend/route.ts:145-151 | the padding is the head of the APR order of the unused products, of length 5 - chosen |
| Recommend.PaddingIsUnused | app/api/products/recommend/route.ts:146-148 | every padding product is in the catalog with an ID not already chosen |
| Recommend.PaddingIsCheapest | app/api/products/recommend/route.ts:147-150 | the padding ascends by APR and costs no more than any unused product it leaves out |
| Recommend.PaddingIsCheapestUnused | app/api/products/recommend/route.ts:145-153 | after the candidates come the cheapest unused catalog products, ascending by APR |
| Recommend.WithoutIdsCount | app/api/products/recommend/route.ts:146-148 | with distinct catalog IDs, removing a set of IDs removes one product per ID of the set that the catalog has |
| Recommend.ReconcileLength | app/api/products/recommend/route.ts:139-157 | with distinct catalog IDs the answer has min(5, n + chosen - distinct chosen) IDs |
| Recommend.UnusedCount | app/api/products/recommend/route.ts:146-148 | the unused products are the catalog less one per distinct chosen ID |
| Recommend.FiveFromLargeCatalog | app/api/products/recommend/route.ts:130-157 | at least five products with distinct IDs always give exactly five IDs |
| Recommend.SmallCatalogLength | app/api/products/recommend/route.ts:130-157 | with fewer than five products, one ID per product is returned iff the kept candidates hold no duplicate |
| Recommend.ParseRequest | app/api/products/recommend/route.ts:6-15 | accepted iff an object with the three fields as non-empty strings, and the profile holds exactly those strings |
| Recommend.Post | app/api/products/recommend/route.ts:12-166 | malformed JSON is a 500 with its message; a failed check a 400 before any call; no products a 404 after the catalog fetch only; a 200 iff a recommendation, which is the reconciled IDs and the profile after exactly the fetch and one model call; a failed model call a 500 |
| Recommend.ModelFailureHasNoFallback | app/api/products/recommend/route.ts:94-101 | a failed model call is a 500 even when the catalog is non-empty |
| TopProducts.FindById | components/TopProducts.tsx:96-98 | finds a row iff one has the ID, and then the first such row |
| TopProducts.Reorder | components/TopProducts.tsx:96-98 | the `map`/`find`/`filter` reordering; `ReorderMeaning` states it |
| TopProducts.ReorderMeaning | components/TopProducts.tsx:96-98 | the reordered rows' IDs are the recommended IDs that have a row, in the same order; each is a fetched row |
| TopProducts.AllFoundKeepsOrder | components/TopProducts.tsx:96-98 | when every ID has a row the rows' IDs are exactly the recommended IDs |
| TopProducts.Badges | components/TopProducts.tsx:220-232 | a card's badges; `BadgeRules` and `BadgesDistinct` state which appear |
| TopProducts.BadgeSlotRules | components/TopProducts.tsx:220-232 | a label is a badge iff it is one of the four labels and its threshold rule holds |
| TopProducts.BadgeRules | components/TopProducts.tsx:220-232 | each badge appears iff its rule holds (APR <= 9.5, min tenure <= 6, range >= 48, score <= 650, with the defaults), and there are no others |
| TopProducts.BadgesDistinct | components/TopProducts.tsx:220-232 | no badge is listed twice |
| TopProducts.TopProductsPanel.constructor | components/TopProducts.tsx:40-44 | the first render: no preferences, no products, loading, no form, over the stored entry |
| TopProducts.TopProductsPanel.View | components/TopProducts.tsx:162-232 | form first, then loading, then empty, then the list; the title says recommended iff preferences exist; one card per product with its badges; only the first card is best match and only with preferences |
| TopProducts.TopProductsPanel.LoadDefaultProducts | components/TopProducts.tsx:65-83 | takes the rows when the query returns some, keeps the list otherwise, and stops loading |
| TopProducts.TopProductsPanel.LoadRecommendedProducts | components/TopProducts.tsx:85-110 | the rows in recommended order, or the default list when the query fails or throws; loading stops |
| TopProducts.TopProductsPanel.Mount | components/TopProducts.tsx:47-63 | readable stored preferences load the recommended list without the form; unreadable ones are removed and the defaults shown without the form; nothing stored shows the form over the defaults |
| TopProducts.TopProductsPanel.HandleFormSubmit | components/TopProducts.tsx:112-153 | a failed call changes nothing but the submitting flag; a success stores the preferences with the time stamp, hides the form and loads the recommended list |
| TopProducts.TopProductsPanel.HandleGetMoreSuggestions | components/TopProducts.tsx:155-160 | forgets the preferences and the list and shows the form |
| TopProducts.SubmitThenReload | components/TopProducts.tsx:47-153 | nothing stored shows the form; after a successful submit a reload finds the preferences and shows the recommended list with the first card as best match |
| TopProducts.CorruptPrefsSkipForm | components/TopProducts.tsx:47-63 | unreadable preferences are removed and the low-APR list is shown, not the form |
| ProductDetails.FormatMonths | components/product-details-client.tsx:24-31 | `formatMonths`; `FormatMonthsRoundTrip` states that its text reads back to the count |
| ProductDetails.FormatMonthsRoundTrip | components/product-details-client.tsx:24-31 | reading back the text of `formatMonths` gives the count it was given, and "N/A" for null |
| ProductDetails.FormatMonthsUnderAYear | components/product-details-client.tsx:26 | "n months" reads back as n |
| ProductDetails.FormatMonthsWholeYears | components/product-details-client.tsx:27-29 | a whole number of years reads back as 12 * years |
| ProductDetails.FormatMonthsYearsAndMonths | components/product-details-client.tsx:27-30 | years and months read back as 12 * years + months |
| ProductDetails.YearsAndMonthsText | components/product-details-client.tsx:30 | the years-and-months text reads back as 12 * years + months |
| ProductDetails.FormatMonthsChars | components/product-details-client.tsx:24-31 | a count's text starts with a digit or a sign and has no other hyphen |
| ProductDetails.FindRangeDash | components/product-details-client.tsx:224-225 | a found position holds " - " |
| ProductDetails.TenureRange | components/product-details-client.tsx:216-231 | the Loan Terms line; `TenureRangeRoundTrip` states it |
| ProductDetails.TenureRangeRoundTrip | components/product-details-client.tsx:216-231 | the Loan Terms section is hidden iff both bounds are null; otherwise its line reads back as both bounds |
| ProductDetails.TenureBothRoundTrip | components/product-details-client.tsx:224-225 | "min - max" reads back as both bounds |
| ProductDetails.TenureFromRoundTrip | components/product-details-client.tsx:226-227 | "From min" reads back as the lower bound only |
| ProductDetails.TenureUpToRoundTrip | components/product-details-client.tsx:228-229 | "Up to max" reads back as the upper bound only |
| ProductDetails.TenureMetric | components/product-details-client.tsx:147-149 | the tenure metric; `TenureMetricAgrees` relates it to the Loan Terms line |
| ProductDetails.TenureMetricAgrees | components/product-details-client.tsx:147-149 | the metric equals the Loan Terms line when both bounds exist, "N/A" otherwise |
| ProductDetails.RenderTextContent | components/product-details-client.tsx:34-59 | `renderTextContent`; `RenderTextContentCases`, `RenderArray` and `RenderConcat` state it |
| ProductDetails.RenderItems | components/product-details-client.tsx:40-49 | one text per array element, each the `map` callback's result |
| ProductDetails.RenderTextContentCases | components/product-details-client.tsx:34-59 | falsy gives "", a string itself, a FAQ item "Q: q\nA: a", a one-element array its element's text |
| ProductDetails.RenderSingleton | components/product-details-client.tsx:39-53 | a string or FAQ item renders alike alone and as the only array element |
| ProductDetails.RenderConcat | components/product-details-client.tsx:39-49 | rendering the concatenation of two non-empty arrays is the two renderings joined by a blank line |
| ProductDetails.RenderArray | components/product-details-client.tsx:39-49 | an array renders as its elements' texts joined by blank lines |
| ProductDetails.FAQItems | components/product-details-client.tsx:75-86 | one pair per array element |
| ProductDetails.RenderFAQ | components/product-details-client.tsx:62-104 | the view `renderFAQ` picks; `RenderFAQMeaning` states it |
| ProductDetails.RenderFAQMeaning | components/product-details-client.tsx:62-104 | each view is chosen iff its guard holds (a string needs to be non-empty); a list shows every pair in order |
| Middleware.Decide | middleware.ts:32-66 | the handler's answer; `SignedOutDecision`, `SignedInDecision` and `CaughtErrorsPass` state it |
| Middleware.RedirectTarget | middleware.ts:57 | the redirect parameter when it is non-empty, otherwise "/" |
| Middleware.IsPublicRouteMeaning | middleware.ts:37-41 | public iff one of the two roots or below one of them |
| Middleware.NearMissIsNotPublic | middleware.ts:37-41 | "/productsx" is not public, "/products/abc" is |
| Middleware.AuthorsIsAuthPage | middleware.ts:45 | "/authors" counts as an auth page, so it passes when signed out and redirects to "/" when signed in |
| Middleware.SignedOutDecision | middleware.ts:48-53 | signed out, a request is redirected to the login page iff it is no auth, API or public path, and it carries the path; otherwise it passes |
| Middleware.SignedInDecision | middleware.ts:55-66 | signed in, only auth pages redirect, to the redirect parameter or "/", and only when `new URL` accepts that target; when it throws the request passes; other paths pass |
| Middleware.LookupFailurePasses | middleware.ts:62-66 | a throw during the session lookup lets the request through |
| Middleware.CaughtErrorsPass | middleware.ts:32-66 | the `catch` answers exactly a throw of the session lookup or of `new URL` for a signed-in user on an auth page |
| Middleware.LoginPageNeverLoops | middleware.ts:47-59 | nobody is sent to the login page from the login page |
| AskRoute.Handle | app/api/products/ai/ask/route.ts:8-95 | the reference answer of the handler; `BlankMessageRejectedFirst` and `AnswerTrace` state it |
| AskRoute.Answer | app/api/products/ai/ask/route.ts:19-90 | the answer to a non-blank question; `AnswerTrace` states it |
| AskRoute.Consult | app/api/products/ai/ask/route.ts:41-90 | the key check, model call and saved reply; `ConsultExtends` and `AnswerTrace` state it |
| AskRoute.MessageText | app/api/products/ai/ask/route.ts:11 | the question; `MessageTextMeaning` and `MessageTextOfValues` state it |
| AskRoute.ProductSummary | app/api/products/ai/ask/route.ts:20-31 | the context block; `ProductSummaryMeaning` states it |
| AskRoute.UserPrompt | app/api/products/ai/ask/route.ts:44-46 | the user turn; `UserPromptLayout` states it |
| AskRoute.ReplyText | app/api/products/ai/ask/route.ts:79 | the saved reply; `BlankContentIsEmptyReply` states it |
| AskRoute.Post | app/api/products/ai/ask/route.ts:8-95 | the handler's response and calls are those of the reference function `Handle` |
| AskRoute.AnswerQuestion | app/api/products/ai/ask/route.ts:19-90 | steps 1 to 6 give the response and trace of the reference function `Answer` |
| AskRoute.LookupAndSave | app/api/products/ai/ask/route.ts:19-39 | the context block is that of the found row (or empty), and the trace is the optional lookup then the saved question |
| AskRoute.AskModel | app/api/products/ai/ask/route.ts:41-90 | the key check, model call and saved reply give the response and trace of `Consult` |
| AskRoute.BlankMessageRejectedFirst | app/api/products/ai/ask/route.ts:10-17 | a 400 iff the trimmed message is empty, and then with no call at all; otherwise the question is saved |
| AskRoute.AnswerTrace | app/api/products/ai/ask/route.ts:19-90 | lookup only for a given id, then the saved question, then with a key exactly one model call with the system and user turns, then on a reply the saved answer; 200 iff the answer was saved, returning what was saved; otherwise 500 |
| AskRoute.MessageTextMeaning | app/api/products/ai/ask/route.ts:11 | the message has no whitespace at either end and is trimmed already |
| AskRoute.MessageTextOfValues | app/api/products/ai/ask/route.ts:11 | a falsy message is empty; a string message is that string trimmed |
| AskRoute.ProductSummaryMeaning | app/api/products/ai/ask/route.ts:20-31 | the context is non-empty iff an id is given and its row found, and then begins with the name and APR lines |
| AskRoute.UserPromptLayout | app/api/products/ai/ask/route.ts:44-46 | the question closes the user turn after "User question:"; with context the turn opens with the context block |
| AskRoute.BlankContentIsEmptyReply | app/api/products/ai/ask/route.ts:79 | a whitespace-only reply becomes "", only a missing one the fallback |
| AskRoute.StringMessageAnswered | app/api/products/ai/ask/route.ts:11-17 | a non-blank string message is answered with its trimmed text |
| AskRoute.AnswerWithoutRow | app/api/products/ai/ask/route.ts:19-90 | an id with no row, a key and a reply give four calls and a 200 with an empty summary |
| AskRoute.UnknownProductStillAnswered | app/api/products/ai/ask/route.ts:19-31 | an unknown product id is answered with a 200 and an empty summary, and the model sees no context block |
| AskRoute.MissingKeyAfterSave | app/api/products/ai/ask/route.ts:34-52 | with no key the question has already been saved when the 500 is sent, and the model is not called |
| AiChatModal.AssistantMessage | components/ai-chat-modal.tsx:51-62 | the reply entry, read from a given field, is an assistant entry; a failed or thrown request or a `null` body shows the apology; a body that has the field shows it, any other body `undefined` |
| AiChatModal.AnswerAsWrittenIsUndefined | components/ai-chat-modal.tsx:55-56 | as written, every answer the Q&A route sends is shown as `undefined` |
| AiChatModal.AnswerIsRouteReply | components/ai-chat-modal.tsx:55-56 | reading `reply`, the dialog shows exactly the route's answer |
| AiChatModal.ChatModal.constructor | components/ai-chat-modal.tsx:17-19 | no messages, empty input, not loading |
| AiChatModal.ChatModal.SetInput | components/ai-chat-modal.tsx:124 | the input holds the typed text |
| AiChatModal.ChatModal.Send | components/ai-chat-modal.tsx:30-50 | ignored iff the button is disabled; otherwise clears the input, appends the trimmed question, starts loading and sends the list as it was before the question |
| AiChatModal.ChatModal.Receive | components/ai-chat-modal.tsx:51-64 | appends exactly one assistant entry, read from `data.answer` as written, and stops loading, whatever happened |
| AiChatModal.TwoQuestions | components/ai-chat-modal.tsx:30-66 | each request carries the list before its question; earlier entries never change; each question is followed by exactly its `data.answer` entry |
| AiChatModal.Exchange | components/ai-chat-modal.tsx:30-66 | one question while idle appends the question and its `data.answer` entry |
| AiChatModal.QuestionAnsweredByRoute | components/ai-chat-modal.tsx:30-66 | answered by the Q&A route, the dialog as written shows the question and then `undefined` |
| AiChatModal.NoSecondSendWhileLoading | components/ai-chat-modal.tsx:31 | a second question while the first is in flight is refused and the list is unchanged |
| ChatSheet.AssistantMsg | components/chat-sheet.tsx:50-62 | an assistant entry without time stamp; a thrown request shows the network-error text |
| ChatSheet.Sheet.constructor | components/chat-sheet.tsx:21-23 | no messages, empty text, not loading |
| ChatSheet.Sheet.Mount | components/chat-sheet.tsx:28-32 | the list becomes the welcome entry |
| ChatSheet.Sheet.SetText | components/chat-sheet.tsx:108 | the box holds the typed text |
| ChatSheet.Sheet.Send | components/chat-sheet.tsx:39-47 | blank text changes nothing; otherwise the trimmed text is appended as a stamped user entry, the box cleared, loading started and the request built |
| ChatSheet.Sheet.Receive | components/chat-sheet.tsx:48-64 | appends exactly one assistant entry and stops loading |
| ChatSheet.AssistantContent | components/chat-sheet.tsx:50-62 | shows the reply when present, the fixed text when it is missing or null, the network-error text when the request threw |
| ChatSheet.RouteReplyShown | components/chat-sheet.tsx:56 | a Q&A route reply is shown as sent |
| ChatSheet.KeysDiffer | components/chat-sheet.tsx:41-62 | the user and assistant entries of one send have different keys |
| ChatSheet.OneExchange | components/chat-sheet.tsx:28-64 | after mounting, one send adds exactly the user entry and the assistant entry behind the welcome entry, and loading ends |
| ChatSheet.EnterSendsWhileLoading | components/chat-sheet.tsx:108-113 | with no loading guard, Enter sends a second question while the button is disabled |
| ChatSheet.TypeAndSend | components/chat-sheet.tsx:39-47 | typing and pressing Enter appends the user entry and starts loading |
| OnboardingForm.Form.constructor | components/onboarding-form.tsx:12-14 | three empty fields |
| OnboardingForm.Form.SetIncome | components/onboarding-form.tsx:39 | the field holds the raw text |
| OnboardingForm.Form.SetOccupation | components/onboarding-form.tsx:54 | the field holds the raw text |
| OnboardingForm.Form.SetPurpose | components/onboarding-form.tsx:69 | the field holds the raw text |
| OnboardingForm.Form.HandleSubmit | components/onboarding-form.tsx:16-22 | submits iff no field is blank, and then the three trimmed values |
| OnboardingForm.TrimmedField | components/onboarding-form.tsx:21 | a non-blank field trims to a non-empty, already trimmed text |
| OnboardingForm.ProfileAccepted | app/api/products/recommend/route.ts:6-15 | three non-empty strings pass the recommend route's check unchanged |
| OnboardingForm.SubmittedProfileAccepted | components/onboarding-form.tsx:16-22 | whatever the form submits passes the recommend route's check unchanged |
| OnboardingForm.FillAndSubmit | components/onboarding-form.tsx:16-79 | the fields keep the raw text; the button is enabled iff something is submitted; what is submitted is accepted by the route |
| Strings.Trim | app/api/products/ai/ask/route.ts:11 | the result is no longer, has no whitespace at either end, and is empty iff the input is all whitespace |
| Strings.TrimIsInfix | app/api/products/ai/ask/route.ts:11 | the trimmed text is an infix with only whitespace around it |
| Strings.TrimIdempotent | components/onboarding-form.tsx:21 | trimming twice equals trimming once |
| Strings.CodeUnits | components/products-area.tsx:31 | a character is one code unit below U+10000 and a surrogate pair above, from which it can be read back |
| Strings.Utf16Injective | components/products-area.tsx:31 | distinct strings have distinct code units |
| Strings.LexLeIsTotalPreorder | components/products-area.tsx:29-37 | the UTF-16 code-unit order used by `sort()` is total and transitive |
| Strings.LexLeAntisymmetric | components/products-area.tsx:29-37 | two strings that sort no later than each other are equal |
| Strings.AstralBeforeHighBmp | components/products-area.tsx:31 | the order is by code units, not code points: U+1F600 sorts before U+FF21 |

## Left out

- The parsing of the model's reply in the recommend route (`JSON.parse`, the string-in-string case and the UUID regular-expression fallback, app/api/products/recommend/route.ts:111-128) is left out. The route takes the candidate ID list as an input.
- The prompt texts of the recommend route are not modelled; only the fact of the one model call and what it is given.
- The Q&A system prompt is modelled as the constant it is. The `model`, `temperature` and `max_tokens` request settings and the HTTP headers are left out.
- `Intl.NumberFormat` currency formatting, and the display of an APR as a JavaScript number, are parameters (`showApr`) or left out.
- `JSON.stringify`, `String(...)`, `JSON.parse` and `Number(...)` are parameters. `Number` returns `None` for NaN. Floating-point details are not modelled: APRs are `real`, counts are `int`.
- `formatMonths` of a non-integer count is not modelled. The count is an `int`.
- Cookies, the session refresh, `setAll` and the route matcher of middleware.ts are left out. `Decide` takes the session as an input, and whether `new URL` accepts a redirect target as the predicate `resolves`.
- The auth routes and forms, the header and the product card are not part of this model.
- `alert`, `console.*` and the logging inside catch blocks are left out.
- `localStorage` is the field `stored` of the panel. `Date.now()` and ISO time stamps are parameters.
- The order the store gives to rows whose names are equal, and any database collation, are left out: the route's names are compared in JavaScript's UTF-16 code-unit order (`LexLe`).
- The Q&A route ignores the `history` the dialog sends, and so does the model.
- The chat sheet posts to "/api/ai/ask". That route is not part of this model. `ChatSheet.RouteReplyShown` takes it to answer with the same `{reply, productSummary}` body as the product Q&A route.
- The intermediate `isLoading` renders between the statements of the panel's handlers are collapsed: each method states the state after it.
- The catch-all 500 is modelled through tagged inputs rather than arbitrary throws. In the recommend route it is the `Malformed` request with its message. In the ask route it is `Malformed` and `ModelThrew`. A throw from the stores is not modelled in either route.
- The `showChat` toggle of the product page and all rendering markup and JSX are left out.
- TopProducts.TopProductsPanel.Mount: `parse` either gives a preferences record or fails (`JSON.parse` throws, or gives `null`, whose field access then throws). Stored JSON that parses to another value, such as `{}`, is not modelled: the source then keeps that value as truthy `userPrefs`, hides the form and, when loading the recommended list fails, falls back to the low-APR list under the "Recommended for You" title.
- Recommend.Reconcile: its own contract states only the bound and catalog membership. The order and the padding are stated by the lemmas beside it.

## Findings

| source | as written | input that shows it | evidently intended | confidence | as-written member | corrected member |
|---|---|---|---|---|---|---|
| components/ai-chat-modal.tsx:55-56 | the dialog shows `data.answer`, but the Q&A route (app/api/products/ai/ask/route.ts:90) returns its answer under `reply` | any successful reply of the Q&A route, e.g. `{reply: "8.5% APR", productSummary: ""}` | show the route's reply | not executed | AiChatModal.AnswerAsWrittenIsUndefined | AiChatModal.AnswerIsRouteReply |
