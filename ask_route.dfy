/// `POST /api/products/ai/ask` (`app/api/products/ai/ask/route.ts`): the
/// question is trimmed, an optional product row becomes a context block,
/// the user message is saved, the language model is asked with a system and
/// a user turn, and its reply is saved and returned. The store lookup, the
/// server key and the model call are inputs; the handler records the
/// external calls it makes, in order, as a trace.
module AskRoute {
  import opened Wrappers
  import opened Strings
  import opened ProductTypes

  datatype Role = System | User | Assistant

  /** One turn of the outbound chat-completions message list. */
  datatype Turn = Turn(role: Role, content: string)

  /**
   * The request body: `Malformed` when `request.json()` threw or gave `null` (reading a
   * field of it then throws); otherwise the three fields, absent ones read as `undefined`
   * (so a body such as `5` has an undefined message), with null and absent ids as `None`.
   */
  datatype AskRequest =
    | Malformed
    | Parsed(message: JsValue, productId: Option<string>, userId: Option<string>)

  /** How the call to the language model ended; the content is `choices[0].message.content` when that path exists. */
  datatype ModelOutcome = ModelThrew | ModelNotOk | ModelOk(content: Option<string>)

  /** The external calls, in the order the handler makes them. */
  datatype Effect =
    | LookupProduct(id: string)
    | SaveMessage(userId: Option<string>, productId: Option<string>, role: Role, content: string)
    | CallModel(messages: seq<Turn>)

  datatype Body = ErrorBody(error: string) | Reply(reply: string, productSummary: string)

  datatype Response = Response(status: int, body: Body)

  const SystemPrompt: string :=
    "You are a helpful assistant for a loans site. Answer concisely and include APR, eligibility or next steps when relevant. When product context is available include the product name and APR."
  const NoReply: string := "Sorry, I couldn't generate a reply."

  /** `(body.message || "").toString().trim()`; `show` is `toString` of a value that is not a string. */
  function MessageText(message: JsValue, show: JsValue -> string): string {
    Trim(RawMessage(message, show))
  }

  /** `(body.message || "").toString()`. */
  function RawMessage(message: JsValue, show: JsValue -> string): string {
    if Falsy(message) then "" else if message.JsString? then message.s else show(message)
  }

  /** `${x}` of a nullable column: the value's text, or "null". */
  function NullableText<T>(v: Option<T>, text: T -> string): string {
    match v
    case None => "null"
    case Some(x) => text(x)
  }

  /** The context block for a product row; `showApr` is the text of a JavaScript number. */
  function ProductContext(p: Product, showApr: real -> string): string {
    "Product: " + p.name
    + "\nAPR: " + NullableText(p.rateApr, showApr)
    + "\nMinimum income: " + NullableText(p.minIncome, IntText)
    + "\nSummary: " + NullableText(p.summary, (s: string) => s)
  }

  /** `if (productId)`. */
  predicate HasProductId(productId: Option<string>) {
    productId.Some? && productId.value != ""
  }

  /** `productSummary` after step 1: the context block when an id is given and its row is found, else "". */
  function ProductSummary(productId: Option<string>, lookup: Option<Product>, showApr: real -> string): string {
    if HasProductId(productId) && lookup.Some? then ProductContext(lookup.value, showApr) else ""
  }

  /** The user turn: the context block, when there is one, before the question. */
  function UserPrompt(productSummary: string, message: string): string {
    if productSummary != "" then "Product context:\n" + productSummary + "\n\nUser question:\n" + message
    else "User question:\n" + message
  }

  /** `content?.trim() ?? fallback`: a present content is trimmed, even to ""; only a missing one is replaced. */
  function ReplyText(content: Option<string>): string {
    match content
    case None => NoReply
    case Some(c) => Trim(c)
  }

  /** The store calls made before the key check: the optional lookup, then the saved user message. */
  function Prelude(productId: Option<string>, userId: Option<string>, message: string): seq<Effect> {
    (if HasProductId(productId) then [LookupProduct(productId.value)] else [])
    + [SaveMessage(userId, productId, User, message)]
  }

  /** What the handler answers and which external calls it makes, for a request it has read. */
  function Handle(request: AskRequest, show: JsValue -> string, lookup: Option<Product>, showApr: real -> string,
                  apiKey: Option<string>, model: ModelOutcome): (Response, seq<Effect>)
  {
    if request.Malformed? then (Response(500, ErrorBody("Server error")), [])
    else
      var message := MessageText(request.message, show);
      if message == "" then (Response(400, ErrorBody("No message provided")), [])
      else Answer(request.productId, request.userId, message, lookup, showApr, apiKey, model)
  }

  /** Steps 1 to 6 for a non-empty message. */
  function Answer(productId: Option<string>, userId: Option<string>, message: string, lookup: Option<Product>,
                  showApr: real -> string, apiKey: Option<string>, model: ModelOutcome): (Response, seq<Effect>)
  {
    Consult(productId, userId, message, ProductSummary(productId, lookup, showApr), Prelude(productId, userId, message), apiKey, model)
  }

  /** Steps 3 to 6: after the store calls in `prelude`, the key check, the model call and the saved reply. */
  function Consult(productId: Option<string>, userId: Option<string>, message: string, summary: string,
                   prelude: seq<Effect>, apiKey: Option<string>, model: ModelOutcome): (Response, seq<Effect>)
  {
    if apiKey.None? || apiKey.value == "" then (Response(500, ErrorBody("OPENAI_API_KEY missing on server")), prelude)
    else
      var call := CallModel([Turn(System, SystemPrompt), Turn(User, UserPrompt(summary, message))]);
      match model
      case ModelThrew => (Response(500, ErrorBody("Server error")), prelude + [call])
      case ModelNotOk => (Response(500, ErrorBody("OpenAI request failed")), prelude + [call])
      case ModelOk(content) =>
        var reply := ReplyText(content);
        (Response(200, Reply(reply, summary)), prelude + [call, SaveMessage(userId, productId, Assistant, reply)])
  }

  /** The handler: reads the message and either rejects it or answers it. */
  method Post(request: AskRequest, show: JsValue -> string, lookup: Option<Product>, showApr: real -> string,
              apiKey: Option<string>, model: ModelOutcome)
    returns (response: Response, trace: seq<Effect>)
    ensures (response, trace) == Handle(request, show, lookup, showApr, apiKey, model)
  {
    if request.Malformed? {
      return Response(500, ErrorBody("Server error")), [];
    }
    var message := MessageText(request.message, show);
    if message == "" {
      return Response(400, ErrorBody("No message provided")), [];
    }
    response, trace := AnswerQuestion(request.productId, request.userId, message, lookup, showApr, apiKey, model);
  }

  /** Steps 1 to 6, building `productSummary` and the trace one step at a time. */
  method AnswerQuestion(productId: Option<string>, userId: Option<string>, message: string, lookup: Option<Product>,
                        showApr: real -> string, apiKey: Option<string>, model: ModelOutcome)
    returns (response: Response, trace: seq<Effect>)
    ensures (response, trace) == Answer(productId, userId, message, lookup, showApr, apiKey, model)
  {
    var productSummary;
    productSummary, trace := LookupAndSave(productId, userId, message, lookup, showApr);
    response, trace := AskModel(productId, userId, message, productSummary, trace, apiKey, model);
  }

  /** Steps 1 and 2: the optional lookup and its context block, then the saved user message. */
  method LookupAndSave(productId: Option<string>, userId: Option<string>, message: string, lookup: Option<Product>,
                       showApr: real -> string)
    returns (productSummary: string, trace: seq<Effect>)
    ensures productSummary == ProductSummary(productId, lookup, showApr)
    ensures trace == Prelude(productId, userId, message)
  {
    trace := [];
    productSummary := "";
    if HasProductId(productId) {
      trace := trace + [LookupProduct(productId.value)];
      if lookup.Some? {
        productSummary := ProductContext(lookup.value, showApr);
      }
    }
    trace := trace + [SaveMessage(userId, productId, User, message)];
  }

  /** Steps 3 to 6 after the store calls already in `trace`. */
  method AskModel(productId: Option<string>, userId: Option<string>, message: string, productSummary: string,
                  trace0: seq<Effect>, apiKey: Option<string>, model: ModelOutcome)
    returns (response: Response, trace: seq<Effect>)
    ensures (response, trace) == Consult(productId, userId, message, productSummary, trace0, apiKey, model)
  {
    trace := trace0;
    var userPrompt := UserPrompt(productSummary, message);
    if apiKey.None? || apiKey.value == "" {
      return Response(500, ErrorBody("OPENAI_API_KEY missing on server")), trace;
    }
    var call := CallModel([Turn(System, SystemPrompt), Turn(User, userPrompt)]);
    trace := trace + [call];
    if model.ModelThrew? {
      return Response(500, ErrorBody("Server error")), trace;
    }
    if model.ModelNotOk? {
      return Response(500, ErrorBody("OpenAI request failed")), trace;
    }
    var assistantReply := ReplyText(model.content);
    trace := trace + [SaveMessage(userId, productId, Assistant, assistantReply)];
    assert trace == trace0 + [call, SaveMessage(userId, productId, Assistant, assistantReply)];
    response := Response(200, Reply(assistantReply, productSummary));
  }

  /** The JSON object `NextResponse.json` sends for a body. */
  function BodyJson(body: Body): JsValue {
    match body
    case ErrorBody(e) => JsObject(map["error" := JsString(e)])
    case Reply(r, s) => JsObject(map["reply" := JsString(r), "productSummary" := JsString(s)])
  }

  // ---------------------------------------------------------------------
  // Properties

  /** A request is turned away with 400, before any store write or model call, exactly when its message is blank. */
  lemma BlankMessageRejectedFirst(request: AskRequest, show: JsValue -> string, lookup: Option<Product>,
                                  showApr: real -> string, apiKey: Option<string>, model: ModelOutcome)
    ensures Handle(request, show, lookup, showApr, apiKey, model).0.status == 400
            <==> request.Parsed? && MessageText(request.message, show) == ""
    ensures Handle(request, show, lookup, showApr, apiKey, model).0.status == 400 ==>
              Handle(request, show, lookup, showApr, apiKey, model) == (Response(400, ErrorBody("No message provided")), [])
    ensures request.Parsed? && MessageText(request.message, show) != "" ==>
              SaveMessage(request.userId, request.productId, User, MessageText(request.message, show))
              in Handle(request, show, lookup, showApr, apiKey, model).1
  {
    if request.Parsed? {
      var message := MessageText(request.message, show);
      if message != "" {
        var summary := ProductSummary(request.productId, lookup, showApr);
        var prelude := Prelude(request.productId, request.userId, message);
        var result := Consult(request.productId, request.userId, message, summary, prelude, apiKey, model);
        assert Handle(request, show, lookup, showApr, apiKey, model) == result;
        ConsultExtends(request.productId, request.userId, message, summary, prelude, apiKey, model);
        assert result.1[|prelude| - 1] == prelude[|prelude| - 1]
                                       == SaveMessage(request.userId, request.productId, User, message);
      }
    }
  }

  /** After the store calls, the handler only appends to the trace, and it answers 200 or 500. */
  lemma ConsultExtends(productId: Option<string>, userId: Option<string>, message: string, summary: string,
                       prelude: seq<Effect>, apiKey: Option<string>, model: ModelOutcome)
    ensures var (response, trace) := Consult(productId, userId, message, summary, prelude, apiKey, model);
            && (response.status == 200 || response.status == 500)
            && |prelude| <= |trace| && trace[..|prelude|] == prelude
  {
  }

  /**
   * The calls a read message causes: the lookup only for a given id, then the saved
   * question, then (with a key) one model call with exactly the system turn and the
   * user turn, then (on a reply) the saved answer. A 200 is returned exactly when the
   * answer was saved, and the answer returned is the one saved.
   */
  lemma AnswerTrace(productId: Option<string>, userId: Option<string>, message: string, lookup: Option<Product>,
                    showApr: real -> string, apiKey: Option<string>, model: ModelOutcome)
    ensures var (response, trace) := Answer(productId, userId, message, lookup, showApr, apiKey, model);
            var k := if HasProductId(productId) then 1 else 0;
            && k + 1 <= |trace| <= k + 3
            && (HasProductId(productId) ==> trace[0] == LookupProduct(productId.value))
            && trace[k] == SaveMessage(userId, productId, User, message)
            && (|trace| >= k + 2 <==> apiKey.Some? && apiKey.value != "")
            && (|trace| >= k + 2 ==>
                  trace[k + 1] == CallModel([Turn(System, SystemPrompt),
                                             Turn(User, UserPrompt(ProductSummary(productId, lookup, showApr), message))]))
            && (response.status == 200 <==> |trace| == k + 3)
            && (response.status == 200 ==>
                  trace[k + 2] == SaveMessage(userId, productId, Assistant, response.body.reply)
                  && response.body == Reply(ReplyText(model.content), ProductSummary(productId, lookup, showApr)))
            && (response.status != 200 ==> response.status == 500)
  {
  }

  /** The message has no whitespace at either end, and trimming it again changes nothing. */
  lemma MessageTextMeaning(message: JsValue, show: JsValue -> string)
    ensures var m := MessageText(message, show);
            && Trim(m) == m
            && (m != "" ==> !IsWhitespace(m[0]) && !IsWhitespace(m[|m| - 1]))
  {
    TrimIdempotent(RawMessage(message, show));
  }

  /** A falsy message is empty, and a string message is that string trimmed. */
  lemma MessageTextOfValues(message: JsValue, show: JsValue -> string)
    ensures Falsy(message) ==> MessageText(message, show) == ""
    ensures message.JsString? ==> MessageText(message, show) == Trim(message.s)
  {
    if Falsy(message) {
      TrimEmpty();
    } else if message.JsString? {
      assert RawMessage(message, show) == message.s;
    }
  }

  /** The context block is never empty, so a found row always reaches the prompt. */
  lemma ProductSummaryMeaning(productId: Option<string>, lookup: Option<Product>, showApr: real -> string)
    ensures ProductSummary(productId, lookup, showApr) != "" <==> HasProductId(productId) && lookup.Some?
    ensures HasProductId(productId) && lookup.Some? ==>
              StartsWith(ProductSummary(productId, lookup, showApr), "Product: " + lookup.value.name + "\nAPR: ")
  {
    if HasProductId(productId) && lookup.Some? {
      var c := ProductSummary(productId, lookup, showApr);
      var head := "Product: " + lookup.value.name + "\nAPR: ";
      assert c[..|head|] == head;
    }
  }

  /**
   * The question is always the last part of the user turn, after the fixed "User question:"
   * line; with a context block, the turn opens with that block.
   */
  lemma UserPromptLayout(productSummary: string, message: string)
    ensures var p := UserPrompt(productSummary, message);
            var q := "User question:\n" + message;
            && |q| <= |p| && p[|p| - |q|..] == q
            && (productSummary == "" ==> p == q)
            && (productSummary != "" ==>
                  StartsWith(p, "Product context:\n" + productSummary + "\n\n")
                  && |p| == |"Product context:\n"| + |productSummary| + 2 + |q|)
  {
    var p := UserPrompt(productSummary, message);
    var q := "User question:\n" + message;
    if productSummary != "" {
      var head := "Product context:\n" + productSummary + "\n\n";
      assert p == head + q;
      assert p[..|head|] == head;
      assert p[|p| - |q|..] == q;
    }
  }

  /** A content of only whitespace becomes the empty reply, not the fallback. */
  lemma BlankContentIsEmptyReply()
    ensures ReplyText(Some(" \n ")) == ""
    ensures ReplyText(None) == NoReply && NoReply != ""
  {
    assert Trim(" \n ") == "" by {
      var s := " \n ";
      assert forall i :: 0 <= i < |s| ==> IsWhitespace(s[i]);
    }
  }

  // ---------------------------------------------------------------------
  // Scenarios

  /** A read request whose message is a non-blank string is answered with that string trimmed. */
  lemma StringMessageAnswered(question: string, productId: Option<string>, userId: Option<string>,
                              show: JsValue -> string, lookup: Option<Product>, showApr: real -> string,
                              apiKey: Option<string>, model: ModelOutcome)
    requires !IsBlank(question)
    ensures Handle(Parsed(JsString(question), productId, userId), show, lookup, showApr, apiKey, model)
         == Answer(productId, userId, Trim(question), lookup, showApr, apiKey, model)
  {
    MessageTextOfValues(JsString(question), show);
  }

  /** An id with no row, a key and a model reply: four calls, and a 200 with an empty summary. */
  lemma AnswerWithoutRow(id: string, userId: Option<string>, message: string, showApr: real -> string,
                         key: string, content: string)
    requires id != "" && key != ""
    ensures Answer(Some(id), userId, message, None, showApr, Some(key), ModelOk(Some(content)))
         == (Response(200, Reply(Trim(content), "")),
             [LookupProduct(id), SaveMessage(userId, Some(id), User, message),
              CallModel([Turn(System, SystemPrompt), Turn(User, "User question:\n" + message)]),
              SaveMessage(userId, Some(id), Assistant, Trim(content))])
  {
    assert ProductSummary(Some(id), None, showApr) == "";
    assert UserPrompt("", message) == "User question:\n" + message;
    var prelude := Prelude(Some(id), userId, message);
    assert prelude == [LookupProduct(id), SaveMessage(userId, Some(id), User, message)];
    var call := CallModel([Turn(System, SystemPrompt), Turn(User, "User question:\n" + message)]);
    var reply := SaveMessage(userId, Some(id), Assistant, Trim(content));
    assert prelude + [call, reply] == [LookupProduct(id), SaveMessage(userId, Some(id), User, message), call, reply];
  }

  /**
   * A product id with no row is not an error: the question goes to the model with no
   * context block, and the reply comes back with an empty summary.
   */
  lemma UnknownProductStillAnswered(question: string, id: string, userId: Option<string>, key: string, content: string,
                                    show: JsValue -> string, showApr: real -> string)
    requires !IsBlank(question) && id != "" && key != ""
    ensures var (response, trace) := Handle(Parsed(JsString(question), Some(id), userId), show, None, showApr, Some(key), ModelOk(Some(content)));
            && response == Response(200, Reply(Trim(content), ""))
            && |trace| == 4 && trace[2] == CallModel([Turn(System, SystemPrompt), Turn(User, "User question:\n" + Trim(question))])
  {
    StringMessageAnswered(question, Some(id), userId, show, None, showApr, Some(key), ModelOk(Some(content)));
    AnswerWithoutRow(id, userId, Trim(question), showApr, key, content);
  }

  /** With no server key, the user message has already been saved when the 500 is returned, and the model is not called. */
  lemma MissingKeyAfterSave(question: string, userId: Option<string>, show: JsValue -> string, showApr: real -> string)
    ensures !IsBlank(question) ==>
              Handle(Parsed(JsString(question), None, userId), show, None, showApr, None, ModelOk(None))
              == (Response(500, ErrorBody("OPENAI_API_KEY missing on server")), [SaveMessage(userId, None, User, Trim(question))])
  {
    if !IsBlank(question) {
      StringMessageAnswered(question, None, userId, show, None, showApr, None, ModelOk(None));
      assert Prelude(None, userId, Trim(question)) == [SaveMessage(userId, None, User, Trim(question))];
    }
  }
}
