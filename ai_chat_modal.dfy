/// The product Q&A dialog (`components/ai-chat-modal.tsx`): an append-only
/// message list, the input box and a loading flag. `handleSend` is split at
/// its `await`: `Send` is the part before the request goes out, `Receive`
/// the part after the response (or the error) comes back.
module AiChatModal {
  import opened Wrappers
  import opened Strings
  import opened ProductTypes
  import AskRoute

  /** A list entry; the content is whatever value the handler stored, normally a string. */
  datatype Message = Message(role: AskRoute.Role, content: JsValue)

  /** The JSON body of the request: product, question and the list as it was before the question. */
  datatype AskBody = AskBody(productId: string, message: string, history: seq<Message>)

  /** How the request ended: `fetch` or `response.json()` threw, the status was not OK, or the parsed body. */
  datatype Outcome = Threw | NotOk | Ok(data: JsValue)

  const Apology: string := "Sorry, I encountered an error. Please try again."

  /** The field the dialog reads the answer from, as the code is written. */
  const AnswerKeyAsWritten: string := "answer"

  /** The field the Q&A route puts its answer in. */
  const AnswerKey: string := "reply"

  /**
   * The assistant entry appended once the outcome is known, reading the answer from
   * the field `key` of the parsed body: the apology when the request failed or the
   * access throws (a `null` body), the field when the body has it, `undefined` otherwise.
   */
  function AssistantMessage(outcome: Outcome, key: string): (m: Message)
    ensures m.role == AskRoute.Assistant
    ensures !outcome.Ok? ==> m.content == JsString(Apology)
    ensures outcome.Ok? && (outcome.data.JsNull? || outcome.data.JsUndefined?) ==> m.content == JsString(Apology)
    ensures outcome.Ok? && outcome.data.JsObject? && key in outcome.data.fields ==>
              m.content == outcome.data.fields[key]
    ensures (outcome.Ok? && !(outcome.data.JsNull? || outcome.data.JsUndefined?) &&
             !(outcome.data.JsObject? && key in outcome.data.fields)) ==> m.content == JsUndefined
  {
    match outcome
    case Ok(data) =>
      (match GetField(data, key)
       case Some(c) => Message(AskRoute.Assistant, c)
       case None => Message(AskRoute.Assistant, JsString(Apology)))
    case _ => Message(AskRoute.Assistant, JsString(Apology))
  }

  /**
   * As written, the dialog shows nothing for every answer the Q&A route sends: the route
   * names the field `reply`, so `data.answer` is `undefined`.
   */
  lemma AnswerAsWrittenIsUndefined(reply: string, summary: string)
    ensures AssistantMessage(Ok(AskRoute.BodyJson(AskRoute.Reply(reply, summary))), AnswerKeyAsWritten)
         == Message(AskRoute.Assistant, JsUndefined)
  {
    var fields := map["reply" := JsString(reply), "productSummary" := JsString(summary)];
    assert "answer" !in fields by {
      assert "answer"[0] != "reply"[0] && "answer"[0] != "productSummary"[0];
    }
  }

  /** Reading `reply` instead, the dialog shows exactly the answer the route saved and returned. */
  lemma AnswerIsRouteReply(reply: string, summary: string)
    ensures AssistantMessage(Ok(AskRoute.BodyJson(AskRoute.Reply(reply, summary))), AnswerKey)
         == Message(AskRoute.Assistant, JsString(reply))
  {
  }

  class ChatModal {
    const productId: string
    var messages: seq<Message>
    var input: string
    var loading: bool

    constructor (productId: string)
      ensures this.productId == productId && messages == [] && input == "" && !loading
    {
      this.productId := productId;
      messages := [];
      input := "";
      loading := false;
    }

    /** The text box's `onChange`. */
    method SetInput(text: string)
      modifies this`input
      ensures input == text
    {
      input := text;
    }

    /** `disabled={loading || !input.trim()}` on the Send button. */
    predicate SendDisabled()
      reads this
    {
      loading || IsBlank(input)
    }

    /**
     * `handleSend` up to the request: ignored exactly when the button is disabled;
     * otherwise the input is cleared, the trimmed question is appended, loading starts
     * and the body carries the list as it was before the question.
     */
    method Send() returns (request: Option<AskBody>)
      modifies this`input, this`messages, this`loading
      ensures old(SendDisabled()) ==>
                request.None? && input == old(input) && messages == old(messages) && loading == old(loading)
      ensures !old(SendDisabled()) ==>
                && request == Some(AskBody(productId, Trim(old(input)), old(messages)))
                && input == "" && loading
                && messages == old(messages) + [Message(AskRoute.User, JsString(Trim(old(input))))]
    {
      if IsBlank(input) || loading {
        return None;
      }
      var userMessage := Trim(input);
      input := "";
      messages := messages + [Message(AskRoute.User, JsString(userMessage))];
      loading := true;
      request := Some(AskBody(productId, userMessage, messages[..|messages| - 1]));
    }

    /**
     * `handleSend` after the `await`: one assistant entry, read from `data.answer` as the
     * code is written, is appended and loading ends, whatever happened.
     */
    method Receive(outcome: Outcome)
      modifies this`messages, this`loading
      ensures messages == old(messages) + [AssistantMessage(outcome, AnswerKeyAsWritten)]
      ensures !loading
    {
      messages := messages + [AssistantMessage(outcome, AnswerKeyAsWritten)];
      loading := false;
    }
  }

  // ---------------------------------------------------------------------
  // Conversations

  /**
   * Two questions in a row: each request carries the list as it was before its
   * question, earlier entries are never changed, and every question is answered by
   * exactly one entry right after it.
   */
  method TwoQuestions(productId: string, q1: string, q2: string, o1: Outcome, o2: Outcome)
    returns (first: Option<AskBody>, second: Option<AskBody>, messages: seq<Message>)
    requires !IsBlank(q1) && !IsBlank(q2)
    ensures first == Some(AskBody(productId, Trim(q1), []))
    ensures |messages| == 4
    ensures messages[..2] == [Message(AskRoute.User, JsString(Trim(q1))), AssistantMessage(o1, AnswerKeyAsWritten)]
    ensures second == Some(AskBody(productId, Trim(q2), messages[..2]))
    ensures messages == second.value.history
                        + [Message(AskRoute.User, JsString(Trim(q2))), AssistantMessage(o2, AnswerKeyAsWritten)]
  {
    var modal := new ChatModal(productId);
    first := Exchange(modal, q1, o1);
    second := Exchange(modal, q2, o2);
    messages := modal.messages;
    assert messages[..2] == first.value.history + [Message(AskRoute.User, JsString(Trim(q1))), AssistantMessage(o1, AnswerKeyAsWritten)];
  }

  /** Typing a question, sending it while idle and receiving its outcome. */
  method Exchange(modal: ChatModal, question: string, outcome: Outcome) returns (request: Option<AskBody>)
    requires !modal.loading && !IsBlank(question)
    modifies modal
    ensures request == Some(AskBody(modal.productId, Trim(question), old(modal.messages)))
    ensures modal.messages == old(modal.messages) + [Message(AskRoute.User, JsString(Trim(question))), AssistantMessage(outcome, AnswerKeyAsWritten)]
    ensures !modal.loading
  {
    ghost var before := modal.messages;
    ghost var user := Message(AskRoute.User, JsString(Trim(question)));
    ghost var answer := AssistantMessage(outcome, AnswerKeyAsWritten);
    modal.SetInput(question);
    assert !modal.SendDisabled();
    request := modal.Send();
    assert modal.messages == before + [user];
    modal.Receive(outcome);
    assert modal.messages == (before + [user]) + [answer];
    assert (before + [user]) + [answer] == before + [user, answer];
  }

  /**
   * One question answered by the Q&A route: as written, the dialog appends the question
   * and then an entry whose content is `undefined`, whatever the route replied.
   */
  method QuestionAnsweredByRoute(productId: string, question: string, reply: string, summary: string)
    returns (messages: seq<Message>)
    requires !IsBlank(question)
    ensures messages == [Message(AskRoute.User, JsString(Trim(question))), Message(AskRoute.Assistant, JsUndefined)]
  {
    var modal := new ChatModal(productId);
    var request := Exchange(modal, question, Ok(AskRoute.BodyJson(AskRoute.Reply(reply, summary))));
    AnswerAsWrittenIsUndefined(reply, summary);
    messages := modal.messages;
  }

  /** While a question is in flight, a second one is refused and the list is left as it is. */
  method NoSecondSendWhileLoading(productId: string, q1: string, q2: string)
    returns (second: Option<AskBody>, messages: seq<Message>)
    requires !IsBlank(q1)
    ensures second.None?
    ensures messages == [Message(AskRoute.User, JsString(Trim(q1)))]
  {
    var modal := new ChatModal(productId);
    modal.SetInput(q1);
    var first := modal.Send();
    modal.SetInput(q2);
    second := modal.Send();
    messages := modal.messages;
  }
}
