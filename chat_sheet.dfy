/// The site-wide chat panel (`components/chat-sheet.tsx`): a message list
/// seeded with a welcome entry when the panel mounts, the text box and a
/// loading flag. As in the dialog, `handleSend` is split at its `await`.
/// `Date.now()` and the ISO time stamp are parameters.
module ChatSheet {
  import opened Wrappers
  import opened Strings
  import opened ProductTypes
  import AskRoute

  /** A list entry with its key; only user entries carry a time stamp. */
  datatype Msg = Msg(id: string, role: AskRoute.Role, content: JsValue, createdAt: Option<string>)

  /** The JSON body of the request; `productId` is left out of the JSON when absent. */
  datatype SheetRequest = SheetRequest(message: string, productId: Option<string>)

  /** How the request ended: `fetch` or `res.json()` threw, or the parsed body (whatever the status). */
  datatype Outcome = Threw | Parsed(json: JsValue)

  /** The path the panel posts to. */
  const Endpoint: string := "/api/ai/ask"

  const WelcomeText: string := "Hi — ask me anything about the selected product or lending in general!"
  const NoAnswerText: string := "Sorry, I couldn't answer that right now."
  const NetworkErrorText: string := "Network error — could not reach the AI service."

  const Welcome: Msg := Msg("m-welcome", AskRoute.Assistant, JsString(WelcomeText), None)

  /** The entry appended once the outcome is known, at time `now`. */
  function AssistantMsg(outcome: Outcome, now: int): (m: Msg)
    ensures m.role == AskRoute.Assistant && m.createdAt.None?
    ensures outcome.Threw? ==> m == Msg("a-err-" + IntText(now), AskRoute.Assistant, JsString(NetworkErrorText), None)
  {
    match outcome
    case Threw => Msg("a-err-" + IntText(now), AskRoute.Assistant, JsString(NetworkErrorText), None)
    case Parsed(json) =>
      match GetField(json, "reply")
      case None => Msg("a-err-" + IntText(now), AskRoute.Assistant, JsString(NetworkErrorText), None)
      case Some(v) =>
        Msg("a-" + IntText(now), AskRoute.Assistant, if v.JsNull? || v.JsUndefined? then JsString(NoAnswerText) else v, None)
  }

  class Sheet {
    var messages: seq<Msg>
    var text: string
    var loading: bool

    /** The first render, before the mount effect. */
    constructor ()
      ensures messages == [] && text == "" && !loading
    {
      messages := [];
      text := "";
      loading := false;
    }

    /** The mount effect: the list becomes the single welcome entry. */
    method Mount()
      modifies this`messages
      ensures messages == [Welcome]
    {
      messages := [Welcome];
    }

    method SetText(t: string)
      modifies this`text
      ensures text == t
    {
      text := t;
    }

    /** `disabled={loading}` on the Send button; unlike `handleSend`, it looks only at the flag. */
    predicate SendButtonDisabled()
      reads this
    {
      loading
    }

    /**
     * `handleSend(productId)` up to the request: blank text is ignored; otherwise the
     * trimmed text is appended as a user entry, the box is cleared and loading starts.
     * There is no check of `loading`.
     */
    method Send(productId: Option<string>, now: int, stamp: string) returns (request: Option<SheetRequest>)
      modifies this`messages, this`text, this`loading
      ensures IsBlank(old(text)) ==> request.None? && messages == old(messages) && text == old(text) && loading == old(loading)
      ensures !IsBlank(old(text)) ==>
                && request == Some(SheetRequest(Trim(old(text)), productId))
                && messages == old(messages) + [Msg("u-" + IntText(now), AskRoute.User, JsString(Trim(old(text))), Some(stamp))]
                && text == "" && loading
    {
      if IsBlank(text) {
        return None;
      }
      var userMessage := Msg("u-" + IntText(now), AskRoute.User, JsString(Trim(text)), Some(stamp));
      messages := messages + [userMessage];
      text := "";
      loading := true;
      request := Some(SheetRequest(userMessage.content.s, productId));
    }

    /** `handleSend` after the `await`: one assistant entry is appended and loading ends. */
    method Receive(outcome: Outcome, now: int)
      modifies this`messages, this`loading
      ensures messages == old(messages) + [AssistantMsg(outcome, now)]
      ensures !loading
    {
      messages := messages + [AssistantMsg(outcome, now)];
      loading := false;
    }
  }

  // ---------------------------------------------------------------------
  // Properties

  /** The panel shows the route's answer when there is one, the fixed text when the field is missing or null. */
  lemma AssistantContent(outcome: Outcome, now: int)
    ensures outcome.Parsed? && outcome.json.JsObject? && "reply" in outcome.json.fields ==>
              var v := outcome.json.fields["reply"];
              AssistantMsg(outcome, now).content == (if v.JsNull? || v.JsUndefined? then JsString(NoAnswerText) else v)
    ensures outcome.Parsed? && outcome.json.JsObject? && "reply" !in outcome.json.fields ==>
              AssistantMsg(outcome, now).content == JsString(NoAnswerText)
    ensures (outcome.Threw? || (outcome.Parsed? && (outcome.json.JsNull? || outcome.json.JsUndefined?))) ==>
              AssistantMsg(outcome, now).content == JsString(NetworkErrorText)
  {
  }

  /** The answer of the Q&A route is shown as sent. */
  lemma RouteReplyShown(reply: string, summary: string, now: int)
    ensures AssistantMsg(Parsed(AskRoute.BodyJson(AskRoute.Reply(reply, summary))), now).content == JsString(reply)
  {
  }

  /** The user entry and the assistant entry of one send have different keys, even in the same millisecond. */
  lemma KeysDiffer(now: int, later: int)
    ensures ("u-" + IntText(now)) != AssistantMsg(Threw, later).id
    ensures forall json :: ("u-" + IntText(now)) != AssistantMsg(Parsed(json), later).id
  {
    assert ("u-" + IntText(now))[0] == 'u';
    assert ("a-err-" + IntText(later))[0] == 'a';
    assert ("a-" + IntText(later))[0] == 'a';
  }

  // ---------------------------------------------------------------------
  // Conversations

  /**
   * After mounting, one non-blank send adds exactly two entries, user then assistant,
   * behind the welcome entry, and loading ends false.
   */
  method OneExchange(t: string, productId: Option<string>, now: int, later: int, stamp: string, outcome: Outcome)
    returns (request: Option<SheetRequest>, messages: seq<Msg>, loading: bool)
    requires !IsBlank(t)
    ensures request == Some(SheetRequest(Trim(t), productId))
    ensures messages == [Welcome, Msg("u-" + IntText(now), AskRoute.User, JsString(Trim(t)), Some(stamp)),
                         AssistantMsg(outcome, later)]
    ensures !loading
  {
    var user := Msg("u-" + IntText(now), AskRoute.User, JsString(Trim(t)), Some(stamp));
    var sheet := new Sheet();
    sheet.Mount();
    sheet.SetText(t);
    request := sheet.Send(productId, now, stamp);
    assert sheet.messages == [Welcome] + [user];
    sheet.Receive(outcome, later);
    messages, loading := sheet.messages, sheet.loading;
  }

  /**
   * With no loading guard, pressing Enter sends a second question while the first is
   * still in flight, although the button is disabled at that moment.
   */
  method EnterSendsWhileLoading(t1: string, t2: string, now1: int, now2: int, stamp: string)
    returns (buttonDisabled: bool, second: Option<SheetRequest>, messages: seq<Msg>)
    requires !IsBlank(t1) && !IsBlank(t2)
    ensures buttonDisabled
    ensures second == Some(SheetRequest(Trim(t2), None))
    ensures |messages| == 3 && messages[0] == Welcome
    ensures messages[1].role == AskRoute.User && messages[1].content == JsString(Trim(t1))
    ensures messages[2].role == AskRoute.User && messages[2].content == JsString(Trim(t2))
  {
    var sheet := new Sheet();
    sheet.Mount();
    var first := TypeAndSend(sheet, t1, now1, stamp);
    buttonDisabled := sheet.SendButtonDisabled();
    second := TypeAndSend(sheet, t2, now2, stamp);
    messages := sheet.messages;
  }

  /** Typing a non-blank question and pressing Enter. */
  method TypeAndSend(sheet: Sheet, t: string, now: int, stamp: string) returns (request: Option<SheetRequest>)
    requires !IsBlank(t)
    modifies sheet
    ensures request == Some(SheetRequest(Trim(t), None))
    ensures sheet.messages == old(sheet.messages) + [Msg("u-" + IntText(now), AskRoute.User, JsString(Trim(t)), Some(stamp))]
    ensures sheet.loading && sheet.text == ""
  {
    sheet.SetText(t);
    request := sheet.Send(None, now, stamp);
  }
}
