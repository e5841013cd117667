/**
 The recruitment chat widget of the Smart Care site, recast as a pure reducer.

 The widget keeps whether its window is open, the transcript of turns, the draft
 in the text box, whether a reply is awaited, whether a chat session with the
 hosted language model exists, and the contextual hint chosen from the page's
 scroll position. Each user action is a function from the old state to the new
 one. The asynchronous send is split into `BeginSend` (everything up to the
 first `await`) and `Complete` (what happens once the request settles).
 */
module ChatBot {
  import JsText

  datatype Option<+T> = None | Some(value: T)

  /** Who spoke a turn: the visitor or the language model. */
  datatype Role = User | Model

  /** One turn of the transcript; turns are only ever appended. */
  datatype Message = Message(role: Role, text: string)

  /** How the request to the language model settled: the reply text, or any
      error the call raised. */
  datatype Reply = Replied(text: string) | Failed

  /** The widget's state. `hasSession` stands for the session handle that the
      widget creates lazily and keeps for the rest of its life. */
  datatype State = State(
    isOpen: bool,
    messages: seq<Message>,
    input: string,
    isLoading: bool,
    hasSession: bool,
    contextMessage: Option<string>)

  /** The model's opening line. */
  const Greeting: string :=
    "こんにちは！Smart Careのアイです😊\n働き方のこと、お給料のこと、なんでも聞いてくださいね✨"

  /** The fixed reply shown in place of any failed request. */
  const Apology: string :=
    "ごめんなさい、ちょっと調子が悪いみたいです💦 時間をおいてまた話しかけてください🙇‍♀️"

  /** Hints shown beside the closed widget while a landmark is mid-screen. */
  const SalaryHint: string := "将来の年収、気になりますか？💰"
  const FlowHint: string := "見学は私服でOKですよ！👗"
  const QaHint: string := "他に聞きたいことはありますか？🤔"

  /** The canned questions offered as chips under the transcript. */
  const Suggestions: seq<string> := [
    "未経験でも大丈夫？🔰",
    "残業は本当にないの？⏰",
    "お給料の内訳は？💰",
    "どんなスタッフがいる？👥",
    "福利厚生について✨"
  ]

  /** The state when the page mounts: closed, idle, no session, no hint, and a
      transcript holding only the greeting. */
  const Init: State :=
    State(false, [Message(Model, Greeting)], "", false, false, None)

  // ---------------------------------------------------------------------------
  // Opening and closing
  // ---------------------------------------------------------------------------

  /** The floating button flips the window and touches nothing else. */
  function Toggle(st: State): (r: State)
    ensures r.isOpen != st.isOpen
    ensures r.(isOpen := st.isOpen) == st
  {
    st.(isOpen := !st.isOpen)
  }

  /** The close button in the window header shuts the window and touches
      nothing else; transcript, draft and session survive. */
  function Close(st: State): (r: State)
    ensures !r.isOpen
    ensures r.(isOpen := st.isOpen) == st
  {
    st.(isOpen := false)
  }

  /** The effect that runs after `isOpen` changes: an open widget without a
      session tries to create one; `createOk` is whether the SDK's constructor
      returned instead of throwing (a throw is logged and swallowed). Only the
      session can change, and an existing session is left alone. */
  function OpenEffect(st: State, createOk: bool): (r: State)
    ensures r.(hasSession := st.hasSession) == st
    ensures r.hasSession <==> st.hasSession || (st.isOpen && createOk)
  {
    if st.isOpen && !st.hasSession && createOk then st.(hasSession := true) else st
  }

  // ---------------------------------------------------------------------------
  // Sending
  // ---------------------------------------------------------------------------

  /** The text a send uses: the chip's text when one was given and is not the
      empty string (JavaScript's `textOverride || input`), otherwise the draft. */
  function ChosenText(textOverride: Option<string>, input: string): (r: string)
    ensures r == input || (textOverride == Some(r) && r != "")
    ensures textOverride.Some? && textOverride.value != "" ==> r == textOverride.value
  {
    if textOverride.Some? && textOverride.value != "" then textOverride.value else input
  }

  /** Whether a send goes ahead: the chosen text is not empty after trimming,
      that is, not blank (the two agree by `AcceptsIsTrimGuard`), and
      no reply is awaited. */
  predicate Accepts(st: State, textOverride: Option<string>) {
    !JsText.IsBlank(ChosenText(textOverride, st.input)) && !st.isLoading
  }

  /** `Accepts` is the guard of `handleSend` as written, with `trim()`. */
  lemma AcceptsIsTrimGuard(st: State, textOverride: Option<string>)
    ensures Accepts(st, textOverride) <==>
      JsText.Trim(ChosenText(textOverride, st.input)) != [] && !st.isLoading
  {
  }

  /** The synchronous part of a send. A rejected send changes nothing at all.
      An accepted one clears the draft, appends the user's turn with the chosen
      text untrimmed and marks a reply as awaited; if no session exists yet it
      creates one, and when that creation throws, the error handler runs before
      anything is awaited, so the apology is appended at once and the widget is
      idle again. */
  function BeginSend(st: State, textOverride: Option<string>, createOk: bool): (r: State)
    ensures JsText.IsBlank(ChosenText(textOverride, st.input)) || st.isLoading ==> r == st
    ensures !JsText.IsBlank(ChosenText(textOverride, st.input)) && !st.isLoading ==>
      && r.input == ""
      && r.isOpen == st.isOpen
      && r.contextMessage == st.contextMessage
      && (r.hasSession <==> st.hasSession || createOk)
    ensures !JsText.IsBlank(ChosenText(textOverride, st.input)) && !st.isLoading ==>
      && |r.messages| > |st.messages|
      && r.messages[..|st.messages|] == st.messages
      && r.messages[|st.messages|] == Message(User, ChosenText(textOverride, st.input))
    ensures !JsText.IsBlank(ChosenText(textOverride, st.input)) && !st.isLoading && r.hasSession ==>
      r.isLoading && |r.messages| == |st.messages| + 1
    ensures !JsText.IsBlank(ChosenText(textOverride, st.input)) && !st.isLoading && !r.hasSession ==>
      !r.isLoading && r.messages[1 + |st.messages|..] == [Message(Model, Apology)]
  {
    var chosen := ChosenText(textOverride, st.input);
    if !Accepts(st, textOverride) then
      st
    else
      var sent := st.(input := "", messages := st.messages + [Message(User, chosen)], isLoading := true);
      if st.hasSession || createOk then
        sent.(hasSession := true)
      else
        sent.(messages := sent.messages + [Message(Model, Apology)], isLoading := false)
  }

  /** The text of the model's turn once a request settles. */
  function ReplyText(reply: Reply): string {
    match reply
    case Replied(text) => text
    case Failed => Apology
  }

  /** The asynchronous part of a send, once the awaited request settles: one
      model turn is appended (the reply, or the apology for any failure) and
      the widget is idle again; nothing else changes. */
  function Complete(st: State, reply: Reply): (r: State)
    requires st.isLoading
    ensures !r.isLoading
    ensures |r.messages| == |st.messages| + 1
    ensures r.messages[..|st.messages|] == st.messages
    ensures r.messages[|st.messages|].role == Model
    ensures r.messages[|st.messages|].text == (if reply.Replied? then reply.text else Apology)
    ensures r.(messages := st.messages, isLoading := true) == st
  {
    st.(messages := st.messages + [Message(Model, ReplyText(reply))], isLoading := false)
  }

  /** A suggestion chip can be pressed exactly when no reply is awaited. */
  predicate ChipEnabled(st: State) {
    !st.isLoading
  }

  /** The send button can be pressed exactly when no reply is awaited and the
      draft is not empty after trimming. */
  predicate SendButtonEnabled(st: State) {
    !(st.isLoading || JsText.Trim(st.input) == [])
  }

  /** The send button is enabled exactly when pressing it would be accepted. */
  lemma SendButtonMatchesGuard(st: State)
    ensures SendButtonEnabled(st) <==> Accepts(st, None)
  {
  }

  /** Every suggestion is non-blank, so an enabled chip always sends. */
  lemma ChipSendsWhenEnabled(st: State, i: nat)
    requires i < |Suggestions|
    ensures ChipEnabled(st) <==> Accepts(st, Some(Suggestions[i]))
  {
    var s := Suggestions[i];
    assert !JsText.IsJsWhitespace(s[0]);
  }

  // ---------------------------------------------------------------------------
  // Contextual hint
  // ---------------------------------------------------------------------------

  /** A landmark's vertical extent in viewport coordinates. */
  datatype Rect = Rect(top: int, bottom: int)

  /** The three page sections the hint looks for; `None` when the page has no
      element with that id. */
  datatype Landmarks = Landmarks(salary: Option<Rect>, flow: Option<Rect>, qa: Option<Rect>)

  /** The section spans the horizontal line through the middle of a viewport
      of height `h`, strictly on both sides: `top < h/2 < bottom`, stated
      without division. */
  predicate Straddles(rect: Rect, h: int) {
    2 * rect.top < h && 2 * rect.bottom > h
  }

  /** The section exists and straddles the middle of the viewport. */
  predicate Hit(el: Option<Rect>, h: int) {
    el.Some? && Straddles(el.value, h)
  }

  /** The hint for a scroll position, by fixed priority salary, flow, Q&A; no
      hint when none of them is mid-screen. */
  function HintFor(marks: Landmarks, h: int): (hint: Option<string>)
    ensures hint == Some(SalaryHint) <==> Hit(marks.salary, h)
    ensures hint == Some(FlowHint) <==> !Hit(marks.salary, h) && Hit(marks.flow, h)
    ensures hint == Some(QaHint) <==> !Hit(marks.salary, h) && !Hit(marks.flow, h) && Hit(marks.qa, h)
    ensures hint == None <==> !Hit(marks.salary, h) && !Hit(marks.flow, h) && !Hit(marks.qa, h)
  {
    assert SalaryHint[0] != FlowHint[0] && SalaryHint[0] != QaHint[0] && FlowHint[0] != QaHint[0];
    if Hit(marks.salary, h) then Some(SalaryHint)
    else if Hit(marks.flow, h) then Some(FlowHint)
    else if Hit(marks.qa, h) then Some(QaHint)
    else None
  }

  /** A scroll event. While the window is open the handler returns at once and
      the state, including any earlier hint, is untouched; while it is closed
      only the hint changes, to the one for the current position. */
  function Scroll(st: State, marks: Landmarks, h: int): (r: State)
    ensures st.isOpen ==> r == st
    ensures !st.isOpen ==> r.contextMessage == HintFor(marks, h)
    ensures r.(contextMessage := st.contextMessage) == st
  {
    if st.isOpen then st else st.(contextMessage := HintFor(marks, h))
  }

  /** The hint bubble on screen: shown only while the window is closed and the
      hint is a non-empty string. */
  function ShownHint(st: State): (shown: Option<string>)
    ensures shown.Some? ==> !st.isOpen && st.contextMessage == shown && shown.value != ""
    ensures !st.isOpen && st.contextMessage.Some? && st.contextMessage.value != "" ==> shown.Some?
  {
    if !st.isOpen && st.contextMessage.Some? && st.contextMessage.value != "" then
      st.contextMessage
    else
      None
  }

  // ---------------------------------------------------------------------------
  // Transcript auto-scroll
  // ---------------------------------------------------------------------------

  /** Where the transcript view scrolls after a render. */
  datatype ScrollTarget = NoScroll | End | StartOfLastModel

  /** The index of the element that carries the "last model message" anchor:
      the final turn, when it was spoken by the model. */
  function LastModelAnchor(messages: seq<Message>): (anchor: Option<nat>)
    ensures forall i :: 0 <= i < |messages| ==>
      (anchor == Some(i) <==> i == |messages| - 1 && messages[i].role == Model)
    ensures anchor.Some? ==> anchor.value < |messages|
  {
    if |messages| > 0 && messages[|messages| - 1].role == Model then Some(|messages| - 1) else None
  }

  /** The scroll decision: nothing while closed; the end while a reply is
      awaited or when the last turn is the user's; the start of the last turn
      when it is the model's, so long answers are read from the top. */
  function TranscriptScroll(st: State): (t: ScrollTarget)
    ensures !st.isOpen ==> t == NoScroll
    ensures st.isOpen && st.isLoading ==> t == End
    ensures t == StartOfLastModel <==>
      st.isOpen && !st.isLoading && LastModelAnchor(st.messages).Some?
    ensures t == End && !st.isLoading ==>
      |st.messages| > 0 && st.messages[|st.messages| - 1].role == User
    ensures (st.isOpen && !st.isLoading && |st.messages| > 0
             && st.messages[|st.messages| - 1].role == User) ==> t == End
    ensures st.messages == [] && !st.isLoading ==> t == NoScroll
  {
    if !st.isOpen then NoScroll
    else if st.isLoading then End
    else if |st.messages| == 0 then NoScroll
    else if st.messages[|st.messages| - 1].role == User then End
    else StartOfLastModel
  }
}
