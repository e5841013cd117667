/**
 Runs of the chat widget: the user's actions and the settling of requests as a
 sequence of events fed through the reducer, and what holds of every run.

 The transcript's shape is the central invariant: the greeting, then pairs of a
 user turn followed by a model turn, then, while a reply is awaited, exactly one
 unanswered user turn. From it follow the 1:1 pairing of sends and replies, the
 single in-flight request and the transcript's length.
 */
module ChatTrace {
  import JsText
  import opened ChatBot

  /** Everything that can happen to the widget. `createOk` is the outcome of
      the session constructor should the step need to call it. */
  datatype Event =
    | PressToggle(createOk: bool)
    | PressClose
    | Edit(text: string)
    | Send(textOverride: Option<string>, createOk: bool)
    | Settle(reply: Reply)
    | PageScroll(marks: Landmarks, viewport: int)

  /** When an event can occur: the text box, send button and chips exist only
      inside the open window, and a request settles only while one is awaited.
      Closing the window does not cancel an awaited request. */
  predicate Enabled(st: State, e: Event) {
    match e
    case Send(_, _) => st.isOpen
    case Settle(_) => st.isLoading
    case _ => true
  }

  /** One event. Toggling is followed by the session effect that watches
      `isOpen`; after closing, that effect finds the window closed and does
      nothing, so it is left out. */
  function Step(st: State, e: Event): State
    requires Enabled(st, e)
  {
    match e
    case PressToggle(ok) => OpenEffect(Toggle(st), ok)
    case PressClose => Close(st)
    case Edit(text) => st.(input := text)
    case Send(o, ok) => BeginSend(st, o, ok)
    case Settle(reply) => Complete(st, reply)
    case PageScroll(marks, h) => Scroll(st, marks, h)
  }

  /** Every event of `evs` is enabled when it occurs. */
  predicate Valid(st: State, evs: seq<Event>)
    decreases |evs|
  {
    evs == [] || (Enabled(st, evs[0]) && Valid(Step(st, evs[0]), evs[1..]))
  }

  /** The state after all of `evs`. */
  function Run(st: State, evs: seq<Event>): State
    requires Valid(st, evs)
    decreases |evs|
  {
    if evs == [] then st else Run(Step(st, evs[0]), evs[1..])
  }

  /** The number of sends in `evs` that the guard let through. */
  function AcceptedSends(st: State, evs: seq<Event>): nat
    requires Valid(st, evs)
    decreases |evs|
  {
    if evs == [] then 0
    else
      var e := evs[0];
      (if e.Send? && Accepts(st, e.textOverride) then 1 else 0)
      + AcceptedSends(Step(st, e), evs[1..])
  }

  /** The number of user turns in a transcript. */
  function CountUsers(m: seq<Message>): nat {
    if m == [] then 0
    else CountUsers(m[..|m| - 1]) + (if m[|m| - 1].role == User then 1 else 0)
  }

  /** The transcript's shape: the greeting first, then user turns at the odd
      positions and model turns at the even ones; a reply is awaited exactly
      when the last turn is an unanswered user turn, and only with a session. */
  predicate WellFormed(st: State) {
    && |st.messages| >= 1
    && st.messages[0] == Message(Model, Greeting)
    && (forall i :: 1 <= i < |st.messages| ==> (st.messages[i].role == User <==> i % 2 == 1))
    && (st.isLoading <==> |st.messages| % 2 == 0)
    && (st.isLoading ==> st.hasSession)
  }

  // ---------------------------------------------------------------------------
  // The initial state and single steps
  // ---------------------------------------------------------------------------

  /** The widget starts closed and idle, without session or hint, showing the
      greeting alone, and is well formed. */
  lemma InitialState()
    ensures |Init.messages| == 1 && Init.messages[0].role == Model && Init.messages[0].text == Greeting
    ensures !Init.isOpen && !Init.isLoading && !Init.hasSession
    ensures Init.input == "" && Init.contextMessage == None
    ensures WellFormed(Init)
  {
  }

  /** Appending the turns `added` to a well-formed transcript keeps user turns
      at the odd positions when `added` does so relative to the old length. */
  lemma AppendKeepsAlternation(m: seq<Message>, added: seq<Message>)
    requires |m| >= 1
    requires forall i :: 1 <= i < |m| ==> (m[i].role == User <==> i % 2 == 1)
    requires forall j :: 0 <= j < |added| ==> (added[j].role == User <==> (|m| + j) % 2 == 1)
    ensures forall i :: 1 <= i < |m + added| ==> ((m + added)[i].role == User <==> i % 2 == 1)
  {
    forall i | 1 <= i < |m + added|
      ensures (m + added)[i].role == User <==> i % 2 == 1
    {
      if i >= |m| {
        assert (m + added)[i] == added[i - |m|];
      }
    }
  }

  /** Appending `added` to a well-formed state's transcript, with the flags
      set to match, gives a well-formed state. */
  lemma AppendWellFormed(st: State, added: seq<Message>, r: State)
    requires WellFormed(st)
    requires r.messages == st.messages + added
    requires forall j :: 0 <= j < |added| ==> (added[j].role == User <==> (|st.messages| + j) % 2 == 1)
    requires r.isLoading <==> |r.messages| % 2 == 0
    requires r.isLoading ==> r.hasSession
    ensures WellFormed(r)
  {
    AppendKeepsAlternation(st.messages, added);
    assert r.messages[0] == st.messages[0];
  }

  /** An accepted send keeps the transcript well formed. */
  lemma SendPreservesWellFormed(st: State, o: Option<string>, ok: bool)
    requires WellFormed(st) && Accepts(st, o)
    ensures WellFormed(BeginSend(st, o, ok))
  {
    var r := BeginSend(st, o, ok);
    var ask := Message(User, ChosenText(o, st.input));
    var n := |st.messages|;
    assert n % 2 == 1;
    if st.hasSession || ok {
      assert r.messages == st.messages + [ask];
      assert r.isLoading && r.hasSession;
      AppendWellFormed(st, [ask], r);
    } else {
      var added := [ask, Message(Model, Apology)];
      assert r.messages == st.messages + added;
      assert !r.isLoading;
      assert (n + 1) % 2 == 0;
      AppendWellFormed(st, added, r);
    }
  }

  /** A settling request keeps the transcript well formed. */
  lemma SettlePreservesWellFormed(st: State, reply: Reply)
    requires WellFormed(st) && st.isLoading
    ensures WellFormed(Complete(st, reply))
  {
    AppendWellFormed(st, [Message(Model, ReplyText(reply))], Complete(st, reply));
  }

  /** Every enabled event keeps the transcript well formed. */
  lemma StepPreservesWellFormed(st: State, e: Event)
    requires WellFormed(st) && Enabled(st, e)
    ensures WellFormed(Step(st, e))
  {
    match e
    case Send(o, ok) =>
      if Accepts(st, o) {
        SendPreservesWellFormed(st, o, ok);
      }
    case Settle(reply) =>
      SettlePreservesWellFormed(st, reply);
    case _ =>
  }

  /** Once created, the session is never lost. */
  lemma StepKeepsSession(st: State, e: Event)
    requires Enabled(st, e) && st.hasSession
    ensures Step(st, e).hasSession
  {
  }

  /** With a session present no step consults the constructor's outcome: the
      session is created at most once and never replaced. */
  lemma CreationOnlyWhenAbsent(st: State, o: Option<string>)
    requires st.hasSession
    ensures Step(st, PressToggle(true)) == Step(st, PressToggle(false))
    ensures st.isOpen ==> Step(st, Send(o, true)) == Step(st, Send(o, false))
  {
  }

  /** A send while a reply is awaited is a no-op, so at most one request is in
      flight. */
  lemma NoSecondRequest(st: State, o: Option<string>, ok: bool)
    requires st.isLoading
    ensures BeginSend(st, o, ok) == st
  {
  }

  /** Pressing the floating button twice restores the state exactly once a
      session exists (otherwise the second open may create it). */
  lemma ToggleTwiceRestores(st: State, a: bool, b: bool)
    requires st.hasSession
    ensures Valid(st, [PressToggle(a), PressToggle(b)])
    ensures Run(st, [PressToggle(a), PressToggle(b)]) == st
  {
    var s1 := Step(st, PressToggle(a));
    assert [PressToggle(a), PressToggle(b)][1..] == [PressToggle(b)];
    assert [PressToggle(b)][1..] == [];
    assert Run(s1, [PressToggle(b)]) == Step(s1, PressToggle(b));
    assert Run(st, [PressToggle(a), PressToggle(b)]) == Run(s1, [PressToggle(b)]);
  }

  /** Every user turn of a well-formed transcript is answered by the next turn,
      except the final one while its reply is awaited; no two requests overlap. */
  lemma RepliesPairWithSends(st: State)
    requires WellFormed(st)
    ensures forall i :: 1 <= i < |st.messages| && st.messages[i].role == User ==>
      (i + 1 < |st.messages| && st.messages[i + 1].role == Model)
      || (i == |st.messages| - 1 && st.isLoading)
  {
    forall i | 1 <= i < |st.messages| && st.messages[i].role == User
      ensures (i + 1 < |st.messages| && st.messages[i + 1].role == Model)
        || (i == |st.messages| - 1 && st.isLoading)
    {
      if i + 1 < |st.messages| {
        assert (i + 1) % 2 == 0;
      }
    }
  }

  // ---------------------------------------------------------------------------
  // Whole runs
  // ---------------------------------------------------------------------------

  /** Every valid run from a well-formed state ends well formed. */
  lemma {:induction false} RunPreservesWellFormed(st: State, evs: seq<Event>)
    requires WellFormed(st) && Valid(st, evs)
    ensures WellFormed(Run(st, evs))
    decreases |evs|
  {
    if evs != [] {
      StepPreservesWellFormed(st, evs[0]);
      RunPreservesWellFormed(Step(st, evs[0]), evs[1..]);
    }
  }

  /** The transcript is append-only: the old one is a prefix of the new one. */
  lemma {:induction false} RunExtendsTranscript(st: State, evs: seq<Event>)
    requires Valid(st, evs)
    ensures |Run(st, evs).messages| >= |st.messages|
    ensures Run(st, evs).messages[..|st.messages|] == st.messages
    decreases |evs|
  {
    if evs != [] {
      var next := Step(st, evs[0]);
      assert next.messages[..|st.messages|] == st.messages;
      RunExtendsTranscript(next, evs[1..]);
      var last := Run(next, evs[1..]).messages;
      assert last[..|st.messages|] == last[..|next.messages|][..|st.messages|];
    }
  }

  /** Once created, the session survives every run. */
  lemma {:induction false} RunKeepsSession(st: State, evs: seq<Event>)
    requires Valid(st, evs) && st.hasSession
    ensures Run(st, evs).hasSession
    decreases |evs|
  {
    if evs != [] {
      StepKeepsSession(st, evs[0]);
      RunKeepsSession(Step(st, evs[0]), evs[1..]);
    }
  }

  /** The run contains no send and no settling request. */
  predicate OnlyViewEvents(evs: seq<Event>) {
    forall i :: 0 <= i < |evs| ==> !evs[i].Send? && !evs[i].Settle?
  }

  /** Typing in the text box replaces the draft by the box's contents and
      changes nothing else, whatever the draft was. */
  lemma TypingOnlySetsDraft(st: State, text: string)
    ensures Step(st, Edit(text)).input == text
    ensures Step(st, Edit(text)).(input := st.input) == st
  {
  }

  /** Opening, closing, typing and scrolling never touch the transcript or the
      awaited reply, and never lose the session. */
  lemma {:induction false} ViewEventsKeepTranscript(st: State, evs: seq<Event>)
    requires Valid(st, evs) && OnlyViewEvents(evs)
    ensures Run(st, evs).messages == st.messages
    ensures Run(st, evs).isLoading == st.isLoading
    ensures st.hasSession ==> Run(st, evs).hasSession
    decreases |evs|
  {
    if evs != [] {
      assert !evs[0].Send? && !evs[0].Settle?;
      assert OnlyViewEvents(evs[1..]) by {
        forall i | 0 <= i < |evs[1..]|
          ensures !evs[1..][i].Send? && !evs[1..][i].Settle?
        {
          assert evs[1..][i] == evs[i + 1];
        }
      }
      ViewEventsKeepTranscript(Step(st, evs[0]), evs[1..]);
    }
  }

  // ---------------------------------------------------------------------------
  // Counting turns
  // ---------------------------------------------------------------------------

  /** In a well-formed transcript half the turns, rounded down, are the user's. */
  lemma {:induction false} CountUsersOfPrefix(st: State, k: nat)
    requires WellFormed(st) && 1 <= k <= |st.messages|
    ensures CountUsers(st.messages[..k]) == k / 2
    decreases k
  {
    if k > 1 {
      CountUsersOfPrefix(st, k - 1);
      assert st.messages[..k][..k - 1] == st.messages[..k - 1];
    } else {
      assert st.messages[..k][..0] == [];
    }
  }

  /** Appending one turn adds one to the count exactly when it is the user's. */
  lemma CountUsersSnoc(m: seq<Message>, x: Message)
    ensures CountUsers(m + [x]) == CountUsers(m) + (if x.role == User then 1 else 0)
  {
    assert (m + [x])[..|m|] == m;
  }

  /** A single step adds one user turn exactly when it is an accepted send. */
  lemma StepCountsUsers(st: State, e: Event)
    requires Enabled(st, e)
    ensures CountUsers(Step(st, e).messages)
      == CountUsers(st.messages) + (if e.Send? && Accepts(st, e.textOverride) then 1 else 0)
  {
    match e
    case Send(o, ok) =>
      if Accepts(st, o) {
        var asked := st.messages + [Message(User, ChosenText(o, st.input))];
        CountUsersSnoc(st.messages, Message(User, ChosenText(o, st.input)));
        if !(st.hasSession || ok) {
          CountUsersSnoc(asked, Message(Model, Apology));
        }
      }
    case Settle(reply) =>
      CountUsersSnoc(st.messages, Message(Model, ReplyText(reply)));
    case _ =>
  }

  /** Each accepted send adds exactly one user turn. */
  lemma {:induction false} UserTurnsCountSends(st: State, evs: seq<Event>)
    requires Valid(st, evs)
    ensures CountUsers(Run(st, evs).messages) == CountUsers(st.messages) + AcceptedSends(st, evs)
    decreases |evs|
  {
    if evs != [] {
      StepCountsUsers(st, evs[0]);
      UserTurnsCountSends(Step(st, evs[0]), evs[1..]);
    }
  }

  /** Sends and replies pair up: after any run from the initial state the
      transcript holds the greeting plus two turns per accepted send, less the
      one reply still awaited, if any. Failed requests count like successful
      ones, since the apology stands in for the reply. */
  lemma TranscriptLength(evs: seq<Event>)
    requires Valid(Init, evs)
    ensures var r := Run(Init, evs);
      |r.messages| == 1 + 2 * AcceptedSends(Init, evs) - (if r.isLoading then 1 else 0)
  {
    var r := Run(Init, evs);
    RunPreservesWellFormed(Init, evs);
    UserTurnsCountSends(Init, evs);
    CountUsersOfPrefix(r, |r.messages|);
    assert r.messages[..|r.messages|] == r.messages;
    assert CountUsers(Init.messages) == 0 by {
      assert Init.messages[..0] == [];
    }
  }

  // ---------------------------------------------------------------------------
  // What the user sees
  // ---------------------------------------------------------------------------

  /** Auto-scroll policy: while a reply is awaited the open transcript scrolls
      to its end; once the reply lands it scrolls to the start of that reply,
      which is the element carrying the last-model anchor. */
  lemma AutoScrollPolicy(st: State, reply: Reply)
    requires WellFormed(st) && st.isOpen && st.isLoading
    ensures TranscriptScroll(st) == End
    ensures var r := Complete(st, reply);
      TranscriptScroll(r) == StartOfLastModel && LastModelAnchor(r.messages) == Some(|st.messages|)
  {
  }

  /** Closing the window does not cancel an awaited request: its reply still
      lands in the transcript, and the window stays closed. */
  lemma SettleAfterClose(st: State, reply: Reply)
    requires st.isLoading
    ensures var closed := Step(st, PressClose);
      && Enabled(closed, Settle(reply))
      && Step(closed, Settle(reply)).messages == st.messages + [Message(Model, ReplyText(reply))]
      && !Step(closed, Settle(reply)).isOpen
  {
  }

  /** Opening the window hides the hint bubble but keeps the hint itself, so it
      reappears on closing until the next scroll. */
  lemma HintHiddenWhileOpen(st: State, ok: bool)
    requires !st.isOpen
    ensures ShownHint(Step(st, PressToggle(ok))) == None
    ensures Step(st, PressToggle(ok)).contextMessage == st.contextMessage
    ensures Step(Step(st, PressToggle(ok)), PressClose).contextMessage == st.contextMessage
  {
  }

  // ---------------------------------------------------------------------------
  // Scenarios
  // ---------------------------------------------------------------------------

  /** A four-event run is the four steps applied in turn. */
  lemma RunOfFour(st: State, a: Event, b: Event, c: Event, d: Event)
    requires Enabled(st, a) && Enabled(Step(st, a), b) && Enabled(Step(Step(st, a), b), c)
    requires Enabled(Step(Step(Step(st, a), b), c), d)
    ensures Valid(st, [a, b, c, d])
    ensures Run(st, [a, b, c, d]) == Step(Step(Step(Step(st, a), b), c), d)
  {
    var s1 := Step(st, a);
    var s2 := Step(s1, b);
    var s3 := Step(s2, c);
    assert [d][1..] == [];
    assert [d][0] == d;
    assert Run(Step(s3, d), []) == Step(s3, d);
    assert Valid(s3, [d]);
    assert Run(s3, [d]) == Run(Step(s3, d), [d][1..]);
    assert [c, d][1..] == [d];
    assert Valid(s2, [c, d]) && Run(s2, [c, d]) == Run(s3, [d]);
    assert [b, c, d][1..] == [c, d];
    assert Valid(s1, [b, c, d]) && Run(s1, [b, c, d]) == Run(s2, [c, d]);
    assert [a, b, c, d][1..] == [b, c, d];
  }

  /** Open the widget, type a non-blank question and send it, and the reply
      arrives: the transcript is greeting, question, answer, and the widget is
      idle with an empty draft. */
  lemma AskAndAnswer(q: string, a: string)
    requires !JsText.IsBlank(q)
    ensures var evs := [PressToggle(true), Edit(q), Send(None, true), Settle(Replied(a))];
      && Valid(Init, evs)
      && Run(Init, evs).messages == [Message(Model, Greeting), Message(User, q), Message(Model, a)]
      && !Run(Init, evs).isLoading
      && Run(Init, evs).input == ""
  {
    var e1, e2, e3, e4 := PressToggle(true), Edit(q), Send(None, true), Settle(Replied(a));
    var s3 := Step(Step(Step(Init, e1), e2), e3);
    assert s3.isLoading && s3.messages == [Message(Model, Greeting), Message(User, q)];
    RunOfFour(Init, e1, e2, e3, e4);
  }

  /** Opening fails to create a session; the first chip's send creates it but
      the request fails, so the apology is appended and the widget is idle; a
      second chip pressed next is accepted as usual. */
  lemma FailureThenRetry(q1: string, q2: string)
    requires !JsText.IsBlank(q1) && !JsText.IsBlank(q2)
    ensures var evs := [PressToggle(false), Send(Some(q1), true), Settle(Failed), Send(Some(q2), false)];
      && Valid(Init, evs)
      && Run(Init, evs).messages
         == [Message(Model, Greeting), Message(User, q1), Message(Model, Apology), Message(User, q2)]
      && Run(Init, evs).isLoading
      && Run(Init, evs).hasSession
  {
    var e1, e2, e3, e4 := PressToggle(false), Send(Some(q1), true), Settle(Failed), Send(Some(q2), false);
    var greet, ask1, sorry, ask2 := Message(Model, Greeting), Message(User, q1), Message(Model, Apology), Message(User, q2);
    var s1 := Init.(isOpen := true);
    var s2 := s1.(messages := [greet, ask1], isLoading := true, hasSession := true);
    var s3 := s2.(messages := [greet, ask1, sorry], isLoading := false);
    assert Step(Init, e1) == s1;
    assert Step(s1, e2) == s2;
    assert Step(s2, e3) == s3;
    assert Step(s3, e4) == s3.(messages := [greet, ask1, sorry, ask2], isLoading := true);
    RunOfFour(Init, e1, e2, e3, e4);
  }

  const OvertimeQuestion: string := "残業は本当にないの？"
  const OvertimeAnswer: string := "月平均3.2時間です😊"

  /** A question about overtime, asked by typing and answered. */
  lemma ScenarioAnswered()
    ensures var evs := [PressToggle(true), Edit(OvertimeQuestion), Send(None, true), Settle(Replied(OvertimeAnswer))];
      && Valid(Init, evs)
      && Run(Init, evs).messages
         == [Message(Model, Greeting), Message(User, OvertimeQuestion), Message(Model, OvertimeAnswer)]
      && !Run(Init, evs).isLoading
  {
    assert !JsText.IsJsWhitespace(OvertimeQuestion[0]);
    AskAndAnswer(OvertimeQuestion, OvertimeAnswer);
  }

  /** The salary section reaches mid-screen while closed: its hint shows; once
      scrolled past, the hint clears; a hint set before opening is not shown. */
  lemma ScenarioSalaryHint()
    ensures var inSalary := Landmarks(Some(Rect(-100, 900)), Some(Rect(1500, 2300)), None);
      var pastAll := Landmarks(Some(Rect(-1500, -700)), Some(Rect(-300, 300)), None);
      && ShownHint(Step(Init, PageScroll(inSalary, 800))) == Some(SalaryHint)
      && ShownHint(Step(Step(Init, PageScroll(inSalary, 800)), PageScroll(pastAll, 800))) == None
      && ShownHint(Step(Step(Init, PageScroll(inSalary, 800)), PressToggle(true))) == None
  {
    assert SalaryHint != "";
  }
}
