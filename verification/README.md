# Smart Care chat widget, modelled in Dafny

The Smart Care recruitment site embeds one stateful component: the chat widget
"アイ" (`components/ChatBot.tsx`). It keeps an open/closed window, a transcript of
user and model turns, a draft in the text box, a flag for the one request awaiting
a reply, a lazily created session with the hosted language model, and a contextual
hint picked from the page's scroll position while the window is closed.

This project recasts that widget as a pure reducer over an immutable state record
and proves what holds of it:

- `js_text.dfy` (module `JsText`): ECMAScript `String.prototype.trim`, with the
  whitespace set of the WhiteSpace and LineTerminator productions of ECMA-262.
- `chat_bot.dfy` (module `ChatBot`): the state, the widget's fixed strings, and
  one function per command: `Toggle`, `Close`, `OpenEffect`, `BeginSend`,
  `Complete`, `Scroll`, plus the view decisions `ShownHint`, `LastModelAnchor`
  and `TranscriptScroll`.
- `chat_trace.dfy` (module `ChatTrace`): runs of events through the reducer. The
  transcript invariant `WellFormed` holds on every run. It says the greeting
  comes first, user turns sit at odd positions and model turns at even ones, and
  a reply is awaited exactly when the last turn is an unanswered user turn.
  The lemmas about runs follow from it: the transcript is append-only, sends and
  replies pair one to one, at most one request is in flight, and the
  transcript's length is fixed by the number of accepted sends.

`handleSend` is asynchronous. The model splits it at its only `await`:

- `BeginSend` covers the guard, the user turn and the lazy session creation.
- `Complete` covers the settling of the request.

If the session constructor throws inside `handleSend`, the `catch` runs before
anything is awaited. `BeginSend` therefore appends the apology at once in that
case and leaves the widget idle.

## Model

| member | source | states |
|---|---|---|
| JsText.Trim | components/ChatBot.tsx:135 | `s.trim()` is empty exactly when every character of `s` is ECMAScript whitespace; the result never starts or ends with whitespace; a string without whitespace at either end comes back unchanged |
| JsText.TrimIsInfix | components/ChatBot.tsx:135 | `s.trim()` is the part of `s` between a blank prefix and a blank suffix; since the result has no whitespace at either end, those are the whole leading and trailing whitespace runs |
| JsText.TrimStart | components/ChatBot.tsx:135 | the leading-whitespace half of `trim`: a suffix of the input whose removed prefix is all whitespace and which does not start with whitespace |
| JsText.TrimEnd | components/ChatBot.tsx:135 | the trailing-whitespace half of `trim`: a prefix of the input whose removed suffix is all whitespace and which does not end with whitespace |
| ChatBot.Toggle | components/ChatBot.tsx:183 | the floating button flips `isOpen` and changes nothing else, so transcript, draft, session and hint survive |
| ChatBot.Close | components/ChatBot.tsx:221 | the header's close button leaves the window closed and changes nothing else |
| ChatBot.OpenEffect | components/ChatBot.tsx:119-131 | after `isOpen` changes, only the session can change: it exists afterwards iff it existed before or the window is open and the constructor returned. `ChatTrace.Step` runs this effect right after every press of the floating button |
| ChatBot.ChosenText | components/ChatBot.tsx:134 | the chip's text when one is given and non-empty (JavaScript truthiness), otherwise the draft; so an empty override falls back to the draft |
| ChatBot.BeginSend | components/ChatBot.tsx:133-148 | the guard is `ChatBot.Accepts`. A blank chosen text or an awaited reply leaves the whole state unchanged. Otherwise: the draft is cleared; the old transcript is kept as a prefix; exactly one user turn with the untrimmed text is appended; the session exists iff it did or the constructor returned. With a session a reply is awaited; without one the apology follows at once and the widget is idle |
| ChatBot.Complete | components/ChatBot.tsx:149-158 | a settling request appends exactly one model turn: the reply text on success, the fixed apology on any failure. The reply is no longer awaited and nothing else changes |
| ChatBot.AcceptsIsTrimGuard | components/ChatBot.tsx:134-135 | a send goes ahead exactly when the chosen text is non-empty after `trim()` and no reply is awaited |
| ChatBot.SendButtonMatchesGuard | components/ChatBot.tsx:289 | the send button's `disabled` test is the exact negation of the guard in `handleSend` for a send without override |
| ChatBot.ChipSendsWhenEnabled | components/ChatBot.tsx:266-270 | every suggestion chip is non-blank, so a chip is enabled exactly when pressing it is accepted |
| ChatBot.HintFor | components/ChatBot.tsx:80-93 | the hint follows the fixed priority salary, then flow, then Q&A. A section counts when it exists and `top < h/2 < bottom`, strict on both sides. No hint (null) when none counts, and each outcome is stated as an if-and-only-if |
| ChatBot.Scroll | components/ChatBot.tsx:73-94 | while open a scroll changes nothing, not even a stale hint; while closed only the hint changes, to the one for the current position |
| ChatBot.ShownHint | components/ChatBot.tsx:168 | the hint bubble shows exactly when the window is closed and the hint is a non-empty string |
| ChatBot.LastModelAnchor | components/ChatBot.tsx:231-235 | the last-model anchor sits on index `i` iff `i` is the final turn and that turn is the model's |
| ChatBot.TranscriptScroll | components/ChatBot.tsx:101-117 | no scroll while closed. While a reply is awaited: the end. When idle: the end if the last turn is the user's, the start of the anchored last model turn if it is the model's, and no scroll for an empty transcript |
| ChatTrace.InitialState | components/ChatBot.tsx:58-70 | the widget starts closed and idle, with no session and no hint, and shows only the model's greeting; that state is well formed |
| ChatTrace.AppendWellFormed | components/ChatBot.tsx:138 | appending turns whose roles alternate from the old length, with the flags set to match, keeps a transcript well formed |
| ChatTrace.SendPreservesWellFormed | components/ChatBot.tsx:133-155 | an accepted send keeps the transcript well formed, whether it awaits a reply or appends the apology at once |
| ChatTrace.SettlePreservesWellFormed | components/ChatBot.tsx:150-158 | a settling request keeps the transcript well formed |
| ChatTrace.StepPreservesWellFormed | components/ChatBot.tsx:133-158 | every enabled event keeps the transcript well formed |
| ChatTrace.StepKeepsSession | components/ChatBot.tsx:142-148 | no event discards an existing session |
| ChatTrace.CreationOnlyWhenAbsent | components/ChatBot.tsx:120 | with a session present, neither opening nor sending depends on the constructor's outcome, so the session is created at most once and never replaced |
| ChatTrace.NoSecondRequest | components/ChatBot.tsx:135 | a send while a reply is awaited is a no-op: at most one request is in flight |
| ChatTrace.ToggleTwiceRestores | components/ChatBot.tsx:183 | once a session exists, pressing the floating button twice restores the exact state, transcript included |
| ChatTrace.RepliesPairWithSends | components/ChatBot.tsx:137-158 | in a well-formed transcript every user turn is followed by a model turn, except the last one while its reply is awaited |
| ChatTrace.RunPreservesWellFormed | components/ChatBot.tsx:133-158 | every valid run from a well-formed state ends well formed |
| ChatTrace.RunExtendsTranscript | components/ChatBot.tsx:138-155 | the transcript is append-only: after any run the old transcript is a prefix of the new one |
| ChatTrace.RunKeepsSession | components/ChatBot.tsx:119-148 | once created, the session survives every run |
| ChatTrace.TypingOnlySetsDraft | components/ChatBot.tsx:282 | typing sets the draft to the text box's contents and changes nothing else |
| ChatTrace.ViewEventsKeepTranscript | components/ChatBot.tsx:183 | runs of only opening, closing, typing and scrolling leave the transcript and the awaited flag unchanged and keep the session |
| ChatTrace.StepCountsUsers | components/ChatBot.tsx:137-139 | one step adds a user turn exactly when it is an accepted send |
| ChatTrace.UserTurnsCountSends | components/ChatBot.tsx:133-139 | over any run, the user turns grow by exactly the number of accepted sends |
| ChatTrace.TranscriptLength | components/ChatBot.tsx:133-158 | from the initial state the transcript holds 1 + 2 × accepted sends turns, minus one while a reply is awaited; failures pair 1:1 like successes |
| ChatTrace.AutoScrollPolicy | components/ChatBot.tsx:101-117 | while a reply is awaited the open transcript scrolls to its end; once it lands it scrolls to the start of that reply, which carries the anchor |
| ChatTrace.SettleAfterClose | components/ChatBot.tsx:150-158 | closing the window does not cancel an awaited request; its reply still lands and the window stays closed |
| ChatTrace.HintHiddenWhileOpen | components/ChatBot.tsx:168 | opening hides the hint bubble but keeps the hint, which is still there after closing again |
| ChatTrace.AskAndAnswer | components/ChatBot.tsx:133-158 | open, type a non-blank question, send, reply arrives: the transcript is greeting, question, answer; the widget is idle and the draft empty |
| ChatTrace.FailureThenRetry | components/ChatBot.tsx:141-158 | creation fails on opening; the first send creates the session but its request fails, so the apology is appended; the next send is accepted and awaits its reply |
| ChatTrace.ScenarioAnswered | components/ChatBot.tsx:152 | "残業は本当にないの？" answered with "月平均3.2時間です😊" gives exactly greeting, question, answer |
| ChatTrace.ScenarioSalaryHint | components/ChatBot.tsx:85-92 | the salary section at mid-screen shows the salary hint; scrolled past every section, the hint clears; opening hides it |

## Left out

- The `@google/genai` client and the system instruction text: the session's
  creation outcome is the `createOk` parameter. The request's outcome is the
  `Reply` parameter of `Complete`: `Replied(text)` or `Failed`.
- `Replied(text)` carries a string. The SDK's `result.text` may be `undefined`,
  which the widget would append as is; the model does not tell that apart from
  an empty reply.
- Browser geometry: `getBoundingClientRect`, `window.innerHeight` and
  `scrollIntoView`. Rectangles and the viewport height are integer parameters.
  The comparison with `innerHeight / 2` is stated as `2 * top < h` and
  `2 * bottom > h`, which is exact for integers. Fractional pixel coordinates
  are not modelled.
- When the scroll and auto-scroll effects fire (React's dependency lists and
  event listener registration), and the smooth-scroll animation. `Scroll` and
  `TranscriptScroll` are what one run of each effect decides.
- React's batching and stale closures: two sends issued before a re-render could
  both pass the `isLoading` guard. The model serialises events, so it does not
  cover that race.
- The console logging in both `catch` blocks.
- The rest of the repository (`Sections.tsx`, `Layout.tsx`, `UIComponents.tsx`,
  `App.tsx`, `types.ts`) is markup, animation and unused types, with no rules.
- JavaScript strings may hold a lone UTF-16 surrogate, which has no Dafny
  `char`. The model covers only well-formed strings. A lone surrogate is not
  whitespace, so `trim` would keep it like any other character.
- ChatTrace.Enabled: sends occur only while the window is open, because the text
  box, send button and chips are rendered only then. `handleSend` itself does not
  check `isOpen`.

## Blank overrides

`handleSend` sends `textOverride || input` and rejects it when it is empty after
`trim()`:

- An empty override is falsy, so the draft is sent instead.
- A whitespace-only override is truthy, so it is chosen. It is then rejected,
  even when the draft holds text, and the draft is kept.

No suggestion chip is blank, so the second case does not arise in the widget
as shipped (`ChatBot.ChipSendsWhenEnabled`).

`ChatBot.Accepts` states the guard as "the chosen text is not blank", and
`ChatBot.AcceptsIsTrimGuard` proves this is the `trim()` test as written.
`ChatBot.SendButtonMatchesGuard` connects the send button's own `trim()` test
to it.
