# turning-thirty: the decision logic of the home screen, in Dafny

The app is a one-screen birthday-countdown companion. It has a header that collapses when you drag it, and a two-page pager with notes on one page and chat on the other. A bar at the bottom takes input, and a floating tab bar sits over the screen. The assistant in the chat is simulated: it picks a canned reply and types it out word by word. This project models the parts of that behaviour that are decisions rather than drawing:

- `home_screen.dfy` (`HomeScreen`): the header's drag, release and keyboard rules; the pager's drag, release and tab-button rules; the ordinal suffix of the date line; and the days-left count. Screen width is a parameter. Gesture positions and velocities are `real`s. An animated settle (`withTiming`) is modelled by the value it settles to. Both controls are also small state machines (`HeaderStep`, `PagerStep`), with invariants proved over every event sequence.
- `words.dfy` (`Words`): JavaScript's `split(' ')` and joining with single spaces, with round trips in both directions.
- `app_context.dfy` (`AppContext`): the notes list, the chat log, and the responder.
  - The responder is a state machine over four events: a user message, a run of the responder effect, the reply delay firing, and one tick of the reveal interval.
  - `Math.random` appears as a parameter `rand` in [0, 1).
  - Message identifiers are naturals that the environment supplies fresh.
- `input_bar.dfy` (`InputBar`): the send button, which routes text to notes or chat, and the history menu.
- `tab_bar.dfy` (`TabBar`): the unit-width and cursor arithmetic, label choice, focus, flex weights and the press-to-navigate rule.
- `wrappers.dfy` (`Wrappers`): `Option`, standing in for `null`/`undefined`.

In several places the code does something other than what such an app might be expected to do. The model follows the code:

- The send button tests `inputValue.length > 0`, so text made only of spaces IS sent (`InputBar.BlankTextIsSent`). There is no trimming before the check.
- The reply is split with `split(' ')` on single spaces, not on all whitespace. Consecutive spaces therefore give empty words, and the round trip still holds (`Words.JoinSplit`).
- The responder effect returns no cleanup, so nothing cancels a reply once it has started. The model has no cancellation.
- Nothing calls `setActiveTab`, so `activeTab` stays `'chat'` (context/AppContext.tsx:82). When the input bar runs under an `AppProvider`, text sent from the notes page is therefore filed as a chat message and starts a reply, and the notes branch of `InputBar.Send` is never taken. The model keeps the tab as state, so both branches are stated.
- The keyboard handler (app/index.tsx:83-88) collapses the header whenever the keyboard starts to show, even in the middle of a drag. There is no guard, and `HomeScreen.HeaderStep` has none either: a later drag update measures again from the height captured at the drag's start.
- The horizontal release handler computes `target` at app/index.tsx:108-110, but that value is always overwritten by the velocity-first rule just below it. Only the rule that takes effect is modelled (`HomeScreen.SettleOffset`).

## Model

| member | source | states |
|---|---|---|
| HomeScreen.OrdinalSuffix | app/index.tsx:24-32 | The suffix is one of st/nd/rd/th. It is "th" for days 4 to 20. The last digit is taken with JavaScript's sign-preserving remainder, so a non-positive day gets "th". |
| HomeScreen.OrdinalSuffixCalendarDays | app/index.tsx:24-32 | For every day 1 to 31, the digit rule gives the same suffix as an independent table of English ordinals: 1st, 2nd, 3rd, 11th, 12th, 13th, 21st, 22nd, 23rd, 31st. |
| HomeScreen.DaysLeft | app/index.tsx:206-212 | When the target is in the future, the days left are the whole number of 86 400 000 ms days that fit in the difference. Otherwise they are 0, so the count is never negative. |
| HomeScreen.DragHeight | app/index.tsx:58-66 | The height while dragging is never below the collapsed height, and nothing caps it from above. It equals start plus translation exactly when that value is at least the collapsed height, and it is exactly the collapsed height when that value falls below it. |
| HomeScreen.SettleHeight | app/index.tsx:67-79 | On release the header settles at one of exactly two heights, 450 or 110. It settles at 450 exactly when the vertical velocity is positive, so zero velocity collapses it. |
| HomeScreen.HeightOnKeyboardStart | app/index.tsx:83-88 | A keyboard event with positive height collapses the header. Any other keyboard event leaves the height unchanged. |
| HomeScreen.HeaderStep | app/index.tsx:54-88 | A drag start captures the shown height and moves nothing. A drag then measures from that captured height, not from the current one. Only a drag start changes the capture. A drag below the floor lands exactly on the collapsed height. A release lands on 450 exactly when the vertical velocity is positive, and on 110 otherwise. A keyboard event of positive height collapses the header, and any other keyboard event changes nothing. No event takes a valid header below the collapsed height. |
| HomeScreen.HeaderRunKeepsInv | app/index.tsx:54-91 | No sequence of drag starts, drag updates, releases and keyboard events takes the header below its collapsed height. |
| HomeScreen.HeaderReachableInv | app/index.tsx:51-91 | From the initial 450-high header, every reachable height is at least the collapsed height. |
| HomeScreen.HeaderSettlesAtBound | app/index.tsx:67-79 | Whatever happened before, after a release the header rests at the collapsed or the expanded height. |
| HomeScreen.SettleIdempotent | app/index.tsx:74-78 | Releasing a collapsed header with zero velocity leaves its state unchanged. |
| HomeScreen.DragOffset | app/index.tsx:100-105 | The pager offset while dragging lies in [0, width]. It equals the start offset minus the translation whenever that value is in range. It is 0 below the range and the width above it. |
| HomeScreen.SettleOffset | app/index.tsx:106-120 | The offset settles at 0 or the width. A velocity below -500 picks the width and a velocity above 500 picks 0. Otherwise the width is picked exactly when the offset is past the midpoint, so exactly half goes to 0 and velocity ±500 falls to the position rule. |
| HomeScreen.TabOffset | app/index.tsx:188-191 | Tab 0 moves the pager to offset 0. Any other tab moves it to the screen width. |
| HomeScreen.TabOffsetIsSettled | app/index.tsx:112-117 | For a positive width, the offset a tab press moves to is a fixed point of the release rule at zero velocity, so tab presses and swipes share the same two resting places. |
| HomeScreen.PagerStep | app/index.tsx:94-120 | A drag start captures the shown offset and moves nothing. A drag then measures from that captured offset and stays within [0, width]. Only a drag start changes the capture. A drag past either end clamps to that end. A release follows the velocity thresholds first (below -500 gives the width, above 500 gives 0), and otherwise, for a positive width, picks the width exactly when the offset is past the midpoint. A tab press (app/index.tsx:188-190) goes to 0 for tab 0 and to the width for any other tab. No event takes an in-range offset out of range. |
| HomeScreen.PagerRunInRange | app/index.tsx:93-120 | No sequence of drags, releases and tab presses takes the offset out of [0, width] once it is inside. |
| HomeScreen.PagerReachableInRange | app/index.tsx:46-120 | From the initial offset (the chat page), every reachable offset lies in [0, width]. |
| Words.Split | context/AppContext.tsx:115 | `split(' ')` always yields at least one word, and no word contains a space. |
| Words.JoinSplit | context/AppContext.tsx:115-125 | Joining the words of `s.split(' ')` with single spaces gives back `s` exactly, for every string. |
| Words.SplitJoin | context/AppContext.tsx:115-125 | For a non-empty list of words without spaces, splitting their space-join gives back the list. |
| Words.SplitCount | context/AppContext.tsx:115 | `split(' ')` yields one word more than the string has spaces. |
| Words.JoinSnoc | context/AppContext.tsx:125 | Appending a word to a joined list adds a space only when the list was non-empty. This is the responder's per-tick update. |
| AppContext.AddNote | context/AppContext.tsx:85-95 | Exactly one note is appended at the end, carrying the given text, identifier and timestamp. The earlier notes are unchanged. |
| AppContext.AddChatMessage | context/AppContext.tsx:97-104 | Exactly one user message with the given text is appended, with no emptiness check. The earlier messages and the responder state are unchanged. |
| AppContext.RunEffect | context/AppContext.tsx:106-109 | The effect starts a cycle (typing raised, delay pending) only when the log ends with a user message and no reply is typing. Otherwise it changes nothing. It never changes the log. |
| AppContext.EffectStartsIff | context/AppContext.tsx:106-109 | Under the invariant, an effect run moves an idle responder into a pending cycle if and only if the guard holds. |
| AppContext.NoOverlappingCycles | context/AppContext.tsx:107-109 | A message sent while a reply is typing is logged, but neither it nor a later effect run touches the running cycle. |
| AppContext.ChoiceIndex | context/AppContext.tsx:114 | floor(rand × count) is a valid index when rand is in [0, 1) and count > 0, so the reply is always one of the canned responses. |
| AppContext.Fire | context/AppContext.tsx:113-121 | When a delay is pending, firing appends one empty assistant message with the new identifier and starts revealing the chosen canned response, split on spaces, from word 0. With nothing pending, firing changes nothing. |
| AppContext.ReplaceMessage | context/AppContext.tsx:126-128 | The length and all identifiers are kept. Messages with other identifiers are unchanged, and those with the given identifier get the new text. |
| AppContext.Tick | context/AppContext.tsx:123-134 | While words remain, a tick grows the text by extension (the old text is a prefix). Only the streaming message changes, and the log length, identifiers and typing flag stay the same. After the last word, a tick lowers the typing flag and ends the cycle without touching the log. |
| AppContext.InitialInv | context/AppContext.tsx:79-83 | The start-up conversation satisfies the invariant. It ends with an assistant message and nobody is typing, so the effect does nothing on mount. |
| AppContext.StepKeepsInv | context/AppContext.tsx:97-134 | Every event preserves the invariant, given fresh identifiers. The invariant: identifiers are unique; the typing flag is up exactly while a cycle runs; a streaming reply's text is its first words joined by spaces and is what its bubble shows. |
| AppContext.RunKeepsInv | context/AppContext.tsx:97-138 | Any valid interleaving of user messages, effect runs, delays and ticks preserves the invariant. |
| AppContext.ReachableInv | context/AppContext.tsx:79-138 | Every state reachable from start-up satisfies the invariant, so at most one reply cycle is ever active. |
| AppContext.StepAppendOnly | context/AppContext.tsx:97-134 | One event only appends to the log or rewrites the bubble being streamed. A reply it starts streams into a bubble whose identifier was not in the log. |
| AppContext.RunAppendOnly | context/AppContext.tsx:97-138 | Over any valid run the log never shrinks. Every earlier message keeps its identifier and sender. Every earlier message other than the bubble being streamed at the start keeps its text too. |
| AppContext.FinishedLogPersists | context/AppContext.tsx:97-138 | Once the responder is idle, every message in the log is final: later user messages, effect runs and replies leave it as it is. |
| AppContext.IntervalsReveal | context/AppContext.tsx:123-129 | After k ticks (within the word count), the streamed text is the first words joined by single spaces, up to the new word index, and no other message has changed. |
| AppContext.RevealAll | context/AppContext.tsx:115-134 | After one tick per word, the reply's bubble holds the chosen response verbatim. |
| AppContext.RunKeepsCannedReply | context/AppContext.tsx:113-129 | Along any sequence of events, a reply being revealed is always one of the twelve canned responses. |
| AppContext.ReachableStreamShowsResponse | context/AppContext.tsx:113-134 | In every reachable state, once all words of a reply are revealed, a bubble with the reply's identifier shows the canned response verbatim. |
| AppContext.ReplyStreamsResponse | context/AppContext.tsx:113-134 | Once the delay fires and one tick per word follows, the log is the old log plus one assistant message holding a canned response verbatim. One more tick lowers the typing flag and ends the cycle without changing the log. |
| InputBar.InitialScreen | components/Input.tsx:11-14 | The screen starts on the chat tab, with the seed notes and the seed chat from the shared context (context/AppContext.tsx:80-83), an empty input, a closed menu and no selection. The responder is quiet. |
| InputBar.ChangeText | components/Input.tsx:65 | Editing the field sets the input value. The menu, the selection and the application state are left alone. |
| InputBar.TypedTextIsSent | components/Input.tsx:65-79 | Typing a non-empty text and pressing send appends exactly that text: as a note on the notes tab, as a user message on any other tab. The other list is untouched, the field is cleared, and the menu and selection are kept. |
| InputBar.Send | components/Input.tsx:69-79 | An empty field changes nothing. Otherwise the exact text goes to `AddNote` on the notes tab or to `AddChatMessage` on any other tab, the other list is untouched, and the field is cleared. |
| InputBar.SendFilesExactlyOnce | components/Input.tsx:70-76 | A send with text adds exactly one entry across notes and chat, and that entry carries the typed text. A send with an empty field adds none. |
| InputBar.SendTwiceIsSendOnce | components/Input.tsx:70-76 | A second send straight after a send changes nothing, because the field has been cleared. |
| InputBar.BlankTextIsSent | components/Input.tsx:70 | On the chat tab, a field of three spaces is sent as a user message "   ". |
| InputBar.SelectHistoryItem | components/Input.tsx:28-39 | Pressing the selected entry clears the selection, and pressing another entry selects it. The menu closes in both cases. Focus is requested exactly when the entry was not selected. Only the three menu entries can be pressed. |
| InputBar.SelectHistoryItemTwice | components/Input.tsx:37 | Pressing the same entry twice restores the previous selection, when that was this entry or nothing. |
| InputBar.SelectKeepsSelectionListed | components/Input.tsx:28-37 | A selection, when there is one, is always one of the three menu entries, and pressing an entry keeps it so. |
| InputBar.ToggleHistoryMenu | components/Input.tsx:55 | The clock button flips whether the menu is shown and changes nothing else. |
| InputBar.ToggleHistoryMenuTwice | components/Input.tsx:55 | Pressing the clock button twice restores the input state. |
| TabBar.UnitWidth | components/custom-tab-bar.tsx:15-21 | n + 1 units exactly fill the inner width, which is 45% of the screen minus twice the 5-point padding. |
| TabBar.CursorFor | components/custom-tab-bar.tsx:22-47 | The cursor is two units wide. Its right edge is at (index + 2) units. |
| TabBar.CursorInsidePill | components/custom-tab-bar.tsx:19-47 | For an index in range and a non-negative inner width, the cursor starts at or after the left edge and ends at or before the right edge. The last tab's cursor ends exactly at the right edge. |
| TabBar.Label | components/custom-tab-bar.tsx:52-54 | The label is `tabBarLabel` if defined, otherwise `title` if defined, otherwise the route name. |
| TabBar.LabelIsFirstDefined | components/custom-tab-bar.tsx:52-54 | The label is the first defined value among `tabBarLabel` and `title`, with the route name as the fallback. So it is always one of these three. |
| TabBar.ExactlyOneFocused | components/custom-tab-bar.tsx:56 | With the navigator index in range, the focused tabs are exactly that index. Out of range, no tab is focused. |
| TabBar.Flex | components/custom-tab-bar.tsx:92-96 | A tab's flex weight is 2 exactly when it is focused, and 1 otherwise. |
| TabBar.FlexWeightsFillUnits | components/custom-tab-bar.tsx:20-96 | The tabs' flex weights sum to n + 1, the cursor's unit count, when the focused index is in range. Out of range they sum to n. |
| TabBar.Press | components/custom-tab-bar.tsx:58-68 | A press navigates, to that tab's route, if and only if the tab is not focused and no listener prevented the default. |
| TabBar.PressFocusedIsInert | components/custom-tab-bar.tsx:65-67 | Pressing the focused tab never navigates. |

## Left out

- Rendering, styles, icons and gradients. This includes the `interpolate`/`useAnimatedStyle` projections (opacity, gradient height, padding, parallax, indicator position). They are float-valued visual maps with no decision in them.
- Easing and duration of `withTiming`: a settle is modelled as its target value. A drag that starts during an animation captures the in-flight value in the app and the settled value here.
- Gesture activation thresholds (`activeOffsetX`, `failOffsetY`): these belong to the gesture runtime.
- Real time:
  - `setTimeout` and `setInterval` become the `Timeout` and `Interval` events.
  - The 1000–2000 ms delay and the 150 ms tick are not represented.
  - `Date.now`, `new Date()` and `toLocaleTimeString` become parameters: note identifiers, timestamps and the day difference.
  - The weekday and month names of the date line are left out.
- React scheduling. `Effect` is an event that may occur at any time, which covers every schedule React can produce. The single `cycle` field is faithful only in states that satisfy the invariant, and every reachable state does (`AppContext.ReachableInv`).
- Identifier generation: the string identifiers built from `Date.now()` and `Math.random()` are modelled as naturals. `ValidRun` requires them to be fresh.
- The ten seed notes: `InitialScreen` takes them as a parameter, because no property depends on their contents.
- Mounting: none of the modelled files mounts an `AppProvider` (app/_layout.tsx:14-22, app/index.tsx:267). As written, `useApp()` at components/Input.tsx:14 therefore throws (context/AppContext.tsx:149-151), and the chat page shows ChatBubble's own static list (components/ChatBubble.tsx:11, 107) rather than the context's log. The model describes the input bar and the responder as they behave under an `AppProvider`.
- The keyboard-hide blur listener, `inputRef` focus/clear calls (focus appears only as a boolean), and the `useApp` missing-provider error.
- `setActiveTab` has no caller in the modelled files. The active tab is simply part of the state.
- TabBar.Press: returns only the route name to navigate to. The route's `params` passed along with it (components/custom-tab-bar.tsx:66) and the `tabPress` event emitted on every press, the focused tab included (components/custom-tab-bar.tsx:59-63), are navigation-runtime calls outside this model; the listeners' answer appears as the `defaultPrevented` parameter.
- ChatBubble.tsx (a static list with a loading timer), Notes.tsx (a static list) and the layout files are not part of this model.
- Floating point: all arithmetic is exact.
