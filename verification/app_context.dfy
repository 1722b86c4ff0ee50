/** The application context: the notes list, the chat log and the
    simulated assistant that answers the user's last message by revealing a
    canned response one word per timer tick. Timers, the clock and
    `Math.random` are explicit events and parameters. */
module AppContext {
  import Words

  datatype Variant = User | Ai

  /** A chat bubble. Identifiers are strings built from the clock and a
      random number in the app; here they are naturals chosen by the caller. */
  datatype ChatMessage = ChatMessage(id: nat, variant: Variant, message: string)

  /** A note; the timestamp is the locale-formatted time of its creation. */
  datatype Note = Note(id: nat, timestamp: string, text: string)

  datatype ActiveTab = NotesTab | ChatTab

  /** The canned replies the assistant picks from. */
  const AiResponses: seq<string> :=
    [ "That sounds like a great plan! The 30th birthday is going to be unforgettable."
    , "I'm updating the schedule now. Everything is looking good."
    , "Don't worry about the details, we're on track."
    , "Have you thought about adding a photo booth? It's always a hit."
    , "The RSVPs are coming in. We're at 40 confirmed guests so far."
    , "I'll double-check with the caterer about dietary restrictions."
    , "Music playlist is updated with your suggestions."
    , "Lighting setup is confirmed for the evening."
    , "Just a reminder to pick up the party favors."
    , "It's going to be an amazing night!"
    , "I've noted that down. Anything else on your mind?"
    , "Great idea! Adding it to the list."
    ]

  /** Identifiers of the conversation shown at start-up. */
  const SeedIds: seq<nat> := [1, 2312, 3, 4, 5, 6, 7, 8, 9, 10, 11, 12, 13, 14, 15, 16, 17, 18, 19, 20]

  /** Texts of the conversation shown at start-up. */
  const SeedTexts: seq<string> :=
    [ "Hey, how are things looking for the party?"
    , "Things are on track! Here is what we have so far:\n\nVenue booked for Saturday\nCatering confirmed for 50 guests\nMusic playlist curated"
    , "That sounds great! What about the decorations?"
    , "I have ordered the balloons and streamers. They should arrive by Friday."
    , "Perfect. Did we invite Sarah and Mike?"
    , "Yes, invitations were sent to them yesterday. Waiting for their RSVP."
    , "Can you remind me what the theme is again?"
    , "The theme is \"Roaring Twenties\". Think Gatsby style - gold, black, and art deco."
    , "Right! I need to find a costume."
    , "I can suggest some rental places nearby if you like?"
    , "Yes please, send me a list."
    , "Here are a few top-rated ones:\n\nVintage Vogue Rentals\nCostume Castle\nRetro Fit Outfitters"
    , "Thanks! Also, are we doing a cake?"
    , "Absolutely! A three-tier deco-style cake has been ordered from Sweet Dreams Bakery."
    , "What flavor did we pick?"
    , "Chocolate ganache with raspberry filling. A classic choice."
    , "Yum. What about drinks?"
    , "We have a mixologist hired for the night. They will be serving prohibition-era cocktails like Old Fashioneds and Gin Rickeys."
    , "Sounds amazing. I am really looking forward to it."
    , "It is going to be a fantastic night! Let me know if you need anything else."
    ]

  /** The conversation shown at start-up: twenty turns alternating between
      user and assistant, user first, so the assistant speaks last. */
  const SeedChat: seq<ChatMessage> :=
    [ SeedTurn(0), SeedTurn(1), SeedTurn(2), SeedTurn(3), SeedTurn(4)
    , SeedTurn(5), SeedTurn(6), SeedTurn(7), SeedTurn(8), SeedTurn(9)
    , SeedTurn(10), SeedTurn(11), SeedTurn(12), SeedTurn(13), SeedTurn(14)
    , SeedTurn(15), SeedTurn(16), SeedTurn(17), SeedTurn(18), SeedTurn(19) ]

  function SeedTurn(k: nat): ChatMessage
    requires k < 20
  {
    ChatMessage(SeedIds[k], if k % 2 == 0 then User else Ai, SeedTexts[k])
  }

  /** A value of `Math.random()`. */
  type Random = r: real | 0.0 <= r < 1.0 witness 0.0

  /** The reply cycle the responder effect has set in motion: none, a
      delay timer waiting to fire, or an interval timer revealing `words`
      (the split `response`) into the message `aiMessageId`. */
  datatype Cycle =
    | Idle
    | Pending
    | Streaming(aiMessageId: nat, response: string, words: seq<string>,
                wordIndex: nat, currentText: string)

  datatype Conversation = Conversation(messages: seq<ChatMessage>, isAITyping: bool, cycle: Cycle)

  const InitialConversation: Conversation := Conversation(SeedChat, false, Idle)

  // ---------------------------------------------------------------------
  // Context operations

  /** `addNote`: one note with the given text is appended; earlier notes
      are untouched. */
  function AddNote(notes: seq<Note>, text: string, id: nat, timestamp: string): (r: seq<Note>)
    ensures |r| == |notes| + 1
    ensures r[..|notes|] == notes
    ensures r[|notes|].text == text && r[|notes|].id == id && r[|notes|].timestamp == timestamp
  {
    notes + [Note(id, timestamp, text)]
  }

  /** `addChatMessage`: one user message with exactly the given text is
      appended, whatever the text is; the responder state is untouched. */
  function AddChatMessage(c: Conversation, message: string, id: nat): (r: Conversation)
    ensures |r.messages| == |c.messages| + 1
    ensures r.messages[..|c.messages|] == c.messages
    ensures r.messages[|c.messages|] == ChatMessage(id, User, message)
    ensures r.isAITyping == c.isAITyping && r.cycle == c.cycle
  {
    c.(messages := c.messages + [ChatMessage(id, User, message)])
  }

  /** The guard of the responder effect. */
  predicate ShouldRespond(c: Conversation)
  {
    |c.messages| > 0 && c.messages[|c.messages| - 1].variant == User && !c.isAITyping
  }

  /** One run of the responder effect: when the log ends with a user
      message and no reply is under way, raise the typing flag and schedule
      the delayed reply; otherwise do nothing. */
  function RunEffect(c: Conversation): (r: Conversation)
    ensures r.messages == c.messages
    ensures ShouldRespond(c) ==> r.isAITyping && r.cycle == Pending
    ensures !ShouldRespond(c) ==> r == c
  {
    if ShouldRespond(c) then c.(isAITyping := true, cycle := Pending) else c
  }

  /** `Math.floor(rand * count)`: a valid index for a non-empty list. */
  function ChoiceIndex(rand: Random, count: nat): (i: nat)
    requires count > 0
    ensures i < count
    ensures i as real <= rand * count as real < (i + 1) as real
  {
    var x := rand * count as real;
    assert 0.0 <= x < count as real by {
      assert x == rand * count as real;
      assert count as real - x == (1.0 - rand) * count as real;
    }
    x.Floor
  }

  /** The delay timer firing: pick a response, append an empty assistant
      message and start revealing. Without a scheduled delay nothing fires. */
  function Fire(c: Conversation, rand: Random, id: nat): (r: Conversation)
    ensures c.cycle.Pending? ==>
              && r.messages == c.messages + [ChatMessage(id, Ai, "")]
              && r.isAITyping == c.isAITyping
              && r.cycle.Streaming?
              && r.cycle.aiMessageId == id
              && r.cycle.response == AiResponses[ChoiceIndex(rand, |AiResponses|)]
              && r.cycle.words == Words.Split(r.cycle.response)
              && r.cycle.wordIndex == 0 && r.cycle.currentText == ""
    ensures !c.cycle.Pending? ==> r == c
  {
    if c.cycle.Pending? then
      var response := AiResponses[ChoiceIndex(rand, |AiResponses|)];
      Conversation(c.messages + [ChatMessage(id, Ai, "")], c.isAITyping,
                   Streaming(id, response, Words.Split(response), 0, ""))
    else c
  }

  /** Every message carrying `id` gets `text`; all others are kept. */
  function ReplaceMessage(ms: seq<ChatMessage>, id: nat, text: string): (r: seq<ChatMessage>)
    ensures |r| == |ms|
    ensures forall i :: 0 <= i < |ms| ==> r[i].id == ms[i].id && r[i].variant == ms[i].variant
    ensures forall i :: 0 <= i < |ms| && ms[i].id != id ==> r[i] == ms[i]
    ensures forall i :: 0 <= i < |ms| && ms[i].id == id ==> r[i].message == text
  {
    seq(|ms|, i requires 0 <= i < |ms| => if ms[i].id == id then ms[i].(message := text) else ms[i])
  }

  /** The interval timer ticking: reveal the next word, or, when all words
      are shown, stop and lower the typing flag. Without a running interval
      nothing ticks. */
  function Tick(c: Conversation): (r: Conversation)
    ensures !c.cycle.Streaming? ==> r == c
    ensures c.cycle.Streaming? && c.cycle.wordIndex < |c.cycle.words| ==>
              && |r.messages| == |c.messages|
              && (forall i :: 0 <= i < |c.messages| && c.messages[i].id != c.cycle.aiMessageId ==>
                    r.messages[i] == c.messages[i])
              && r.cycle.Streaming?
              && (forall i :: 0 <= i < |c.messages| ==> r.messages[i].id == c.messages[i].id)
              && (forall i :: 0 <= i < |c.messages| && c.messages[i].id == c.cycle.aiMessageId ==>
                    r.messages[i].message == r.cycle.currentText)
              && r.isAITyping == c.isAITyping
              && r.cycle == c.cycle.(wordIndex := c.cycle.wordIndex + 1, currentText := r.cycle.currentText)
              && c.cycle.currentText <= r.cycle.currentText
    ensures c.cycle.Streaming? && c.cycle.wordIndex >= |c.cycle.words| ==>
              r.messages == c.messages && !r.isAITyping && r.cycle == Idle
  {
    match c.cycle
    case Streaming(id, response, words, k, text) =>
      if k < |words| then
        var text' := text + (if k > 0 then [Words.Space] else "") + words[k];
        Conversation(ReplaceMessage(c.messages, id, text'), c.isAITyping,
                     Streaming(id, response, words, k + 1, text'))
      else
        c.(isAITyping := false, cycle := Idle)
    case _ => c
  }

  // ---------------------------------------------------------------------
  // The responder as a state machine

  datatype Event =
    | UserMessage(text: string, id: nat)   // addChatMessage from the input bar
    | Effect                               // React re-running the responder effect
    | Timeout(rand: Random, id: nat)       // the 1-2 s delay elapsing
    | Interval                             // one 150 ms tick of the reveal timer

  function Step(c: Conversation, e: Event): Conversation
  {
    match e
    case UserMessage(text, id) => AddChatMessage(c, text, id)
    case Effect => RunEffect(c)
    case Timeout(rand, id) => Fire(c, rand, id)
    case Interval => Tick(c)
  }

  function Run(c: Conversation, es: seq<Event>): Conversation
    decreases |es|
  {
    if |es| == 0 then c else Run(Step(c, es[0]), es[1..])
  }

  function Ids(ms: seq<ChatMessage>): set<nat>
  {
    set i | 0 <= i < |ms| :: ms[i].id
  }

  /** The environment supplies identifiers not yet in the log, as the
      clock-and-random identifiers of the app do in practice. */
  predicate FreshFor(c: Conversation, e: Event)
  {
    match e
    case UserMessage(_, id) => id !in Ids(c.messages)
    case Timeout(_, id) => id !in Ids(c.messages)
    case _ => true
  }

  predicate ValidRun(c: Conversation, es: seq<Event>)
    decreases |es|
  {
    |es| == 0 || (FreshFor(c, es[0]) && ValidRun(Step(c, es[0]), es[1..]))
  }

  predicate UniqueIds(ms: seq<ChatMessage>)
  {
    forall i, j :: 0 <= i < j < |ms| ==> ms[i].id != ms[j].id
  }

  /** What holds of a reply being revealed: its words are the response
      split on spaces, the words revealed so far are a prefix of them joined
      by single spaces, and that text is exactly what its bubble shows. */
  predicate StreamingOk(ms: seq<ChatMessage>, cy: Cycle)
    requires cy.Streaming?
  {
    && cy.words == Words.Split(cy.response)
    && cy.wordIndex <= |cy.words|
    && cy.currentText == Words.Join(cy.words[..cy.wordIndex])
    && exists p :: 0 <= p < |ms| && ms[p] == ChatMessage(cy.aiMessageId, Ai, cy.currentText)
  }

  /** The responder invariant: identifiers are unique, the typing flag is
      raised exactly while a reply cycle is under way (so at most one cycle
      runs at a time), and a streaming reply is consistent. */
  predicate Inv(c: Conversation)
  {
    && UniqueIds(c.messages)
    && (c.isAITyping <==> !c.cycle.Idle?)
    && (c.cycle.Streaming? ==> StreamingOk(c.messages, c.cycle))
  }

  lemma InitialInv()
    ensures Inv(InitialConversation)
    ensures !ShouldRespond(InitialConversation)
    ensures Step(InitialConversation, Effect) == InitialConversation
  {
    assert forall i :: 0 <= i < 20 ==> SeedIds[i] == if i == 1 then 2312 else i + 1;
    assert SeedChat[19].variant == Ai;
  }

  lemma AppendKeepsUnique(ms: seq<ChatMessage>, m: ChatMessage)
    requires UniqueIds(ms)
    requires m.id !in Ids(ms)
    ensures UniqueIds(ms + [m])
  {
    forall i, j | 0 <= i < j < |ms| + 1
      ensures (ms + [m])[i].id != (ms + [m])[j].id
    {
      if j == |ms| {
        assert ms[i].id in Ids(ms);
      }
    }
  }

  lemma UserMessageKeepsInv(c: Conversation, text: string, id: nat)
    requires Inv(c)
    requires id !in Ids(c.messages)
    ensures Inv(AddChatMessage(c, text, id))
  {
    var r := AddChatMessage(c, text, id);
    AppendKeepsUnique(c.messages, ChatMessage(id, User, text));
    if c.cycle.Streaming? {
      var p :| 0 <= p < |c.messages| && c.messages[p] == ChatMessage(c.cycle.aiMessageId, Ai, c.cycle.currentText);
      assert r.messages[p] == c.messages[p];
    }
  }

  lemma FireKeepsInv(c: Conversation, rand: Random, id: nat)
    requires Inv(c)
    requires id !in Ids(c.messages)
    ensures Inv(Fire(c, rand, id))
  {
    if c.cycle.Pending? {
      var r := Fire(c, rand, id);
      AppendKeepsUnique(c.messages, ChatMessage(id, Ai, ""));
      assert r.cycle.words[..0] == [];
      assert r.messages[|c.messages|] == ChatMessage(id, Ai, "");
    }
  }

  lemma TickKeepsUnique(c: Conversation)
    requires UniqueIds(c.messages)
    ensures UniqueIds(Tick(c).messages)
  {
    if c.cycle.Streaming? && c.cycle.wordIndex < |c.cycle.words| {
      var r := Tick(c);
      forall i, j | 0 <= i < j < |r.messages|
        ensures r.messages[i].id != r.messages[j].id
      {
        assert c.messages[i].id != c.messages[j].id;
      }
    }
  }

  lemma TickKeepsInv(c: Conversation)
    requires Inv(c)
    ensures Inv(Tick(c))
  {
    TickKeepsUnique(c);
    if c.cycle.Streaming? && c.cycle.wordIndex < |c.cycle.words| {
      var r := Tick(c);
      var cy := c.cycle;
      var p :| 0 <= p < |c.messages| && c.messages[p] == ChatMessage(cy.aiMessageId, Ai, cy.currentText);
      Words.JoinPrefixStep(cy.words, cy.wordIndex);
      assert r.messages[p] == ChatMessage(cy.aiMessageId, Ai, r.cycle.currentText);
      assert StreamingOk(r.messages, r.cycle);
    }
  }

  lemma StepKeepsInv(c: Conversation, e: Event)
    requires Inv(c)
    requires FreshFor(c, e)
    ensures Inv(Step(c, e))
  {
    match e
    case UserMessage(text, id) => UserMessageKeepsInv(c, text, id);
    case Effect =>
    case Timeout(rand, id) => FireKeepsInv(c, rand, id);
    case Interval => TickKeepsInv(c);
  }

  /** Every state reachable from start-up by any interleaving of user
      messages, effect runs and timer events keeps the invariant. */
  lemma {:induction false} RunKeepsInv(c: Conversation, es: seq<Event>)
    requires Inv(c)
    requires ValidRun(c, es)
    ensures Inv(Run(c, es))
    decreases |es|
  {
    if |es| > 0 {
      StepKeepsInv(c, es[0]);
      RunKeepsInv(Step(c, es[0]), es[1..]);
    }
  }

  lemma ReachableInv(es: seq<Event>)
    requires ValidRun(InitialConversation, es)
    ensures Inv(Run(InitialConversation, es))
  {
    InitialInv();
    RunKeepsInv(InitialConversation, es);
  }

  /** The message a state may still rewrite: the bubble of the reply being
      revealed, if any. Every other message is final. */
  predicate Streams(c: Conversation, m: ChatMessage)
  {
    c.cycle.Streaming? && m.id == c.cycle.aiMessageId
  }

  /** One event only appends to the log or rewrites the bubble being
      streamed, and a reply it starts streams into a new bubble. */
  lemma StepAppendOnly(c: Conversation, e: Event)
    requires FreshFor(c, e)
    ensures var r := Step(c, e);
            && |r.messages| >= |c.messages|
            && (forall i :: 0 <= i < |c.messages| ==>
                  r.messages[i].id == c.messages[i].id && r.messages[i].variant == c.messages[i].variant)
            && (forall i :: 0 <= i < |c.messages| && !Streams(c, c.messages[i]) ==> r.messages[i] == c.messages[i])
            && (r.cycle.Streaming? ==>
                  (c.cycle.Streaming? && r.cycle.aiMessageId == c.cycle.aiMessageId)
                  || r.cycle.aiMessageId !in Ids(c.messages))
  {
  }

  /** Over any valid run the log is append-only: it never shrinks, every
      earlier message keeps its identifier and sender, and every earlier
      message other than the bubble being streamed at the start keeps its
      text as well. */
  lemma {:induction false} RunAppendOnly(c: Conversation, es: seq<Event>)
    requires ValidRun(c, es)
    ensures var r := Run(c, es);
            && |r.messages| >= |c.messages|
            && (forall i :: 0 <= i < |c.messages| ==>
                  r.messages[i].id == c.messages[i].id && r.messages[i].variant == c.messages[i].variant)
            && (forall i :: 0 <= i < |c.messages| && !Streams(c, c.messages[i]) ==> r.messages[i] == c.messages[i])
    decreases |es|
  {
    if |es| > 0 {
      var c1 := Step(c, es[0]);
      StepAppendOnly(c, es[0]);
      RunAppendOnly(c1, es[1..]);
      var r := Run(c, es);
      forall i | 0 <= i < |c.messages| && !Streams(c, c.messages[i])
        ensures r.messages[i] == c.messages[i]
      {
        assert c1.messages[i] == c.messages[i];
        assert !Streams(c1, c1.messages[i]) by {
          assert c.messages[i].id in Ids(c.messages);
        }
      }
    }
  }

  /** Once the responder is idle, every message in the log is final: no
      later user message, effect run or reply changes it. */
  lemma FinishedLogPersists(c: Conversation, es: seq<Event>, p: nat)
    requires ValidRun(c, es)
    requires c.cycle.Idle?
    requires p < |c.messages|
    ensures var ms := Run(c, es).messages; p < |ms| && ms[p] == c.messages[p]
  {
    RunAppendOnly(c, es);
  }

  /** A reply being revealed is always one of the canned responses. */
  predicate CannedReply(c: Conversation)
  {
    c.cycle.Streaming? ==> c.cycle.response in AiResponses
  }

  lemma StepKeepsCannedReply(c: Conversation, e: Event)
    requires CannedReply(c)
    ensures CannedReply(Step(c, e))
  {
  }

  lemma {:induction false} RunKeepsCannedReply(c: Conversation, es: seq<Event>)
    requires CannedReply(c)
    ensures CannedReply(Run(c, es))
    decreases |es|
  {
    if |es| > 0 {
      StepKeepsCannedReply(c, es[0]);
      RunKeepsCannedReply(Step(c, es[0]), es[1..]);
    }
  }

  /** In every reachable state, a reply whose words are all revealed shows
      its response verbatim in its bubble, and that response is one of the
      canned ones. */
  lemma ReachableStreamShowsResponse(es: seq<Event>)
    requires ValidRun(InitialConversation, es)
    ensures var c := Run(InitialConversation, es);
            c.cycle.Streaming? && c.cycle.wordIndex == |c.cycle.words| ==>
              && c.cycle.response in AiResponses
              && exists p :: 0 <= p < |c.messages| &&
                   c.messages[p] == ChatMessage(c.cycle.aiMessageId, Ai, c.cycle.response)
  {
    ReachableInv(es);
    RunKeepsCannedReply(InitialConversation, es);
    var c := Run(InitialConversation, es);
    if c.cycle.Streaming? && c.cycle.wordIndex == |c.cycle.words| {
      assert c.cycle.words[..c.cycle.wordIndex] == c.cycle.words;
      Words.JoinSplit(c.cycle.response);
    }
  }

  /** A message sent while a reply is under way is logged but starts no
      second cycle: neither it nor an effect run touches the cycle. */
  lemma NoOverlappingCycles(c: Conversation, text: string, id: nat)
    requires Inv(c)
    requires c.isAITyping
    ensures Step(c, UserMessage(text, id)).cycle == c.cycle
    ensures Step(Step(c, UserMessage(text, id)), Effect) == Step(c, UserMessage(text, id))
  {
  }

  /** The effect starts a cycle exactly when the log ends with a user
      message and no cycle is under way. */
  lemma EffectStartsIff(c: Conversation)
    requires Inv(c)
    ensures Step(c, Effect).cycle == Pending && c.cycle.Idle? <==> ShouldRespond(c)
  {
  }

  function Intervals(k: nat): (es: seq<Event>)
    ensures |es| == k
    ensures forall i :: 0 <= i < k ==> es[i] == Interval
  {
    seq(k, _ => Interval)
  }

  /** Ticks never need fresh identifiers. */
  lemma {:induction false} IntervalsValid(c: Conversation, k: nat)
    ensures ValidRun(c, Intervals(k))
    decreases k
  {
    if k > 0 {
      assert Intervals(k)[1..] == Intervals(k - 1);
      IntervalsValid(Tick(c), k - 1);
    }
  }

  /** `k` ticks of a reply whose bubble text is its first words joined by
      single spaces reveal exactly `k` more words the same way, keep the
      typing flag up and change no other message. */
  lemma {:induction false} IntervalsReveal(c: Conversation, k: nat)
    requires c.isAITyping && c.cycle.Streaming?
    requires c.cycle.wordIndex + k <= |c.cycle.words|
    requires c.cycle.currentText == Words.Join(c.cycle.words[..c.cycle.wordIndex])
    ensures var r := Run(c, Intervals(k));
            && r.isAITyping
            && r.cycle == c.cycle.(wordIndex := c.cycle.wordIndex + k,
                                   currentText := Words.Join(c.cycle.words[..c.cycle.wordIndex + k]))
            && |r.messages| == |c.messages|
            && (forall i :: 0 <= i < |c.messages| ==> r.messages[i].id == c.messages[i].id)
            && forall i :: 0 <= i < |c.messages| && c.messages[i].id != c.cycle.aiMessageId ==>
                 r.messages[i] == c.messages[i]
    decreases k
  {
    var cy := c.cycle;
    if k == 0 {
      assert Run(c, Intervals(0)) == c;
    } else {
      var c1 := Tick(c);
      assert Intervals(k)[0] == Interval;
      assert Intervals(k)[1..] == Intervals(k - 1);
      assert Run(c, Intervals(k)) == Run(c1, Intervals(k - 1));
      Words.JoinPrefixStep(cy.words, cy.wordIndex);
      assert c1.cycle == cy.(wordIndex := cy.wordIndex + 1, currentText := Words.Join(cy.words[..cy.wordIndex + 1]));
      IntervalsReveal(c1, k - 1);
      var r := Run(c1, Intervals(k - 1));
      forall j | 0 <= j < |c.messages|
        ensures r.messages[j].id == c.messages[j].id
        ensures c.messages[j].id != cy.aiMessageId ==> r.messages[j] == c.messages[j]
      {
        assert c1.messages[j].id == c.messages[j].id;
      }
    }
  }

  /** Revealing a reply from its first word to its last leaves its bubble
      holding the response verbatim and every other message as it was. */
  lemma RevealAll(c: Conversation)
    requires Inv(c)
    requires c.cycle.Streaming? && c.cycle.wordIndex == 0
    ensures var r := Run(c, Intervals(|c.cycle.words|));
            && Inv(r)
            && r.isAITyping
            && |r.messages| == |c.messages|
            && (forall i :: 0 <= i < |c.messages| && c.messages[i].id != c.cycle.aiMessageId ==>
                  r.messages[i] == c.messages[i])
            && (forall i :: 0 <= i < |c.messages| && c.messages[i].id == c.cycle.aiMessageId ==>
                  r.messages[i] == ChatMessage(c.cycle.aiMessageId, Ai, c.cycle.response))
            && r.cycle.Streaming? && r.cycle.wordIndex == |r.cycle.words|
  {
    var cy := c.cycle;
    var n := |cy.words|;
    var r := Run(c, Intervals(n));
    IntervalsReveal(c, n);
    IntervalsValid(c, n);
    RunKeepsInv(c, Intervals(n));
    assert cy.words[..n] == cy.words;
    Words.JoinSplit(cy.response);
    var p :| 0 <= p < |r.messages| && r.messages[p] == ChatMessage(cy.aiMessageId, Ai, cy.response);
    forall i | 0 <= i < |c.messages| && c.messages[i].id == cy.aiMessageId
      ensures r.messages[i] == ChatMessage(cy.aiMessageId, Ai, cy.response)
    {
      assert r.messages[i].id == r.messages[p].id;
    }
  }

  /** The whole reply cycle once the delay fires: after one tick per word
      the new assistant bubble, appended after the existing log, holds the
      chosen canned response verbatim, and one more tick lowers the typing
      flag without touching the log. */
  lemma ReplyStreamsResponse(c: Conversation, rand: Random, id: nat)
    requires Inv(c)
    requires c.cycle.Pending?
    requires id !in Ids(c.messages)
    ensures var c1 := Step(c, Timeout(rand, id));
            var r := Run(c, [Timeout(rand, id)] + Intervals(|c1.cycle.words|));
            && c1.cycle.Streaming?
            && c1.cycle.response in AiResponses
            && r.messages == c.messages + [ChatMessage(id, Ai, c1.cycle.response)]
            && r.isAITyping
            && Step(r, Interval).messages == r.messages
            && !Step(r, Interval).isAITyping
            && Step(r, Interval).cycle.Idle?
  {
    var c1 := Fire(c, rand, id);
    FireKeepsInv(c, rand, id);
    var es := [Timeout(rand, id)] + Intervals(|c1.cycle.words|);
    assert es[1..] == Intervals(|c1.cycle.words|);
    var r := Run(c1, Intervals(|c1.cycle.words|));
    RevealAll(c1);
    forall i | 0 <= i < |c.messages|
      ensures r.messages[i] == c.messages[i]
    {
      assert c.messages[i].id in Ids(c.messages);
      assert c1.messages[i] == c.messages[i];
    }
    assert r.messages == c.messages + [ChatMessage(id, Ai, c1.cycle.response)];
  }
}
