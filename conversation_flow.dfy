/** The dialog engine of src/hooks/useConversationFlow.ts. The hook keeps a `ChatState` record
    that every handler replaces, plus the pending confirmation question. React's deferred work is
    made explicit: the 500 ms reply to an utterance is a `Reaction` that `HandleTextInput` returns
    and `ApplyReaction` performs later, the node-entry effect is `RunNodeEffect`, and the 2 s
    auto-advance is a `Timer` that `FireAutoAdvance` performs. */
module ConversationFlow {
  import opened Wrappers
  import opened Strings
  import opened Types
  import opened Ranking
  import opened KeywordMatcher
  import InputField

  /** An amount above this sends the customer to staff. */
  const AmountLimit: nat := 200000
  const StaffNode := "staff_assistance_amount"
  const EndNode := "end"
  const TransactionTypeNode := "transaction_type"

  /** The question waiting for a yes or no: the choice the matcher was unsure about, with the
      confidence and keywords of that match. */
  datatype Pending = Pending(choice: Choice, confidence: real, matchedKeywords: seq<string>)

  /** The scheduled reply to an utterance: the response tier and the at most three best matches
      it lists. Both depend only on the utterance and the choices of the node it was heard on. */
  datatype Reaction = Reaction(response: Response, topMatches: seq<MatchResult>)

  /** A pending auto-advance from the message node `scheduledFor` to `target`. */
  datatype Timer = Timer(scheduledFor: string, target: string)

  function UserSays(text: string): ChatMessage {
    ChatMessage(User, text, None)
  }

  function BotSays(text: string): ChatMessage {
    ChatMessage(Bot, text, None)
  }

  function InitialState(language: Language): ChatState {
    ChatState("start", language, [], map[], false)
  }

  // ---------------------------------------------------------------------------------------------
  // Texts the engine says
  // ---------------------------------------------------------------------------------------------

  /** The engine's fixed texts in one language. */
  datatype Phrases = Phrases(
    confirmBefore: string, confirmAfter: string,
    choicesBefore: string, choicesAfter: string,
    notUnderstood: string, apology: string, yes: string, no: string)

  /** The texts of src/hooks/useConversationFlow.ts, lines 126-159, 210 and 238-242. */
  function PhrasesFor(language: Language): Phrases {
    if language == Ja then JaPhrases else EnPhrases
  }

  const JaPhrases := Phrases("「", "」についてのご質問でしょうか？",
    "以下のいずれかでしょうか？\n\n", "\n\n該当するものをお選びください。",
    "すみません、よく聞き取れませんでした。選択肢からお選びいただくか、もう一度お聞かせください。",
    "失礼いたしました。改めてご用件をお聞かせください。", "はい", "いいえ")

  const EnPhrases := Phrases("Are you asking about \"", "\"?",
    "Did you mean one of these?\n\n", "\n\nPlease select the appropriate option.",
    "Sorry, I didn't understand. Please select from the options or try again.",
    "I apologize. Please let me know how I can help you.", "Yes", "No")

  function ConfirmQuestion(p: Phrases, text: string): string {
    p.confirmBefore + text + p.confirmAfter
  }

  /** One `・<text>` line per match, joined by line breaks. */
  function ChoiceLines(matches: seq<MatchResult>): string {
    if matches == [] then ""
    else if |matches| == 1 then "・" + matches[0].choice.text
    else "・" + matches[0].choice.text + "\n" + ChoiceLines(matches[1..])
  }

  function ChoicesPrompt(p: Phrases, matches: seq<MatchResult>): string {
    p.choicesBefore + ChoiceLines(matches) + p.choicesAfter
  }

  function YesNo(p: Phrases, isConfirmed: bool): string {
    if isConfirmed then p.yes else p.no
  }

  // ---------------------------------------------------------------------------------------------
  // The state updates, as functions of the previous state
  // ---------------------------------------------------------------------------------------------

  function Said(s: ChatState, m: ChatMessage): ChatState {
    s.(history := s.history + [m])
  }

  /** `handleChoiceSelect`: the choice's text as the customer's message, and its target. */
  function ChoiceSelected(s: ChatState, choice: Choice): ChatState {
    s.(history := s.history + [UserSays(choice.text)], currentNode := choice.next)
  }

  /** The three best matches, or all of them when there are fewer. */
  function Top3(matches: seq<MatchResult>): (r: seq<MatchResult>)
    ensures |r| == if |matches| < 3 then |matches| else 3
    ensures r == matches[..|r|]
  {
    if |matches| <= 3 then matches else matches[..3]
  }

  /** What the engine will answer to `text` heard on a node with these choices. */
  function ReactionTo(text: string, choices: seq<Choice>): (r: Reaction)
    ensures |r.topMatches| <= 3
    ensures r.response.Fallback? <==> r.topMatches == []
  {
    Reaction(DetermineResponse(GetBestMatch(DefaultConfig, text, choices), DefaultConfig),
             Top3(BestMatches(DefaultConfig, text, choices)))
  }

  /** The chat state after the scheduled reply. */
  function Reacted(s: ChatState, p: Phrases, reaction: Reaction): ChatState {
    match reaction.response
    case Direct(choice, _) => ChoiceSelected(s, choice)
    case AskConfirmation(choice, _, _) => Said(s, BotSays(ConfirmQuestion(p, choice.text)))
    case OfferChoices(_, _) =>
      if |reaction.topMatches| > 0 then Said(s, BotSays(ChoicesPrompt(p, reaction.topMatches)))
      else Said(s, BotSays(p.notUnderstood))
    case Fallback => Said(s, BotSays(p.notUnderstood))
  }

  /** The pending confirmation after the scheduled reply: only a confirmation question sets it. */
  function PendingAfter(pending: Option<Pending>, reaction: Reaction): Option<Pending> {
    match reaction.response
    case AskConfirmation(choice, confidence, matchedKeywords) => Some(Pending(choice, confidence, matchedKeywords))
    case _ => pending
  }

  /** `handleConfirmationResponse` on the chat state. */
  function Responded(s: ChatState, p: Phrases, pending: Option<Pending>, isConfirmed: bool): ChatState {
    match pending
    case None => s
    case Some(q) => if isConfirmed then ChoiceSelected(s, q.choice) else Said(s, BotSays(p.apology))
  }

  /** A node asks for an amount when its field name contains `Amount` or its id contains
      `amount` (both case-sensitive). */
  predicate IsAmountNode(node: ChatNode) {
    (node.field.Some? && Contains(node.field.value, "Amount")) || Contains(node.id, "amount")
  }

  /** The digits of the value read as a number above the limit; a value without digits is
      never over it. */
  predicate OverLimit(value: string) {
    ParseDigits(value).Some? && ParseDigits(value).value > AmountLimit
  }

  /** Where an answer is stored: the node's field name when it is non-empty, else its id. */
  function InputKey(node: ChatNode): string {
    OrElse(node.field, node.id)
  }

  /** `handleInputSubmit` on an input node. */
  function InputSubmitted(s: ChatState, node: ChatNode, value: string): ChatState {
    if IsAmountNode(node) && OverLimit(value) then
      s.(history := s.history + [UserSays(value)], currentNode := StaffNode)
    else
      s.(history := s.history + [UserSays(value)],
         userInputs := s.userInputs[InputKey(node) := value],
         currentNode := OrElse(node.next, EndNode))
  }

  /** `handleConfirmationSubmit` on a confirmation node. */
  function ConfirmationSubmitted(s: ChatState, p: Phrases, node: ChatNode, isConfirmed: bool): ChatState {
    s.(history := s.history + [UserSays(YesNo(p, isConfirmed))],
       currentNode := if isConfirmed then OrElse(node.next, EndNode) else TransactionTypeNode)
  }

  /** The last message already announces this node: same text, or tagged with its id. */
  predicate IsDuplicate(history: seq<ChatMessage>, node: ChatNode) {
    |history| > 0
    && (history[|history| - 1].content == node.content || history[|history| - 1].nodeId == Some(node.id))
  }

  /** The message part of the node-entry effect: a message or choice node announces its content,
      tagged with its id, unless the last message already does. */
  function Entered(s: ChatState, node: ChatNode): ChatState {
    if (node.kind == Message || node.kind == ChoiceNode) && !IsDuplicate(s.history, node) then
      Said(s, ChatMessage(Bot, node.content, Some(node.id)))
    else s
  }

  /** The timer part of the node-entry effect, for the node stored under `key`. */
  function AutoAdvanceFor(key: string, node: ChatNode): Option<Timer> {
    if node.kind == Message && Truthy(node.next) then Some(Timer(key, node.next.value)) else None
  }

  /** A timer acts only while the dialog is still on the node that scheduled it. The source's
      callback does not look; the effect's cleanup clears the timer when the node changes, and
      this check stands for that cleanup when a timer fires before the effect re-ran. */
  function Advanced(s: ChatState, t: Timer): ChatState {
    if s.currentNode == t.scheduledFor then s.(currentNode := t.target) else s
  }

  // ---------------------------------------------------------------------------------------------
  // The engine
  // ---------------------------------------------------------------------------------------------

  class Engine {
    /** The nodes of the selected language; a lookup may fail. */
    const catalog: map<string, ChatNode>
    const language: Language
    /** The texts for `language`. */
    const phrases: Phrases
    var chatState: ChatState
    var pendingConfirmation: Option<Pending>
    var autoAdvance: Option<Timer>
    /** The node key the entry effect last ran for: React re-runs it only when the key changes. */
    var effectRanFor: Option<string>

    constructor(catalog: map<string, ChatNode>, language: Language)
      ensures this.catalog == catalog && this.language == language && phrases == PhrasesFor(language)
      ensures chatState == InitialState(language)
      ensures pendingConfirmation == None && autoAdvance == None && effectRanFor == None
    {
      this.catalog := catalog;
      this.language := language;
      phrases := PhrasesFor(language);
      chatState := InitialState(language);
      pendingConfirmation := None;
      autoAdvance := None;
      effectRanFor := None;
    }

    function CurrentNode(): Option<ChatNode>
      reads this
    {
      if chatState.currentNode in catalog then Some(catalog[chatState.currentNode]) else None
    }

    /** The current node's choices, or none when there is no current node. */
    function CurrentChoices(): seq<Choice>
      reads this
    {
      if CurrentNode().Some? then CurrentNode().value.choices else []
    }

    method AddBotMessage(content: string)
      modifies this
      ensures chatState == Said(old(chatState), BotSays(content))
      ensures pendingConfirmation == old(pendingConfirmation)
      ensures autoAdvance == old(autoAdvance) && effectRanFor == old(effectRanFor)
    {
      chatState := Said(chatState, BotSays(content));
    }

    method HandleChoiceSelect(choice: Choice)
      modifies this
      ensures chatState == ChoiceSelected(old(chatState), choice)
      ensures pendingConfirmation == old(pendingConfirmation)
      ensures autoAdvance == old(autoAdvance) && effectRanFor == old(effectRanFor)
    {
      chatState := ChoiceSelected(chatState, choice);
    }

    /** `handleTextInput`: nothing on a node without choices; otherwise the utterance is recorded
        at once and the reply is computed now and performed later. */
    method HandleTextInput(text: string) returns (reaction: Option<Reaction>)
      modifies this
      ensures old(CurrentChoices()) == [] ==> reaction == None && chatState == old(chatState)
      ensures old(CurrentChoices()) != [] ==>
        chatState == Said(old(chatState), UserSays(text))
        && reaction == Some(ReactionTo(text, old(CurrentChoices())))
      ensures pendingConfirmation == old(pendingConfirmation)
      ensures autoAdvance == old(autoAdvance) && effectRanFor == old(effectRanFor)
    {
      var choices := CurrentChoices();
      if choices == [] {
        return None;
      }
      chatState := Said(chatState, UserSays(text));
      var matches := FindBestMatches(DefaultConfig, text, choices);
      var best := if |matches| > 0 then Some(matches[0]) else None;
      reaction := Some(Reaction(DetermineResponse(best, DefaultConfig), Top3(matches)));
    }

    /** The 500 ms reply: a direct hit selects the choice, a medium one asks about it, a weak
        one lists the best matches, and nothing asks again. */
    method ApplyReaction(reaction: Reaction)
      modifies this
      ensures chatState == Reacted(old(chatState), phrases, reaction)
      ensures pendingConfirmation == PendingAfter(old(pendingConfirmation), reaction)
      ensures autoAdvance == old(autoAdvance) && effectRanFor == old(effectRanFor)
    {
      match reaction.response
      case Direct(choice, _) =>
        HandleChoiceSelect(choice);
      case AskConfirmation(choice, confidence, matchedKeywords) =>
        pendingConfirmation := Some(Pending(choice, confidence, matchedKeywords));
        AddBotMessage(ConfirmQuestion(phrases, choice.text));
      case OfferChoices(_, _) =>
        if |reaction.topMatches| > 0 {
          AddBotMessage(ChoicesPrompt(phrases, reaction.topMatches));
        } else {
          AddBotMessage(phrases.notUnderstood);
        }
      case Fallback =>
        AddBotMessage(phrases.notUnderstood);
    }

    /** `handleInputSubmit`: acts only on an `input` node. */
    method HandleInputSubmit(value: string)
      modifies this
      ensures old(CurrentNode()).Some? && old(CurrentNode()).value.kind == Input ==>
        chatState == InputSubmitted(old(chatState), old(CurrentNode()).value, value)
      ensures !(old(CurrentNode()).Some? && old(CurrentNode()).value.kind == Input) ==>
        chatState == old(chatState)
      ensures pendingConfirmation == old(pendingConfirmation)
      ensures autoAdvance == old(autoAdvance) && effectRanFor == old(effectRanFor)
    {
      var node := CurrentNode();
      if node.None? || node.value.kind != Input {
        return;
      }
      chatState := InputSubmitted(chatState, node.value, value);
    }

    /** `handleConfirmationSubmit`: acts only on a `confirmation` node. */
    method HandleConfirmationSubmit(isConfirmed: bool)
      modifies this
      ensures old(CurrentNode()).Some? && old(CurrentNode()).value.kind == Confirmation ==>
        chatState == ConfirmationSubmitted(old(chatState), phrases, old(CurrentNode()).value, isConfirmed)
      ensures !(old(CurrentNode()).Some? && old(CurrentNode()).value.kind == Confirmation) ==>
        chatState == old(chatState)
      ensures pendingConfirmation == old(pendingConfirmation)
      ensures autoAdvance == old(autoAdvance) && effectRanFor == old(effectRanFor)
    {
      var node := CurrentNode();
      if node.None? || node.value.kind != Confirmation {
        return;
      }
      chatState := ConfirmationSubmitted(chatState, phrases, node.value, isConfirmed);
    }

    /** `handleConfirmationResponse`: answers the pending question, then forgets it. */
    method HandleConfirmationResponse(isConfirmed: bool)
      modifies this
      ensures chatState == Responded(old(chatState), phrases, old(pendingConfirmation), isConfirmed)
      ensures old(pendingConfirmation).Some? ==> pendingConfirmation == None
      ensures old(pendingConfirmation).None? ==> pendingConfirmation == None
      ensures autoAdvance == old(autoAdvance) && effectRanFor == old(effectRanFor)
    {
      if pendingConfirmation.None? {
        return;
      }
      if isConfirmed {
        HandleChoiceSelect(pendingConfirmation.value.choice);
      } else {
        AddBotMessage(phrases.apology);
      }
      pendingConfirmation := None;
    }

    /** `resetConversation`: a fresh chat state; the pending question is kept. */
    method ResetConversation()
      modifies this
      ensures chatState == InitialState(language)
      ensures pendingConfirmation == old(pendingConfirmation)
      ensures autoAdvance == old(autoAdvance) && effectRanFor == old(effectRanFor)
    {
      chatState := InitialState(language);
    }

    /** The node-entry effect. It runs only when the node key differs from the one it last ran
        for; a new run first cancels the previous run's timer. */
    method RunNodeEffect()
      modifies this
      ensures old(effectRanFor) == Some(old(chatState).currentNode) ==>
        chatState == old(chatState) && autoAdvance == old(autoAdvance) && effectRanFor == old(effectRanFor)
      ensures old(effectRanFor) != Some(old(chatState).currentNode) ==>
        effectRanFor == Some(old(chatState).currentNode)
        && (old(CurrentNode()).None? ==> chatState == old(chatState) && autoAdvance == None)
        && (old(CurrentNode()).Some? ==>
              chatState == Entered(old(chatState), old(CurrentNode()).value)
              && autoAdvance == AutoAdvanceFor(old(chatState).currentNode, old(CurrentNode()).value))
      ensures pendingConfirmation == old(pendingConfirmation)
    {
      var key := chatState.currentNode;
      if effectRanFor == Some(key) {
        return;
      }
      effectRanFor := Some(key);
      autoAdvance := None;
      var node := CurrentNode();
      if node.Some? {
        chatState := Entered(chatState, node.value);
        autoAdvance := AutoAdvanceFor(key, node.value);
      }
    }

    /** The 2 s timer going off. */
    method FireAutoAdvance()
      modifies this
      ensures old(autoAdvance).Some? ==> chatState == Advanced(old(chatState), old(autoAdvance).value)
      ensures old(autoAdvance).None? ==> chatState == old(chatState)
      ensures autoAdvance == None
      ensures pendingConfirmation == old(pendingConfirmation) && effectRanFor == old(effectRanFor)
    {
      if autoAdvance.Some? {
        chatState := Advanced(chatState, autoAdvance.value);
        autoAdvance := None;
      }
    }
  }

  // ---------------------------------------------------------------------------------------------
  // Properties
  // ---------------------------------------------------------------------------------------------

  /** The matcher only ever proposes one of the choices it was given. */
  lemma BestMatchIsAChoice(text: string, choices: seq<Choice>)
    ensures GetBestMatch(DefaultConfig, text, choices).Some? ==>
      GetBestMatch(DefaultConfig, text, choices).value.choice in choices
  {
    BestMatchIsFirstMaximal(DefaultConfig, text, choices);
    if GetBestMatch(DefaultConfig, text, choices).Some? {
      var k :| IsFirstMaximal(Results(DefaultConfig, text, choices), Conf, k)
        && GetBestMatch(DefaultConfig, text, choices).value == Results(DefaultConfig, text, choices)[k];
      ScoreKeepsChoice(DefaultConfig, text, choices[k]);
    }
  }

  lemma ScoreKeepsChoice(cfg: MatchingConfig, input: string, choice: Choice)
    ensures Score(cfg, input, choice).choice == choice
  {
  }

  /** An utterance on a node with choices records the utterance and then one reply. Only a direct
      hit moves the dialog, and then to the target of one of the node's choices; every other tier
      keeps the node and adds exactly one bot message. Answers are never touched. */
  lemma TextInputOutcome(s: ChatState, p: Phrases, choices: seq<Choice>, text: string)
    ensures var reaction := ReactionTo(text, choices);
      var r := Reacted(Said(s, UserSays(text)), p, reaction);
      r.userInputs == s.userInputs
      && |r.history| == |s.history| + 2
      && r.history[..|s.history| + 1] == s.history + [UserSays(text)]
      && (reaction.response.Direct? ==>
            reaction.response.choice in choices && r.currentNode == reaction.response.choice.next)
      && (!reaction.response.Direct? ==> r.currentNode == s.currentNode && r.history[|s.history| + 1].role == Bot)
  {
    var reaction := ReactionTo(text, choices);
    DirectIsAChoice(text, choices);
    ReplyOutcome(Said(s, UserSays(text)), p, reaction);
    assert Said(s, UserSays(text)).history == s.history + [UserSays(text)];
  }

  /** A direct transition always goes to one of the choices the utterance was matched against. */
  lemma DirectIsAChoice(text: string, choices: seq<Choice>)
    ensures ReactionTo(text, choices).response.Direct? ==> ReactionTo(text, choices).response.choice in choices
  {
    BestMatchIsAChoice(text, choices);
  }

  /** Any reply adds one message; only a direct one moves the dialog, to its choice's target. */
  lemma ReplyOutcome(s: ChatState, p: Phrases, reaction: Reaction)
    ensures var r := Reacted(s, p, reaction);
      r.userInputs == s.userInputs
      && |r.history| == |s.history| + 1
      && r.history[..|s.history|] == s.history
      && (reaction.response.Direct? ==> r.currentNode == reaction.response.choice.next)
      && (!reaction.response.Direct? ==> r.currentNode == s.currentNode && r.history[|s.history|].role == Bot)
  {
  }

  /** Listing the best matches never comes with an empty list: a weak best match means there is
      at least one positive match, and at most three are listed, best first. */
  lemma OfferedChoicesListed(text: string, choices: seq<Choice>)
    ensures var reaction := ReactionTo(text, choices);
      reaction.response.OfferChoices? ==>
        1 <= |reaction.topMatches| <= 3
        && reaction.topMatches[0] == GetBestMatch(DefaultConfig, text, choices).value
        && reaction.topMatches == BestMatches(DefaultConfig, text, choices)[..|reaction.topMatches|]
  {
  }

  /** A confirmation question, answered yes, selects the choice it asked about; answered no, it
      keeps the node and apologises. */
  lemma ConfirmationRoundTrip(s: ChatState, p: Phrases, pending: Option<Pending>, reaction: Reaction, isConfirmed: bool)
    requires reaction.response.AskConfirmation?
    ensures var asked := Reacted(s, p, reaction);
      var r := Responded(asked, p, PendingAfter(pending, reaction), isConfirmed);
      asked.currentNode == s.currentNode
      && (isConfirmed ==> r.currentNode == reaction.response.choice.next
                          && r.history[|r.history| - 1] == UserSays(reaction.response.choice.text))
      && (!isConfirmed ==> r.currentNode == s.currentNode
                           && r.history[|r.history| - 1] == BotSays(p.apology))
      && r.userInputs == s.userInputs
  {
  }

  /** A value the answer box accepts, submitted on the input node it was shown for, is either
      stored under the node's key with the dialog moving on, or leaves the answers alone and
      sends the customer to staff; the latter exactly for an amount node over the limit. An
      amount box always delivers a number. */
  lemma AcceptedInputStoredOrEscalated(s: ChatState, language: Language, node: ChatNode, value: string)
    requires InputField.Validate(InputKey(node), language, value).Ok?
    ensures var r := InputSubmitted(s, node, value);
      r.history == s.history + [UserSays(value)]
      && (IsAmountNode(node) && OverLimit(value) ==> r.currentNode == StaffNode && r.userInputs == s.userInputs)
      && (!(IsAmountNode(node) && OverLimit(value)) ==>
            InputKey(node) in r.userInputs && r.userInputs[InputKey(node)] == value
            && r.currentNode == OrElse(node.next, EndNode)
            && forall k :: k in s.userInputs && k != InputKey(node) ==> k in r.userInputs && r.userInputs[k] == s.userInputs[k])
    ensures InputField.IsAmountName(InputKey(node)) ==> ParseDigits(value).Some? && ParseDigits(value).value > 0
  {
    var r := InputSubmitted(s, node, value);
    if IsAmountNode(node) && OverLimit(value) {
      assert r == s.(history := s.history + [UserSays(value)], currentNode := StaffNode);
    } else {
      var key := InputKey(node);
      assert r.userInputs == s.userInputs[key := value];
      assert r.currentNode == OrElse(node.next, EndNode);
      forall k | k in s.userInputs && k != key
        ensures k in r.userInputs && r.userInputs[k] == s.userInputs[k]
      {
      }
    }
    assert InputField.IsAmountName(InputKey(node)) ==> InputField.PositiveAmount(value);
  }

  /** The box checks for `Amount` in the field name while the engine also treats an id containing
      `amount` as an amount node. A node identified only by such an id therefore accepts a value
      without digits, and the engine stores it as the answer. */
  lemma UncheckedAmountStored(s: ChatState, language: Language, node: ChatNode, value: string)
    requires node.field.None? && Contains(node.id, "amount") && !Contains(node.id, "Amount")
    requires DigitsOnly(value) == [] && value != [] && !IsWhitespace(value[0])
    ensures IsAmountNode(node)
    ensures InputField.Validate(InputKey(node), language, value) == Ok(value)
    ensures InputSubmitted(s, node, value).userInputs == s.userInputs[node.id := value]
  {
    InputField.NonBlankStart(value);
  }

  /** Entering a node twice announces it once: the tag the first announcement carries makes the
      second a duplicate. */
  lemma EnteredIdempotent(s: ChatState, node: ChatNode)
    ensures Entered(Entered(s, node), node) == Entered(s, node)
    ensures |Entered(s, node).history| <= |s.history| + 1
    ensures Entered(s, node).currentNode == s.currentNode && Entered(s, node).userInputs == s.userInputs
  {
  }

  /** A timer whose node was left does nothing; one still on its node moves to its target. */
  lemma StaleTimerIgnored(s: ChatState, t: Timer)
    ensures s.currentNode != t.scheduledFor ==> Advanced(s, t) == s
    ensures s.currentNode == t.scheduledFor ==> Advanced(s, t).currentNode == t.target
    ensures Advanced(s, t).history == s.history && Advanced(s, t).userInputs == s.userInputs
  {
  }

  /** Declining on a confirmation node goes back to the transaction choice whatever its `next`
      says; accepting follows `next`, or ends the dialog without one. */
  lemma ConfirmationSubmitTargets(s: ChatState, p: Phrases, node: ChatNode, isConfirmed: bool)
    ensures var r := ConfirmationSubmitted(s, p, node, isConfirmed);
      r.userInputs == s.userInputs
      && r.history == s.history + [UserSays(YesNo(p, isConfirmed))]
      && (!isConfirmed ==> r.currentNode == TransactionTypeNode)
      && (isConfirmed && Truthy(node.next) ==> r.currentNode == node.next.value)
      && (isConfirmed && !Truthy(node.next) ==> r.currentNode == EndNode)
  {
  }
}
