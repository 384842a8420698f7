# VoiceKanaFixer ATM dialog, modelled in Dafny

VoiceKanaFixer is a speech-driven ATM assistant. The customer answers spoken or typed prompts.
An intent matcher scores each utterance against the choices of the current dialog node, and a
response strategy turns the best score into one of four tiers: go on directly, ask for
confirmation, list the likely choices, or ask again. A dialog engine walks the node graph on
those answers, collects typed values (amounts, account numbers) and escalates large amounts to
staff. Around the engine sit several helpers:

- a parser that turns a workflow export into the node catalog;
- the level and edge analysis behind the flow diagram;
- the step bar above the chat;
- the bookkeeping for recorded prompts: file naming and choice of the best recording, the
  key-to-URL table kept in the browser, and the key rules and reports of the prompt generator.

This project restates that core in Dafny and proves what it promises. There is one module per
source file, plus shared modules:

| module | file | source |
|---|---|---|
| `Wrappers` | wrappers.dfy | `Option` and `Result` |
| `Strings` | strings.dfy | the JavaScript string operations the source calls (`includes`, `trim`, `replace`, `indexOf`, `parseInt` of the digits, truthiness, the logical-or default) |
| `Types` | types.dfy | src/types/index.ts |
| `Normalization` | normalization.dfy | `normalizeText` of src/services/keywordMatcher.ts |
| `Levenshtein` | levenshtein.dfy | `levenshteinDistance` of src/services/keywordMatcher.ts |
| `Ranking` | ranking.dfy | the filter and stable sort of `findBestMatches` |
| `KeywordMatcher` | keyword_matcher.dfy | the rest of src/services/keywordMatcher.ts |
| `ConversationFlow` | conversation_flow.dfy | src/hooks/useConversationFlow.ts |
| `InputField` | input_field.dfy | src/components/Chat/InputField.tsx |
| `ConfigurationParser` | configuration_parser.dfy | src/services/configurationParser.ts |
| `FlowVisualization` | flow_visualization.dfy | src/components/Management/FlowVisualization.tsx |
| `ProgressNavigation` | progress_navigation.dfy | src/components/Chat/ProgressNavigation.tsx |
| `AudioFileDetector` | audio_file_detector.dfy | src/services/audioFileDetector.ts |
| `AudioFileManager` | audio_file_manager.dfy | src/services/audioFileManager.ts |
| `VoiceFileGenerator` | voice_file_generator.dfy | src/services/voiceFileGenerator.ts |

Modelling choices:

- **Confidences.** They are exact rationals (`real`), not IEEE doubles. Every threshold the
  source compares against is a finite decimal.
- **Regular expressions.** Each becomes an explicit character predicate (`IsNumeralShaped`,
  `IsKeyChar`, `SpeakerSuffix`) or a small recursive matcher (`MatchesKeyPattern`, the lazy
  group of `FirstMatch`).
- **Optional values.** An absent optional string or number is an `Option`. JavaScript
  truthiness is spelled out (`Truthy`: `undefined` and `''` are falsy). An absent `choices`,
  `keywords` or `excludeKeywords` array is the empty sequence, because every use in the source
  treats the two alike.
- **Classes.** Code that updates state in place is a class with `modifies` clauses:
  - `ConversationFlow.Engine`: the hook's state;
  - `InputField.Field`: the box's `value` and `error`;
  - `ConfigurationParser.Parser`: the `codes` map;
  - `AudioFileManager.BrowserAudioFileManager`: the `audioStorage` map.

  The loops of the source are `while` and `for` loops proved against specification functions:
  - the keyword tally, the running maximum of `calculateMatch`, the Levenshtein table and
    `findBestMatches`;
  - the workflow walk;
  - the breadth-first walk of the flow diagram;
  - the passes over the audio map;
  - the counters of `saveGeneratedFiles`.
- **Maps.** A JavaScript `Map` or object keeps insertion order. The audio table is therefore a
  sequence of pairs in insertion order: `set` keeps a present key in its place, `delete`
  filters. The flow diagram's catalog comes with its `Object.keys` order as a sequence.
- **Time.** Timers are explicit events:
  - The 500 ms reply to an utterance is `HandleTextInput` returning a `Reaction`, applied
    later by `ApplyReaction`.
  - The 2 s auto-advance is a pending `Timer` that `FireAutoAdvance` applies. In the source the
    timer's callback moves to the node's successor without looking at the current node; what
    makes a stale timer harmless is the effect's cleanup, which clears the timer whenever the
    effect re-runs for a different node.
  - React's re-run of the node-entry effect on a change of node is `RunNodeEffect`. It acts
    only when the node differs from the one it last ran for, and it first drops the pending
    timer, which is the cleanup. `Advanced` also compares the timer's node with the current
    one. That check is the model's own. It covers a timer firing after the node changed but
    before the effect re-ran, an order React's scheduling rules out, because the effect runs
    right after the render and well within the 2 s. It acts as the cleanup would have.
- **Oracles and parameters.** Whatever crosses the network or the file system is an oracle or
  a parameter:
  - `served: string -> bool` answers the HEAD request;
  - `serverOk` answers the upload;
  - `blobUrl` is the object URL;
  - `stored` holds the pairs read back from `localStorage`.

Where the code and its comments differ, the model follows the code:

- A pending confirmation question does not intercept free text. `handleTextInput` matches the
  utterance against the node's choices whether or not a question is pending.
- `resetConversation` keeps the pending confirmation and cancels no timer itself. A reset made
  away from `start` changes the node, so the effect's cleanup cancels the timer; a reset made on
  `start` leaves that node's timer running.
- `handleInputSubmit` does not validate. The answer box validates before it, and the engine only
  applies the 200 000 ceiling to the digits of the value.
- The 500 ms reply is not cancelled when the node changes. It applies to the state at that
  moment.

## Model

| member | source | states |
|---|---|---|
| Types.Code | src/types/index.ts:1-10 | a language's code is two characters, with no `_` and no `/`, so it can sit in keys and paths |
| Strings.OrElse | src/hooks/useConversationFlow.ts:199 | the logical-or default is the value when it is truthy, and the default when it is absent or empty |
| Strings.ParseDigits | src/hooks/useConversationFlow.ts:178 | `parseInt` of the digits of a string is NaN exactly when the string holds no digit |
| Strings.TrimEmptyIffBlank | src/components/Chat/InputField.tsx:49 | a value trims to the empty string exactly when every character is whitespace |
| Strings.IndexOf | src/services/audioFileManager.ts:147 | `indexOf` is the first position of the pattern from the start position on, or -1 when the pattern does not occur there |
| Strings.RemoveFirst | src/services/audioFileManager.ts:147 | `replace` with a string pattern removes its first occurrence: the result is shorter by the pattern, and putting the pattern back at its first position in the input gives the input; a string without it is unchanged |
| Normalization.MapLower | src/services/keywordMatcher.ts:271 | `toLowerCase` acts character by character and keeps the length |
| Normalization.MapKana | src/services/keywordMatcher.ts:274-276 | the katakana stage maps each character on its own and keeps the length |
| Normalization.MapWidth | src/services/keywordMatcher.ts:278-280 | the full-width stage maps each character on its own and keeps the length |
| Normalization.RemoveWhitespace | src/services/keywordMatcher.ts:282 | deleting whitespace runs leaves no whitespace, never lengthens, and keeps only characters of the input |
| Normalization.NormalizePipeline | src/services/keywordMatcher.ts:269-283 | the stages in the source's order (lower-case, trim, katakana, full width, whitespace) never lengthen the text |
| Normalization.NormalizeText | src/services/keywordMatcher.ts:269-283 | the per-character normal form never lengthens the text |
| Normalization.NormalizeFollowsPipeline | src/services/keywordMatcher.ts:269-283 | the staged pipeline equals the per-character fold on every string |
| Normalization.FoldKeepsWhitespace | src/services/keywordMatcher.ts:271-282 | no stage turns whitespace into something else or the reverse, and lower-casing is idempotent |
| Normalization.NormalizeLowered | src/services/keywordMatcher.ts:271 | lower-casing first changes nothing in the normal form |
| Normalization.NormalizeTrim | src/services/keywordMatcher.ts:272 | trimming changes nothing in the normal form, because whitespace is deleted anyway |
| Normalization.NormalizeAppend | src/services/keywordMatcher.ts:269-283 | the normal form of a concatenation is the concatenation of the normal forms |
| Normalization.NormalChar | src/services/keywordMatcher.ts:271-280 | a folded non-whitespace character is normal, and a normal character folds to itself |
| Normalization.NormalizeOutput | src/services/keywordMatcher.ts:269-283 | a normal form has no whitespace, no upper-case ASCII, no katakana and no full-width letter or digit |
| Normalization.NormalizeFixesNormal | src/services/keywordMatcher.ts:269-283 | a string of normal characters is its own normal form |
| Normalization.NormalizeIdempotent | src/services/keywordMatcher.ts:269-283 | normalising twice is normalising once |
| Levenshtein.EditDistance | src/services/keywordMatcher.ts:242-267 | the recurrence the table implements: insertions, deletions and substitutions of one character, each costing one; its bounds are stated by the lemmas below |
| Levenshtein.EditDistanceBounds | src/services/keywordMatcher.ts:242-267 | the distance is at most the longer length and at least the difference of the lengths |
| Levenshtein.EditDistanceZeroIffEqual | src/services/keywordMatcher.ts:242-267 | the distance is 0 exactly when the strings are equal |
| Levenshtein.EditDistanceDisjoint | src/services/keywordMatcher.ts:242-267 | strings without a common character are as far apart as the longer one is long |
| Levenshtein.LevenshteinDistance | src/services/keywordMatcher.ts:242-267 | the table filled row by row ends in the edit distance of the two strings |
| Levenshtein.FillRow | src/services/keywordMatcher.ts:256-263 | one row of the table holds the distances of the prefixes, and the rows below are untouched |
| Ranking.StableSortSortedPermutation | src/services/keywordMatcher.ts:41 | the sort orders by non-increasing confidence and is a permutation of its input |
| Ranking.StableSortStable | src/services/keywordMatcher.ts:41 | results with equal confidence keep their order |
| Ranking.PositiveMembers | src/services/keywordMatcher.ts:33-38 | exactly the results with a positive confidence are kept |
| Ranking.PositiveAppend | src/services/keywordMatcher.ts:33-38 | the filter of a concatenation is the concatenation of the filters |
| Ranking.FirstMaximal | src/services/keywordMatcher.ts:30-47 | the ranking is empty exactly when every confidence is 0; otherwise its head is the first result of maximal confidence |
| Ranking.RankingHead | src/services/keywordMatcher.ts:30-47 | the head of the ranking is a result of maximal confidence, and an empty ranking means every confidence is 0 |
| KeywordMatcher.CheckKeywordMatches | src/services/keywordMatcher.ts:129-175 | the keyword loop's confidence is its score over 15 (some keyword is numeral-shaped) or 10, capped at 1, and its matched keywords are the loop's |
| KeywordMatcher.TallyKeywords | src/services/keywordMatcher.ts:133-172 | the loop over the keywords computes the tally of the whole list |
| KeywordMatcher.TallyStep | src/services/keywordMatcher.ts:134-171 | one keyword pays its direct points when heard, then the variant bonus |
| KeywordMatcher.AddVariantPoints | src/services/keywordMatcher.ts:157-170 | the variant loop pays the bonus once, at the first variant heard, unless the keyword is already matched |
| KeywordMatcher.IsNumberKeyword | src/services/keywordMatcher.ts:177-180 | a numeral keyword's normal form starts with a numeral, and every digit `1` to `9` is a numeral keyword |
| KeywordMatcher.VoiceVariations | src/services/keywordMatcher.ts:182-218 | there are readings exactly for the digits `1` to `9` and the five known mis-hearings, and no reading is empty |
| KeywordMatcher.TallyKeywordGrows | src/services/keywordMatcher.ts:133-172 | one keyword never lowers the score, and a heard keyword adds at least its direct points |
| KeywordMatcher.TallyAllMonotone | src/services/keywordMatcher.ts:133-172 | more keywords never lower the score |
| KeywordMatcher.KeywordConfidenceFloor | src/services/keywordMatcher.ts:133-172 | a heard numeral keyword gives at least 12/15 = 0.8; a heard word of three or more characters, with no numeral keyword, gives at least 0.7 |
| KeywordMatcher.NothingHeard | src/services/keywordMatcher.ts:133-172 | with no keyword and no variant heard, the tally is 0 with nothing matched |
| KeywordMatcher.ConfidenceOf | src/services/keywordMatcher.ts:173-174 | the keyword confidence lies in [0, 1] |
| KeywordMatcher.FuzzyMatch | src/services/keywordMatcher.ts:220-229 | the fuzzy score is never negative, and identical strings get the top score: 0.7, or 1 when both are empty |
| KeywordMatcher.FuzzyMatchBounds | src/services/keywordMatcher.ts:220-229 | the fuzzy score of two strings, not both empty, lies in [0, 0.7] |
| KeywordMatcher.Jaccard | src/services/keywordMatcher.ts:231-240 | the Jaccard index of the character sets is 0 exactly when the strings share no character |
| KeywordMatcher.JaccardBounds | src/services/keywordMatcher.ts:231-240 | the Jaccard index lies in [0, 1] |
| KeywordMatcher.SameCharsJaccard | src/services/keywordMatcher.ts:231-240 | two strings over the same characters have index 1 |
| KeywordMatcher.DisjointSimilarityZero | src/services/keywordMatcher.ts:220-240 | strings without a common character score 0 on both similarity signals |
| KeywordMatcher.Score | src/services/keywordMatcher.ts:59-127 | `calculateMatch` keeps the choice, its confidence lies in [0, 1], and its type is `exact` exactly when the normal forms are equal |
| KeywordMatcher.CalculateMatch | src/services/keywordMatcher.ts:59-127 | the running maximum over the six steps gives the scoring function's result; the choice is kept and the confidence lies in [0, 1] |
| KeywordMatcher.MatchSignals | src/services/keywordMatcher.ts:76-91 | containment gives 0.9 and `partial`; a higher keyword confidence replaces it with type `keyword` |
| KeywordMatcher.RefineMatch | src/services/keywordMatcher.ts:103-119 | the fuzzy step runs below 0.7 and the Jaccard step below 0.5; each replaces the confidence only when it beats it |
| KeywordMatcher.ConfidenceBounds | src/services/keywordMatcher.ts:59-127 | every confidence lies in [0, 1] |
| KeywordMatcher.ExactMatch | src/services/keywordMatcher.ts:66-74 | type `exact` occurs exactly when the normal forms are equal, and then the result is confidence 1 with the choice text as matched keyword |
| KeywordMatcher.ContainmentFloor | src/services/keywordMatcher.ts:76-81 | containment of either normal form in the other, with no exclude keyword heard, gives at least 0.9 |
| KeywordMatcher.BlankUtteranceScore | src/services/keywordMatcher.ts:76-81 | an utterance that normalises to nothing scores 0.9 `partial` against every choice with non-blank strings |
| KeywordMatcher.BlankUtteranceSelectsFirst | src/services/keywordMatcher.ts:30-127 | hence a blank utterance selects the first choice directly |
| KeywordMatcher.ExcludeDamping | src/services/keywordMatcher.ts:93-101 | a heard exclude keyword leaves at most a tenth of the undamped score, unless a similarity step takes over |
| KeywordMatcher.RefineRaises | src/services/keywordMatcher.ts:103-119 | the similarity steps only raise the confidence |
| KeywordMatcher.ExcludedChoiceCanStillWin | src/services/keywordMatcher.ts:93-119 | after damping, the Jaccard step can restore the confidence to 1, so a choice whose exclude keyword was heard can still be selected directly |
| KeywordMatcher.SwappedUtteranceSelectsExcludedChoice | src/services/keywordMatcher.ts:93-119 | an instance: "yx" names the exclude keyword "y" of the choice "xy" and still selects it directly |
| KeywordMatcher.KeywordScoreKept | src/services/keywordMatcher.ts:83-119 | without a heard exclude keyword, the score is at least the keyword confidence |
| KeywordMatcher.KeywordHitFloor | src/services/keywordMatcher.ts:83-119 | a heard keyword keeps its floor (0.8 numeral, 0.7 word) in the final score |
| KeywordMatcher.UnrelatedScoresZero | src/services/keywordMatcher.ts:59-127 | an utterance sharing no character, keyword or variant with a choice scores 0 |
| KeywordMatcher.FindBestMatches | src/services/keywordMatcher.ts:30-42 | the loop keeps the positive results in choice order and stably sorts them |
| KeywordMatcher.FilterPositive | src/services/keywordMatcher.ts:31-38 | the loop computes the positive results of the choices, in order |
| KeywordMatcher.KeepPositive | src/services/keywordMatcher.ts:35-37 | a result is pushed exactly when its confidence is positive |
| KeywordMatcher.GetBestMatch | src/services/keywordMatcher.ts:44-47 | a best match, when there is one, has a positive confidence and is the result of one of the offered choices |
| KeywordMatcher.RankedFromChoices | src/services/keywordMatcher.ts:30-42 | every result `findBestMatches` ranks has a positive confidence and belongs to one of the choices |
| KeywordMatcher.BestMatchIsFirstMaximal | src/services/keywordMatcher.ts:44-47 | `getBestMatch` is null exactly when every choice scores 0; otherwise it is the first choice of maximal confidence |
| KeywordMatcher.BestAtLeast | src/services/keywordMatcher.ts:44-47 | a choice scoring at least a positive floor guarantees a best match scoring at least that floor |
| KeywordMatcher.GetConfidenceLevel | src/services/keywordMatcher.ts:49-57 | high, medium and low partition the confidences at the two thresholds |
| KeywordMatcher.DetermineResponse | src/services/keywordMatcher.ts:287-327 | fallback exactly for a null match; otherwise direct, confirmation or choices by level, with the data each carries |
| KeywordMatcher.ResponseTiers | src/services/keywordMatcher.ts:30-57 | the response is fallback exactly when every choice scores 0; otherwise it is the tier of the first maximal choice |
| KeywordMatcher.KeywordHitAnswered | src/services/keywordMatcher.ts:20-28 | with the dialog's thresholds a heard numeral keyword answers directly, and a heard word keyword at least asks for confirmation |
| KeywordMatcher.UnrelatedFallsBack | src/services/keywordMatcher.ts:287-327 | an utterance unrelated to every choice gets the fallback |
| ConversationFlow.Engine.constructor | src/hooks/useConversationFlow.ts:27-54 | the dialog starts on `start` with empty history and answers, no pending question and no timer |
| ConversationFlow.Engine.AddBotMessage | src/hooks/useConversationFlow.ts:57-69 | one bot message is appended and nothing else changes |
| ConversationFlow.Engine.HandleChoiceSelect | src/hooks/useConversationFlow.ts:72-86 | the choice text is appended as the customer's message and the node becomes the choice's target; the answers are unchanged |
| ConversationFlow.Engine.HandleTextInput | src/hooks/useConversationFlow.ts:89-107 | with no choices nothing happens; otherwise the utterance is appended and the scheduled reply is the matcher's response with the top three matches |
| ConversationFlow.Engine.ApplyReaction | src/hooks/useConversationFlow.ts:109-162 | direct selects the choice; confirmation asks about it and sets the pending question; choices lists at most three; fallback reprompts |
| ConversationFlow.Engine.HandleInputSubmit | src/hooks/useConversationFlow.ts:166-201 | acts only on an input node: an amount over 200 000 goes to staff, otherwise the value is stored under the node's field, or its id when it has none, and the dialog moves to `next`, or to `end` when it is absent |
| ConversationFlow.Engine.HandleConfirmationSubmit | src/hooks/useConversationFlow.ts:204-229 | acts only on a confirmation node: yes follows `next`, or goes to `end` when it is absent; no goes to `transaction_type`, and the answer is appended |
| ConversationFlow.Engine.HandleConfirmationResponse | src/hooks/useConversationFlow.ts:232-246 | yes selects the pending choice, no apologises, and the pending question is cleared either way; without one nothing happens |
| ConversationFlow.Engine.ResetConversation | src/hooks/useConversationFlow.ts:250-259 | the chat state is fresh and the pending question is kept |
| ConversationFlow.Engine.RunNodeEffect | src/hooks/useConversationFlow.ts:262-297 | entering a message or choice node announces it unless the last message already does; a message node with `next` schedules one advance |
| ConversationFlow.Engine.FireAutoAdvance | src/hooks/useConversationFlow.ts:287-296 | the timer moves to its target only while the dialog is on the node that scheduled it, and it is spent either way |
| ConversationFlow.ReactionTo | src/hooks/useConversationFlow.ts:106-136 | the reply to an utterance lists at most three matches, and it is the fallback exactly when no match is listed |
| ConversationFlow.Top3 | src/hooks/useConversationFlow.ts:136 | `slice(0, 3)` is the first three matches, or all of them when there are fewer |
| ConversationFlow.BestMatchIsAChoice | src/hooks/useConversationFlow.ts:106 | the matcher only proposes one of the node's choices |
| ConversationFlow.DirectIsAChoice | src/hooks/useConversationFlow.ts:111-116 | a direct transition goes to one of the choices matched against |
| ConversationFlow.ReplyOutcome | src/hooks/useConversationFlow.ts:109-162 | any reply adds one message and keeps the answers; only a direct reply moves the dialog, to its choice's target, and every other reply is a bot message |
| ConversationFlow.TextInputOutcome | src/hooks/useConversationFlow.ts:89-162 | an utterance adds itself and one reply; only a direct hit moves the dialog, and then to a target of one of the node's choices |
| ConversationFlow.OfferedChoicesListed | src/hooks/useConversationFlow.ts:134-143 | listing never happens with an empty list: one to three matches, best first |
| ConversationFlow.ConfirmationRoundTrip | src/hooks/useConversationFlow.ts:118-132 | a confirmation question answered yes selects the choice asked about; answered no, it keeps the node and apologises |
| ConversationFlow.AcceptedInputStoredOrEscalated | src/hooks/useConversationFlow.ts:166-201 | a value the box accepts is either stored under the node's key (other answers unchanged, dialog moves on) or sends the customer to staff, the latter exactly for an amount node over the limit |
| ConversationFlow.UncheckedAmountStored | src/hooks/useConversationFlow.ts:179 | a node that is an amount node only by its id lets a value without digits through the box, and the engine stores it |
| ConversationFlow.EnteredIdempotent | src/hooks/useConversationFlow.ts:266-284 | entering a node twice announces it once, and entering changes neither the node nor the answers |
| ConversationFlow.StaleTimerIgnored | src/hooks/useConversationFlow.ts:287-296 | a timer whose node was left does nothing, and a live one moves to its target |
| ConversationFlow.ConfirmationSubmitTargets | src/hooks/useConversationFlow.ts:204-229 | declining goes to `transaction_type` whatever `next` says; accepting follows `next`, or goes to `end` when it is absent |
| InputField.ValidateAccepts | src/components/Chat/InputField.tsx:46-64 | a value is handed on exactly when it has a non-whitespace character and, in an amount box, a positive number; it is handed on as typed, and there is no upper bound |
| InputField.Validate | src/components/Chat/InputField.tsx:46-64 | an accepted value is the value as typed, is not blank and, in an amount box, is a positive number; a rejection carries the empty-value message exactly when the value is blank, and the amount message otherwise |
| InputField.NegativeAmountPasses | src/components/Chat/InputField.tsx:56-60 | the minus sign is stripped, so `-500` passes the amount check |
| InputField.Field.constructor | src/components/Chat/InputField.tsx:38-39 | the box starts with an empty value and no error |
| InputField.Field.HandleSubmit | src/components/Chat/InputField.tsx:46-65 | an accepted value is submitted and the error cleared; a rejected one sets the error and submits nothing |
| InputField.Field.HandleInputChange | src/components/Chat/InputField.tsx:67-71 | any edit replaces the value and clears the error |
| ConfigurationParser.Parser.constructor | src/services/configurationParser.ts:26-34 | the codes hold the definitions, the last of an id winning |
| ConfigurationParser.Parser.InitializeCodes | src/services/configurationParser.ts:30-34 | the loop sets every definition in turn |
| ConfigurationParser.Parser.ParseWorkflowToNodes | src/services/configurationParser.ts:91-135 | the loop builds the catalog of the workflow function |
| ConfigurationParser.Parser.ParseContentToNode | src/services/configurationParser.ts:137-176 | the node of an item with content keeps the item's id |
| ConfigurationParser.Parser.ParseBranchesToNodes | src/services/configurationParser.ts:215-230 | the branches' catalogs are merged in order; a branch without a workflow adds nothing |
| ConfigurationParser.WorkflowNodes | src/services/configurationParser.ts:91-135 | every parsed catalog holds `start` and `end`, and `end` is the closing message |
| ConfigurationParser.ContentNode | src/services/configurationParser.ts:137-176 | the node keeps the item's id and successor, and without customised fields it is a plain message without choices |
| ConfigurationParser.KeywordsFor | src/services/configurationParser.ts:190-213 | the label is always the first keyword |
| ConfigurationParser.KeywordsLabelFirst | src/services/configurationParser.ts:190-213 | the label comes first, and synonyms follow exactly when the label is a key of the table |
| ConfigurationParser.ChoicesOf | src/services/configurationParser.ts:181-187 | one choice per code item |
| ConfigurationParser.ChoicesFromCode | src/services/configurationParser.ts:178-188 | there is one choice per item of a known code, and none for an absent or unknown code id |
| ConfigurationParser.ChoicesFromCodeItems | src/services/configurationParser.ts:178-188 | one choice per item, in order, with id, text, keywords, no exclude keywords and the item's `next`, or `end` when it is absent; an unknown code id gives none |
| ConfigurationParser.StartAndEnd | src/services/configurationParser.ts:96-134 | every catalog has `start` and `end`, and `end` is the closing message without a successor |
| ConfigurationParser.FlatWorkflow | src/services/configurationParser.ts:97-118 | in a workflow of plain nodes, `start` leads to the first item and each item is its content's node leading to the next sibling |
| ConfigurationParser.GroupStartWins | src/services/configurationParser.ts:108-113 | a group merged last replaces the outer `start` with its own |
| ConfigurationParser.InertItem | src/services/configurationParser.ts:108-124 | an item that is not a group with a group, a node with content or a switch with branches adds nothing |
| ConfigurationParser.NodeKinds | src/services/configurationParser.ts:144-173 | the first customised field alone decides the node type, the choices, and the field and label |
| ConfigurationParser.CodesLastWins | src/services/configurationParser.ts:30-34 | a code id maps to the items of its last definition |
| ConfigurationParser.CodesDefined | src/services/configurationParser.ts:30-34 | only defined code ids are known |
| FlowVisualization.Root | src/components/Management/FlowVisualization.tsx:55 | the walk starts from one of the catalog's ids: `start` when present, else the first |
| FlowVisualization.Walk | src/components/Management/FlowVisualization.tsx:58-100 | the walk levels the root at 0, processes each levelled id once, draws exactly their connections, and no edge skips a level |
| FlowVisualization.Visit | src/components/Management/FlowVisualization.tsx:61-68 | one turn of the loop keeps the walk invariant and makes progress |
| FlowVisualization.ProcessHead | src/components/Management/FlowVisualization.tsx:64-99 | processing a new head keeps the invariant and adds it to the visited set |
| FlowVisualization.Discover | src/components/Management/FlowVisualization.tsx:70-99 | the edges of a node are recorded in order, and each new target joins the queue one level down |
| FlowVisualization.Emit | src/components/Management/FlowVisualization.tsx:71-97 | one edge is recorded; its target gets level + 1 and joins the queue only when it has no level yet |
| FlowVisualization.WalkHopCounts | src/components/Management/FlowVisualization.tsx:61-100 | the levels of the walk are shortest hop counts from the root |
| FlowVisualization.MaxLevel | src/components/Management/FlowVisualization.tsx:114 | the largest level, or -1 when there is none |
| FlowVisualization.AddUnreached | src/components/Management/FlowVisualization.tsx:111-121 | each id without a level gets the next level above the highest so far; earlier levels are unchanged |
| FlowVisualization.AnalyzeFlow | src/components/Management/FlowVisualization.tsx:43-121 | an empty catalog yields nothing; otherwise levels are shortest hop counts from the root, unreached ids get consecutive fresh levels, and every catalog id has a level |
| FlowVisualization.OutgoingEdges | src/components/Management/FlowVisualization.tsx:70-99 | a node emits its `next` edge when `next` is truthy, then one labelled edge per choice |
| FlowVisualization.ConnectionsFromCatalog | src/components/Management/FlowVisualization.tsx:67-68 | every edge leaves a processed id the catalog has: a missing target gets a level but no edges |
| ProgressNavigation.BuildMainProgressPath | src/components/Chat/ProgressNavigation.tsx:65-100 | the path is the three opening steps, the steps of the chosen transaction and the two closing steps, without repeats and each under its label |
| ProgressNavigation.Push | src/components/Chat/ProgressNavigation.tsx:76-98 | the pushed steps follow the path under their labels |
| ProgressNavigation.FallbackPath | src/components/Chat/ProgressNavigation.tsx:31-38 | without node data the fixed four steps are used |
| ProgressNavigation.MainIdsDistinct | src/components/Chat/ProgressNavigation.tsx:72-93 | no repeated id; deposit and payout add two steps, transfer five, anything else none |
| ProgressNavigation.FindIndex | src/components/Chat/ProgressNavigation.tsx:55 | `findIndex` is the first position with the id, or -1 when none has it |
| ProgressNavigation.Mark | src/components/Chat/ProgressNavigation.tsx:54-61 | a step is completed when it lies before the current node's position, and current when its id is the current node's |
| ProgressNavigation.MarkCompletedOnPath | src/components/Chat/ProgressNavigation.tsx:54-61 | on the path, exactly the steps before the current one are completed |
| ProgressNavigation.MarkCurrentOnPath | src/components/Chat/ProgressNavigation.tsx:54-61 | on the path, exactly one step is current |
| ProgressNavigation.MarkOffPath | src/components/Chat/ProgressNavigation.tsx:55-60 | a current node off the path marks nothing |
| ProgressNavigation.GetSteps | src/components/Chat/ProgressNavigation.tsx:30-62 | the fallback or main path, without repeated ids, marked against the current node |
| AudioFileDetector.DetectAudioFilesForNode | src/services/audioFileDetector.ts:17-49 | five candidates: speakers 2, 3, 11, 22, then the plain file, each at `/audio/<lang>/<file>` with the HEAD answer |
| AudioFileDetector.TrailingDigits | src/services/audioFileDetector.ts:159 | the length of the run of digits ending the string |
| AudioFileDetector.ExtractSpeaker | src/services/audioFileDetector.ts:158-161 | the speaker is `none` or the digits of a trailing `_<digits>.wav` |
| AudioFileDetector.ExtractSpeakerOf | src/services/audioFileDetector.ts:158-161 | a name `p_D.wav` yields `D` |
| AudioFileDetector.FirstMatch | src/services/audioFileDetector.ts:151 | the lazy group takes the shortest length at which the rest is `_<digits>.wav` or `.wav` |
| AudioFileDetector.ExtractNodeId | src/services/audioFileDetector.ts:150-153 | the node id is the lazy group when the pattern matches, else the name without its first `.wav` |
| AudioFileDetector.SpeakerFileRoundTrip | src/services/audioFileDetector.ts:22 | `n_s.wav` reads back as node `n` and speaker `s` for a node id without line breaks and a digit speaker |
| AudioFileDetector.PlainFileRoundTrip | src/services/audioFileDetector.ts:37 | `n.wav` reads back as node `n` without speaker, unless `n` ends in `_<digits>` |
| AudioFileDetector.PlainFileAmbiguous | src/services/audioFileDetector.ts:150-161 | the plain file of node `a_1` reads as speaker `1` of node `a` |
| AudioFileDetector.CandidatesParse | src/services/audioFileDetector.ts:17-49 | every candidate's file name reads back as its node and speaker |
| AudioFileDetector.Rank | src/services/audioFileDetector.ts:175 | a speaker's place in the preference order 3, 2, 11, 22, none |
| AudioFileDetector.Existing | src/services/audioFileDetector.ts:168 | the filter keeps exactly the served files |
| AudioFileDetector.FindSpeaker | src/services/audioFileDetector.ts:178 | a file found for a speaker is one of the list and has that speaker |
| AudioFileDetector.PickFrom | src/services/audioFileDetector.ts:177-185 | the preference loop always returns one of the served files |
| AudioFileDetector.SelectBestAudioFile | src/services/audioFileDetector.ts:166-186 | null exactly when no file is served; otherwise a served file of the list |
| AudioFileDetector.FindServed | src/services/audioFileDetector.ts:178 | the first served file with the speaker, or none when no served file has it |
| AudioFileDetector.FirstServed | src/services/audioFileDetector.ts:185 | the first served file, or none when no file is served |
| AudioFileDetector.FindInExisting | src/services/audioFileDetector.ts:168-178 | finding a speaker among the served files is finding the first served file with it |
| AudioFileDetector.HeadOfExisting | src/services/audioFileDetector.ts:168-185 | the first of the served files is the first served file |
| AudioFileDetector.SelectBestSpec | src/services/audioFileDetector.ts:166-186 | null exactly when no file is served; otherwise a served file of the list with the best-ranked speaker, the first of that rank |
| AudioFileDetector.PickFromSpec | src/services/audioFileDetector.ts:177-185 | the preference loop from any position on returns the best file |
| AudioFileManager.Prefix | src/services/audioFileManager.ts:146 | `${language}_` is the two-letter code and an underscore |
| AudioFileManager.StorageKey | src/services/audioFileManager.ts:22-24 | the key is the language prefix followed by the audio key |
| AudioFileManager.StorageKeyInjective | src/services/audioFileManager.ts:22-24 | distinct audio key and language pairs never share a storage key |
| AudioFileManager.PrefixOfLanguage | src/services/audioFileManager.ts:146 | a storage key carries the prefix of its own language and of no other |
| AudioFileManager.PublicUrl | src/services/audioFileManager.ts:80 | the public URL is `/audio/`, the code, `/`, the audio key and `.wav` |
| AudioFileManager.FindKey | src/services/audioFileManager.ts:14 | the position of a key in the map, or -1 when absent |
| AudioFileManager.Get | src/services/audioFileManager.ts:95 | `get` is undefined exactly when the key is absent, and otherwise the URL paired with it |
| AudioFileManager.GetStored | src/services/audioFileManager.ts:95 | in a map every key reads its own URL |
| AudioFileManager.Set | src/services/audioFileManager.ts:81 | `set` appends a new key at the end and keeps a present key in its place |
| AudioFileManager.GetAfterSet | src/services/audioFileManager.ts:81 | after `set` the key reads the new URL and every other key reads as before |
| AudioFileManager.SetUnique | src/services/audioFileManager.ts:81 | `set` keeps the keys unique |
| AudioFileManager.Keep | src/services/audioFileManager.ts:191 | deleting keys keeps the other pairs in their order |
| AudioFileManager.GetAfterKeep | src/services/audioFileManager.ts:191 | deleted keys read as absent and the others as before |
| AudioFileManager.KeepTwice | src/services/audioFileManager.ts:191 | deleting one list of keys and then another is deleting both |
| AudioFileManager.KeepUnique | src/services/audioFileManager.ts:191 | deleting keeps the keys unique |
| AudioFileManager.PrefixedKeys | src/services/audioFileManager.ts:184-189 | the keys collected all begin with the prefix |
| AudioFileManager.PrefixedKeysMembers | src/services/audioFileManager.ts:184-189 | a key is collected exactly when the map has it and it begins with the prefix |
| AudioFileManager.DropLanguageGet | src/services/audioFileManager.ts:181-195 | clearing a language removes exactly the keys with its prefix, and every other key reads as before |
| AudioFileManager.RemoveLeading | src/services/audioFileManager.ts:147 | on a key that begins with the prefix, `replace` strips exactly that prefix |
| AudioFileManager.StoredAudioKeys | src/services/audioFileManager.ts:143-151 | the language's audio keys are at most as many as the pairs |
| AudioFileManager.StoredAudioKeysMembers | src/services/audioFileManager.ts:143-151 | an audio key is listed for a language exactly when the map holds its storage key |
| AudioFileManager.Split | src/services/audioFileManager.ts:167 | `split('_')` gives at least one piece, none holding `_` |
| AudioFileManager.Position | src/services/audioFileManager.ts:167 | the first position of the separator |
| AudioFileManager.SplitTwo | src/services/audioFileManager.ts:167 | `split('_', 2)` is the text before the first `_` and the text between the first and second `_` |
| AudioFileManager.StorageKeySplit | src/services/audioFileManager.ts:167 | a storage key's first `_` is the one after the language |
| AudioFileManager.AllAudioFiles | src/services/audioFileManager.ts:163-178 | at most one record per pair |
| AudioFileManager.FileRecordOfPlainKey | src/services/audioFileManager.ts:166-174 | an audio key without `_` is reported with its language and in full |
| AudioFileManager.FileRecordTruncatesKey | src/services/audioFileManager.ts:167-168 | an audio key holding `_` is reported only up to it, and one starting with `_` is not reported |
| AudioFileManager.DepositAmountListedAsDeposit | src/services/audioFileManager.ts:167-168 | the prompt of `deposit_amount` in Japanese is reported with audio key `deposit` |
| AudioFileManager.ParseStorageKey | src/services/audioFileManager.ts:167 | a key split at its first `_` only: the pieces recompose the key and neither is empty |
| AudioFileManager.ParseStorageKeyRoundTrip | src/services/audioFileManager.ts:163-178 | every storage key reads back into its language code and the whole audio key |
| AudioFileManager.Loaded | src/services/audioFileManager.ts:26-38 | loading sets every stored pair in turn, never adding pairs |
| AudioFileManager.LoadedRoundTrip | src/services/audioFileManager.ts:26-50 | pairs saved from a map load back as the same map, in the same order |
| AudioFileManager.AudioUrl | src/services/audioFileManager.ts:93-103 | the stored URL when it is non-empty, else the public file's URL |
| AudioFileManager.FileExists | src/services/audioFileManager.ts:105-120 | without the server's answer, a file exists exactly when the map holds its storage key, whatever the URL stored |
| AudioFileManager.EmptyUrlExistsButFallsBack | src/services/audioFileManager.ts:93-120 | a key stored with an empty URL exists without asking the server, yet its URL is the public file's |
| AudioFileManager.SavedPrompt | src/services/audioFileManager.ts:52-120 | after a successful save the URL is the public file's, the file exists without asking, and other prompts are unchanged |
| AudioFileManager.BrowserAudioFileManager.constructor | src/services/audioFileManager.ts:18-38 | the map is the stored pairs loaded in turn |
| AudioFileManager.BrowserAudioFileManager.SaveAudioFile | src/services/audioFileManager.ts:52-91 | on success the blob URL is returned and the key maps to the public URL; on failure the error is returned and the map is unchanged |
| AudioFileManager.BrowserAudioFileManager.GetStoredAudioKeys | src/services/audioFileManager.ts:143-151 | the loop lists the language's audio keys in map order |
| AudioFileManager.BrowserAudioFileManager.Cleanup | src/services/audioFileManager.ts:154-160 | the map is emptied |
| AudioFileManager.BrowserAudioFileManager.GetAllAudioFiles | src/services/audioFileManager.ts:163-178 | the loop makes the records of every pair that splits |
| AudioFileManager.BrowserAudioFileManager.ClearLanguageAudio | src/services/audioFileManager.ts:181-195 | the map loses exactly the pairs of the language |
| AudioFileManager.BrowserAudioFileManager.CollectPrefixed | src/services/audioFileManager.ts:184-189 | the first pass collects the prefixed keys in map order |
| AudioFileManager.BrowserAudioFileManager.DeleteAll | src/services/audioFileManager.ts:191 | the second pass deletes each collected key |
| VoiceFileGenerator.ValidateAudioKeyMeans | src/services/voiceFileGenerator.ts:247-251 | a key is valid exactly when it has 1 to 50 characters, each a letter, digit, `_` or `-` |
| VoiceFileGenerator.KeyPatternMeans | src/services/voiceFileGenerator.ts:249 | the pattern matches exactly the non-empty strings of key characters |
| VoiceFileGenerator.ValidateAudioKey | src/services/voiceFileGenerator.ts:247-251 | a valid key has 1 to 50 characters, each a letter, digit, `_` or `-` |
| VoiceFileGenerator.KeyChar | src/services/voiceFileGenerator.ts:255 | every generated character is `_`, a lower-case letter or a digit |
| VoiceFileGenerator.GenerateAudioKey | src/services/voiceFileGenerator.ts:254-256 | the key keeps the length and maps each character on its own |
| VoiceFileGenerator.GeneratedKeyChars | src/services/voiceFileGenerator.ts:254-256 | a generated key holds only `[a-z0-9_]` |
| VoiceFileGenerator.KeyCharFixed | src/services/voiceFileGenerator.ts:255 | the characters left alone are exactly `[a-z0-9_]` |
| VoiceFileGenerator.GenerateAudioKeyFixed | src/services/voiceFileGenerator.ts:254-256 | a node id is its own key exactly when it is made of `[a-z0-9_]` |
| VoiceFileGenerator.GenerateAudioKeyIdempotent | src/services/voiceFileGenerator.ts:254-256 | generating a key from a key changes nothing |
| VoiceFileGenerator.GeneratedKeyValid | src/services/voiceFileGenerator.ts:247-256 | a generated key of 1 to 50 characters is valid |
| VoiceFileGenerator.FailedEntries | src/services/voiceFileGenerator.ts:223 | the filter keeps only failed entries of the results |
| VoiceFileGenerator.FailedEntriesComplete | src/services/voiceFileGenerator.ts:223 | every failed entry is kept |
| VoiceFileGenerator.SuccessfulAndFailed | src/services/voiceFileGenerator.ts:222-223 | successful and failed entries add up to the results |
| VoiceFileGenerator.TotalsOfParts | src/services/voiceFileGenerator.ts:224-225 | the totals of a batch are the sums of its parts' totals |
| VoiceFileGenerator.TotalsOfMissing | src/services/voiceFileGenerator.ts:224-225 | entries without duration and size add 0 |
| VoiceFileGenerator.GenerateReport | src/services/voiceFileGenerator.ts:214-238 | total is the count; successful + failed = total; the errors are the failed entries' node ids and messages in order; the totals are the sums |
| VoiceFileGenerator.CountSavable | src/services/voiceFileGenerator.ts:195 | at most one saved per result |
| VoiceFileGenerator.SavedAtMostSuccessful | src/services/voiceFileGenerator.ts:187-238 | no more files are saved than the report counts successful |
| VoiceFileGenerator.SaveGeneratedFiles | src/services/voiceFileGenerator.ts:187-211 | saved counts the entries with a URL and no error, and saved + failed = number of results |

## Left out

- Strings are sequences of Unicode code points. JavaScript's `length`, `split('')` and regular
  expressions without the `u` flag work on UTF-16 code units, so text with characters outside
  the Basic Multilingual Plane is measured differently. The members this touches:
  - KeywordMatcher.TallyStep: the length-3 test of the word points counts code points.
  - KeywordMatcher.FuzzyMatch: the longer length counts code points.
  - Levenshtein.LevenshteinDistance: the table has one row and column per code point.
  - KeywordMatcher.Jaccard: the character sets are sets of code points.
  - VoiceFileGenerator.GenerateAudioKey: an astral character becomes one `_`, where the source
    writes two (one per code unit). "Keeps the length" holds in code points only.
- KeywordMatcher.VoiceVariations: a keyword that names an `Object.prototype` member, such as
  `constructor`, makes the mis-hearing lookup find a function, and spreading it throws a
  `TypeError`. The model returns no extra readings instead.
- ConfigurationParser.KeywordsFor: a label that names an `Object.prototype` member throws the
  same `TypeError`. The model adds no synonyms instead.
- ConfigurationParser.WorkflowNodes: some malformed exports crash the source, and the model's
  types cannot express them, so they are not modelled:
  - a `G` item whose group has neither `workflow` nor `workFlow` recurses on `undefined` and
    throws on its first element;
  - a content whose `customizedData.items` is an empty array throws on the missing first item.

  In the model a group is an optional workflow, and the first customised field is optional.
- AudioFileManager.BrowserAudioFileManager.SaveAudioFile: a failed save returns the fixed
  `SaveFailed` error. The source rethrows whatever failed, so a network rejection surfaces as
  the fetch's own error rather than the "save failed" one.

- Network and storage. The HEAD requests, the upload to the save route, `URL.createObjectURL`
  and `URL.revokeObjectURL`, `localStorage` and `JSON.parse` are parameters or left out. A
  stored value that does not parse is the same as nothing stored.
- `saveStoredAudio` (persisting the map) is not modelled. `LoadedRoundTrip` states what it
  promises: saving and loading gives back the same map.
- `downloadAudioFile` is not modelled, because it only drives the DOM.
- The fetch-based listing and known-pattern probing of `AudioFileDetector.getAllAudioFiles` and
  `detectKnownAudioFiles` are not modelled; only the naming they use is.
- `generateVoiceFile`, `generateAllVoiceFiles`, `generateBatchVoiceFiles`,
  `optimizeTextForVoice` and `isServiceAvailable` are not modelled, because they call speech
  synthesis and language-model services over the network.
- SaveGeneratedFiles: the `catch` branch that counts a failure is not modelled. Its `try` body
  only logs, and logging does not throw.
- `convertToOptimizedFlow`, `translateNodes` and `translateChoices` of the configuration parser
  are not modelled, because they are network translation. The model parses one workflow into
  one catalog. The `async` of the parser's methods is dropped, because nothing it awaits is
  modelled.
- The flow diagram's grouping by level (`nodesByLevel`), its coordinates and its view box are
  not modelled, because they are floating-point layout. Neither is the step bar's percentage.
- Normalization.LowerChar: `toLowerCase` is exact only for ASCII and full-width Latin capitals.
  Other characters are left as they are, so Unicode case folding beyond these is not modelled.
- Message ids and timestamps (`Date.now()`, `new Date()`), the React re-render schedule, real
  time in timers, the error and loading flags of the hook, and the voice buttons of the answer
  box are not modelled.
- AudioFileDetector.SpeakerFileRoundTrip and AudioFileDetector.PlainFileRoundTrip: these hold
  only for node ids without line terminators, because the pattern's `.` does not match them.
  The plain round trip also needs a node id that does not end in `_<digits>`;
  `PlainFileAmbiguous` shows what happens otherwise.
- AudioFileManager.AllAudioFiles: the record is keyed by the storage key, as the map's keys are
  unique. The language is the code as a string; the source casts it to `Language` unchecked.

## Findings

| source | as written | input that shows it | evidently intended | confidence | as-written member | corrected member |
|---|---|---|---|---|---|---|
| src/services/audioFileManager.ts:167 | `storageKey.split('_', 2)` splits at every `_` and keeps only the first two pieces, so an audio key that holds `_` is cut at its first `_`, and one that starts with `_` is not listed at all | the prompt of node `deposit_amount` in Japanese, stored under `ja_deposit_amount`, is listed with audio key `deposit` | split the storage key at its first `_` only, so the listed audio key is the whole key that was saved | not executed | AudioFileManager.FileRecordTruncatesKey | AudioFileManager.ParseStorageKeyRoundTrip |
