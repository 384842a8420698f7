/** The shared records of the dialog: nodes, choices and chat messages (src/types/index.ts). */
module Types {
  import opened Wrappers

  datatype Language = Ja | En

  /** The language as it appears in paths and storage keys. */
  function Code(language: Language): (r: string)
    ensures |r| == 2 && '_' !in r && '/' !in r
  {
    if language == Ja then "ja" else "en"
  }

  datatype NodeType = Message | ChoiceNode | Input | Confirmation | QrDisplay

  /** A selectable option of a choice node. An absent `keywords` or `excludeKeywords` array is
      the empty sequence: every reader of these arrays treats the two alike. */
  datatype Choice = Choice(
    id: string,
    text: string,
    keywords: seq<string>,
    excludeKeywords: seq<string>,
    next: string)

  /** One step of the dialog graph. An absent `choices` array is the empty sequence; the
      `label` property is `nodeLabel` (`label` is a Dafny keyword). */
  datatype ChatNode = ChatNode(
    id: string,
    kind: NodeType,
    content: string,
    next: Option<string>,
    choices: seq<Choice>,
    field: Option<string>,
    nodeLabel: Option<string>)

  datatype Role = Bot | User

  /** A history entry. `nodeId` is the marker the node-entry effect attaches to the bot message
      it adds; message ids and timestamps come from the clock and are not modelled. */
  datatype ChatMessage = ChatMessage(role: Role, content: string, nodeId: Option<string>)

  /** The dialog state the hook keeps and replaces as a whole on every update. */
  datatype ChatState = ChatState(
    currentNode: string,
    language: Language,
    history: seq<ChatMessage>,
    userInputs: map<string, string>,
    isComplete: bool)
}
