/** `ConfigurationParser` (src/services/configurationParser.ts): turns the workflow tree of an
    exported bank configuration into the node catalog the dialog runs on. Translation is not
    part of this model; only the Japanese catalog is built. */
module ConfigurationParser {
  import opened Wrappers
  import opened Strings
  import opened Types

  /** A code entry; `label` is `itemLabel` (`label` is a Dafny keyword). */
  datatype CodeItem = CodeItem(itemLabel: string, value: string)

  /** One entry of `codedef.codes`. */
  datatype CodeDef = CodeDef(codeid: string, items: seq<CodeItem>)

  /** The first entry of `content.customizedData.items`: its `type`, its `codeId` (or `codeid`),
      `field` and `label` (`fieldLabel`). */
  datatype FieldItem = FieldItem(fieldType: string, codeId: Option<string>, field: Option<string>, fieldLabel: Option<string>)

  /** `item.content`: its `navText`, and the first customised field when `customizedData.items`
      is present. */
  datatype Content = Content(navText: Option<string>, firstField: Option<FieldItem>)

  /** A workflow: the array a group, a branch or the root holds under `workflow`/`workFlow`. */
  datatype Workflow = Workflow(items: seq<WorkflowItem>)

  /** One workflow entry: type `G` (group), `N` (node), `S` (switch) or anything else. */
  datatype WorkflowItem = WorkflowItem(
    id: string,
    itemType: string,
    title: Option<string>,
    content: Option<Content>,
    group: Option<Workflow>,
    branches: Option<Branches>)

  /** The `branches` array of a switch. */
  datatype Branches = Branches(list: seq<Branch>)

  /** A branch of a switch; `None` when it carries no workflow array. */
  datatype Branch = Branch(workflow: Option<Workflow>)

  type Codes = map<string, seq<CodeItem>>
  type Nodes = map<string, ChatNode>
  /** Synonyms added to a choice whose label is a key. */
  type KeywordTable = map<string, seq<string>>

  const StartGreeting := "いらっしゃいませ。ATMサービスをご利用いただき、ありがとうございます。"
  const EndGreeting := "お取引ありがとうございました。またのご利用をお待ちしております。"

  /** The synonym table of `generateKeywordsForChoice` (lines 194-206). */
  function BankingKeywords(): KeywordTable {
    map[
      "預入" := ["入金", "預金", "お預け入れ", "よにゅう"],
      "払出" := ["出金", "引き出し", "払い出し", "ひきだし"],
      "振込" := ["送金", "振り込み", "ふりこみ", "送る"],
      "日本語" := ["にほんご", "Japanese", "jp"],
      "English" := ["英語", "えいご", "en"],
      "中文" := ["中国語", "Chinese", "zh"],
      "運転免許証" := ["免許証", "免許", "めんきょ"],
      "パスポート" := ["旅券", "りょけん"],
      "個人番号カード" := ["マイナンバーカード", "マイナンバー"],
      "健康保険証" := ["保険証", "ほけんしょう"],
      "通帳" := ["つうちょう", "bankbook"]
    ]
  }

  // ---------------------------------------------------------------------------------------------
  // The catalog, as functions
  // ---------------------------------------------------------------------------------------------

  /** `initializeCodes`: a later definition of the same code id replaces an earlier one. */
  function CodesOf(defs: seq<CodeDef>): Codes {
    if defs == [] then map[]
    else CodesOf(defs[..|defs| - 1])[defs[|defs| - 1].codeid := defs[|defs| - 1].items]
  }

  /** `generateKeywordsForChoice`: the label, then its synonyms when it is a key of the table. */
  function KeywordsFor(table: KeywordTable, text: string): (r: seq<string>)
    ensures |r| >= 1 && r[0] == text
  {
    [text] + (if text in table then table[text] else [])
  }

  /** `generateChoicesFromCode`: one choice per code item of the code, in order. */
  function ChoicesFromCode(codes: Codes, table: KeywordTable, codeId: Option<string>, nextId: Option<string>): (r: seq<Choice>)
    ensures |r| == if codeId.Some? && codeId.value in codes then |codes[codeId.value]| else 0
  {
    var items := if codeId.Some? && codeId.value in codes then codes[codeId.value] else [];
    ChoicesOf(table, items, OrElse(nextId, "end"))
  }

  function ChoicesOf(table: KeywordTable, items: seq<CodeItem>, next: string): (r: seq<Choice>)
    ensures |r| == |items|
  {
    if items == [] then []
    else [Choice(items[0].value, items[0].itemLabel, KeywordsFor(table, items[0].itemLabel), [], next)]
         + ChoicesOf(table, items[1..], next)
  }

  /** The node a node with this first customised field becomes. */
  function Customized(codes: Codes, table: KeywordTable, node: ChatNode, f: FieldItem, nextId: Option<string>): ChatNode {
    if f.fieldType == "CodeButtonField" || f.fieldType == "CodeButtonFeild" then
      node.(kind := ChoiceNode, choices := ChoicesFromCode(codes, table, f.codeId, nextId))
    else if f.fieldType == "FormInputTextField" then
      node.(kind := Input, field := f.field, nodeLabel := f.fieldLabel)
    else if f.fieldType == "DomainDataWithLabelDisplayField" || f.fieldType == "DomainDataWithLabelDisplayFeild" then
      node.(kind := Confirmation, field := f.field, nodeLabel := f.fieldLabel)
    else node
  }

  /** `parseContentToNode` for an item that has content. */
  function ContentNode(codes: Codes, table: KeywordTable, item: WorkflowItem, c: Content, nextId: Option<string>): (r: ChatNode)
    ensures r.id == item.id && r.next == nextId
    ensures c.firstField.None? ==> r.kind == Message && r.choices == []
  {
    var text := if Truthy(c.navText) then c.navText.value else OrElse(item.title, "");
    var node := ChatNode(item.id, Message, text, nextId, [], None, None);
    if c.firstField.Some? then Customized(codes, table, node, c.firstField.value, nextId) else node
  }

  /** The `start` node: it leads to the first item, or to `end` for an empty workflow. */
  function StartNode(w: Workflow): ChatNode {
    var first := if |w.items| > 0 && w.items[0].id != "" then w.items[0].id else "end";
    ChatNode("start", Message, StartGreeting, Some(first), [], None, None)
  }

  function EndNode(): ChatNode {
    ChatNode("end", Message, EndGreeting, None, [], None, None)
  }

  /** The id of the following sibling, if there is one. */
  function NextId(w: Workflow, i: nat): Option<string> {
    if i + 1 < |w.items| then Some(w.items[i + 1].id) else None
  }

  /** `parseWorkflowToNodes` */
  function WorkflowNodes(codes: Codes, table: KeywordTable, w: Workflow): (r: Nodes)
    ensures "start" in r && "end" in r && r["end"] == EndNode()
    decreases w, 2, 0
  {
    ItemsNodes(codes, table, w, |w.items|)["end" := EndNode()]
  }

  /** The catalog after the first `n` items of the loop. */
  function ItemsNodes(codes: Codes, table: KeywordTable, w: Workflow, n: nat): (r: Nodes)
    requires n <= |w.items|
    ensures "start" in r
    decreases w, 1, n
  {
    if n == 0 then map["start" := StartNode(w)]
    else AddItem(codes, table, ItemsNodes(codes, table, w, n - 1), w, n - 1)
  }

  /** One pass of the loop: a group or a switch merges the catalogs of its workflows over what is
      there, a node with content is stored under its id, anything else adds nothing. */
  function AddItem(codes: Codes, table: KeywordTable, nodes: Nodes, w: Workflow, i: nat): (r: Nodes)
    requires i < |w.items|
    ensures nodes.Keys <= r.Keys
    decreases w, 0, 0
  {
    var item := w.items[i];
    if item.itemType == "G" && item.group.Some? then
      nodes + WorkflowNodes(codes, table, item.group.value)
    else if item.itemType == "N" && item.content.Some? then
      nodes[item.id := ContentNode(codes, table, item, item.content.value, NextId(w, i))]
    else if item.itemType == "S" && item.branches.Some? then
      nodes + BranchesNodes(codes, table, item, |item.branches.value.list|)
    else nodes
  }

  /** `parseBranchesToNodes` over the first `n` branches of a switch. */
  function BranchesNodes(codes: Codes, table: KeywordTable, item: WorkflowItem, n: nat): Nodes
    requires item.branches.Some? && n <= |item.branches.value.list|
    decreases item, n
  {
    if n == 0 then map[]
    else
      var before := BranchesNodes(codes, table, item, n - 1);
      var b := item.branches.value.list[n - 1];
      if b.workflow.Some? then before + WorkflowNodes(codes, table, b.workflow.value) else before
  }

  // ---------------------------------------------------------------------------------------------
  // The parser
  // ---------------------------------------------------------------------------------------------

  class Parser {
    var codes: Codes
    const keywordTable: KeywordTable

    /** The constructor runs `initializeCodes`. */
    constructor(defs: seq<CodeDef>)
      ensures codes == CodesOf(defs) && keywordTable == BankingKeywords()
    {
      keywordTable := BankingKeywords();
      codes := map[];
      new;
      InitializeCodes(defs);
    }

    method InitializeCodes(defs: seq<CodeDef>)
      modifies this
      requires codes == map[]
      ensures codes == CodesOf(defs)
    {
      for k := 0 to |defs|
        invariant codes == CodesOf(defs[..k])
      {
        assert defs[..k + 1][..k] == defs[..k];
        codes := codes[defs[k].codeid := defs[k].items];
      }
      FullSlice(defs);
    }

    method ParseWorkflowToNodes(w: Workflow) returns (nodes: Nodes)
      ensures nodes == WorkflowNodes(codes, keywordTable, w)
      decreases w, 2, 0
    {
      nodes := map["start" := StartNode(w)];
      for i := 0 to |w.items|
        invariant nodes == ItemsNodes(codes, keywordTable, w, i)
      {
        var item := w.items[i];
        if item.itemType == "G" && item.group.Some? {
          var groupNodes := ParseWorkflowToNodes(item.group.value);
          nodes := nodes + groupNodes;
        } else if item.itemType == "N" && item.content.Some? {
          var node := ParseContentToNode(item, item.content.value, NextId(w, i));
          nodes := nodes[node.id := node];
        } else if item.itemType == "S" && item.branches.Some? {
          var branchNodes := ParseBranchesToNodes(item);
          nodes := nodes + branchNodes;
        }
      }
      nodes := nodes["end" := EndNode()];
    }

    method ParseContentToNode(item: WorkflowItem, c: Content, nextId: Option<string>) returns (node: ChatNode)
      ensures node == ContentNode(codes, keywordTable, item, c, nextId)
      ensures node.id == item.id
    {
      var text := if Truthy(c.navText) then c.navText.value else OrElse(item.title, "");
      node := ChatNode(item.id, Message, text, nextId, [], None, None);
      if c.firstField.Some? {
        var f := c.firstField.value;
        if f.fieldType == "CodeButtonField" || f.fieldType == "CodeButtonFeild" {
          node := node.(kind := ChoiceNode);
          node := node.(choices := ChoicesFromCode(codes, keywordTable, f.codeId, nextId));
        } else if f.fieldType == "FormInputTextField" {
          node := node.(kind := Input, field := f.field, nodeLabel := f.fieldLabel);
        } else if f.fieldType == "DomainDataWithLabelDisplayField" || f.fieldType == "DomainDataWithLabelDisplayFeild" {
          node := node.(kind := Confirmation, field := f.field, nodeLabel := f.fieldLabel);
        }
      }
    }

    method ParseBranchesToNodes(item: WorkflowItem) returns (nodes: Nodes)
      requires item.branches.Some?
      ensures nodes == BranchesNodes(codes, keywordTable, item, |item.branches.value.list|)
      decreases item, |item.branches.value.list| + 1
    {
      nodes := map[];
      var branches := item.branches.value.list;
      for k := 0 to |branches|
        invariant nodes == BranchesNodes(codes, keywordTable, item, k)
      {
        if branches[k].workflow.Some? {
          var branchNodes := ParseWorkflowToNodes(branches[k].workflow.value);
          nodes := nodes + branchNodes;
        }
      }
    }
  }

  // ---------------------------------------------------------------------------------------------
  // Properties
  // ---------------------------------------------------------------------------------------------

  /** Every catalog has `start` and `end`, and `end` is the closing message with no successor,
      whatever the groups and switches merged in. */
  lemma StartAndEnd(codes: Codes, table: KeywordTable, w: Workflow)
    ensures "start" in WorkflowNodes(codes, table, w) && "end" in WorkflowNodes(codes, table, w)
    ensures WorkflowNodes(codes, table, w)["end"] == EndNode() && EndNode().next.None?
  {
    ItemsKeepStart(codes, table, w, |w.items|);
  }

  lemma {:induction false} ItemsKeepStart(codes: Codes, table: KeywordTable, w: Workflow, n: nat)
    requires n <= |w.items|
    ensures "start" in ItemsNodes(codes, table, w, n)
  {
    if n > 0 {
      ItemsKeepStart(codes, table, w, n - 1);
    }
  }

  /** An item that is not a group with a group, a node with content or a switch with branches
      adds nothing. */
  lemma InertItem(codes: Codes, table: KeywordTable, nodes: Nodes, w: Workflow, i: nat)
    requires i < |w.items|
    requires !(w.items[i].itemType == "G" && w.items[i].group.Some?)
    requires !(w.items[i].itemType == "N" && w.items[i].content.Some?)
    requires !(w.items[i].itemType == "S" && w.items[i].branches.Some?)
    ensures AddItem(codes, table, nodes, w, i) == nodes
  {
  }

  /** A workflow made of node items only. */
  predicate Flat(w: Workflow) {
    forall i :: 0 <= i < |w.items| ==> w.items[i].itemType == "N" && w.items[i].content.Some?
  }

  /** In a workflow without groups or switches, `start` leads to the first item (or to `end`),
      and the item at `i` is the node of its content, leading to the following sibling, unless
      a later item reuses its id. */
  lemma FlatWorkflow(codes: Codes, table: KeywordTable, w: Workflow, i: nat)
    requires Flat(w) && i < |w.items|
    requires forall j :: 0 <= j < |w.items| ==> w.items[j].id != "start" && w.items[j].id != "end"
    requires forall j :: i < j < |w.items| ==> w.items[j].id != w.items[i].id
    ensures var nodes := WorkflowNodes(codes, table, w);
      "start" in nodes && nodes["start"] == StartNode(w)
      && w.items[i].id in nodes
      && nodes[w.items[i].id] == ContentNode(codes, table, w.items[i], w.items[i].content.value, NextId(w, i))
  {
    FlatStart(codes, table, w, |w.items|);
    FlatItem(codes, table, w, i, |w.items|);
  }

  lemma {:induction false} FlatStart(codes: Codes, table: KeywordTable, w: Workflow, n: nat)
    requires Flat(w) && n <= |w.items|
    requires forall j :: 0 <= j < |w.items| ==> w.items[j].id != "start"
    ensures "start" in ItemsNodes(codes, table, w, n) && ItemsNodes(codes, table, w, n)["start"] == StartNode(w)
  {
    if n > 0 {
      FlatStart(codes, table, w, n - 1);
      assert w.items[n - 1].itemType == "N" && w.items[n - 1].content.Some?;
    }
  }

  lemma {:induction false} FlatItem(codes: Codes, table: KeywordTable, w: Workflow, i: nat, n: nat)
    requires Flat(w) && i < n <= |w.items|
    requires forall j :: i < j < |w.items| ==> w.items[j].id != w.items[i].id
    ensures var nodes := ItemsNodes(codes, table, w, n);
      w.items[i].id in nodes
      && nodes[w.items[i].id] == ContentNode(codes, table, w.items[i], w.items[i].content.value, NextId(w, i))
  {
    assert w.items[n - 1].itemType == "N" && w.items[n - 1].content.Some?;
    if n - 1 > i {
      FlatItem(codes, table, w, i, n - 1);
    }
  }

  /** A group merged last replaces the outer `start` with the group's own `start`, which leads
      into the group rather than to the group item. */
  lemma GroupStartWins(codes: Codes, table: KeywordTable, w: Workflow)
    requires |w.items| > 0
    requires w.items[|w.items| - 1].itemType == "G" && w.items[|w.items| - 1].group.Some?
    ensures var inner := WorkflowNodes(codes, table, w.items[|w.items| - 1].group.value);
      "start" in inner && "start" in WorkflowNodes(codes, table, w)
      && WorkflowNodes(codes, table, w)["start"] == inner["start"]
  {
    var n := |w.items|;
    var inner := WorkflowNodes(codes, table, w.items[n - 1].group.value);
    StartAndEnd(codes, table, w.items[n - 1].group.value);
    assert ItemsNodes(codes, table, w, n) == ItemsNodes(codes, table, w, n - 1) + inner;
  }

  /** The node type comes from the first customised field alone; only a code-button field gets
      choices, and only input and display fields get a field name and label. */
  lemma NodeKinds(codes: Codes, table: KeywordTable, item: WorkflowItem, c: Content, nextId: Option<string>)
    ensures var node := ContentNode(codes, table, item, c, nextId);
      node.id == item.id && node.next == nextId
      && (node.kind == ChoiceNode <==>
            c.firstField.Some? && c.firstField.value.fieldType in {"CodeButtonField", "CodeButtonFeild"})
      && (node.kind == Input <==> c.firstField.Some? && c.firstField.value.fieldType == "FormInputTextField")
      && (node.kind == Confirmation <==>
            c.firstField.Some?
            && c.firstField.value.fieldType in {"DomainDataWithLabelDisplayField", "DomainDataWithLabelDisplayFeild"})
      && (node.kind != ChoiceNode ==> node.choices == [])
      && (node.kind == Message ==> node.field.None? && node.nodeLabel.None?)
      && (node.kind == Input || node.kind == Confirmation ==>
            node.field == c.firstField.value.field && node.nodeLabel == c.firstField.value.fieldLabel)
  {
  }

  /** One choice per code item, in order: its value as id, its label as text, the label and its
      synonyms as keywords, no exclude keywords, and the node's successor (or `end`) as target.
      An unknown code id gives no choices. */
  lemma ChoicesFromCodeItems(codes: Codes, table: KeywordTable, codeId: Option<string>, nextId: Option<string>)
    ensures var r := ChoicesFromCode(codes, table, codeId, nextId);
      (codeId.None? || codeId.value !in codes ==> r == [])
      && (codeId.Some? && codeId.value in codes ==>
            |r| == |codes[codeId.value]|
            && forall k :: 0 <= k < |r| ==>
                 var item := codes[codeId.value][k];
                 r[k] == Choice(item.value, item.itemLabel, KeywordsFor(table, item.itemLabel), [], OrElse(nextId, "end")))
  {
    if codeId.Some? && codeId.value in codes {
      ChoicesOfItems(table, codes[codeId.value], OrElse(nextId, "end"));
    }
  }

  lemma {:induction false} ChoicesOfItems(table: KeywordTable, items: seq<CodeItem>, next: string)
    ensures var r := ChoicesOf(table, items, next);
      forall k :: 0 <= k < |r| ==>
        r[k] == Choice(items[k].value, items[k].itemLabel, KeywordsFor(table, items[k].itemLabel), [], next)
  {
    if items != [] {
      ChoicesOfItems(table, items[1..], next);
    }
  }

  /** The label always comes first; synonyms follow exactly when the label is a key. */
  lemma KeywordsLabelFirst(table: KeywordTable, text: string)
    ensures var r := KeywordsFor(table, text);
      r[0] == text && (|r| > 1 ==> text in table) && (text in table ==> r[1..] == table[text])
  {
  }

  /** Looking up a code id after `initializeCodes`: the items of the last definition with that id. */
  lemma {:induction false} CodesLastWins(defs: seq<CodeDef>, k: nat)
    requires k < |defs|
    requires forall j :: k < j < |defs| ==> defs[j].codeid != defs[k].codeid
    ensures defs[k].codeid in CodesOf(defs) && CodesOf(defs)[defs[k].codeid] == defs[k].items
  {
    if k < |defs| - 1 {
      CodesLastWins(defs[..|defs| - 1], k);
    }
  }

  /** Only defined code ids are known. */
  lemma {:induction false} CodesDefined(defs: seq<CodeDef>, id: string)
    requires id in CodesOf(defs)
    ensures exists k :: 0 <= k < |defs| && defs[k].codeid == id
  {
    var last := |defs| - 1;
    if defs[last].codeid != id {
      CodesDefined(defs[..last], id);
      var k :| 0 <= k < last && defs[..last][k].codeid == id;
      assert defs[k].codeid == id;
    }
  }
}
