/** The step bar above the chat (src/components/Chat/ProgressNavigation.tsx): the main path of the
    transaction the user is in, and which of its steps are done and which is current. */
module ProgressNavigation {
  import opened Wrappers
  import opened Types

  /** A step of the path before it is marked. */
  datatype Step = Step(id: string, caption: string)

  /** A marked step as the bar draws it. */
  datatype ProgressStep = ProgressStep(id: string, caption: string, completed: bool, current: bool)

  /** The label each step id is shown with; an id carries the same label on every path. */
  function StepLabel(id: string, language: Language): string {
    var ja := language == Ja;
    match id
    case "start" => if ja then "開始" else "Start"
    case "welcome" => if ja then "受付" else "Welcome"
    case "transaction_type" => if ja then "取引選択" else "Transaction"
    case "deposit_amount" => if ja then "預入金額" else "Deposit Amount"
    case "payout_amount" => if ja then "払出金額" else "Withdrawal Amount"
    case "transfer_country" => if ja then "振込先国" else "Destination"
    case "financial_institution" => if ja then "金融機関" else "Bank"
    case "account_number" => if ja then "口座番号" else "Account"
    case "transfer_amount" => if ja then "振込金額" else "Amount"
    case "transaction_complete" => if ja then "処理中" else "Processing"
    case "qr_code_display" => if ja then "完了" else "Complete"
    case _ => if ja then "確認" else "Confirm"
  }

  function Ids(steps: seq<Step>): (r: seq<string>)
    ensures |r| == |steps|
    ensures forall i :: 0 <= i < |steps| ==> r[i] == steps[i].id
  {
    if steps == [] then [] else [steps[0].id] + Ids(steps[1..])
  }

  predicate Distinct(ids: seq<string>) {
    forall i, j :: 0 <= i < j < |ids| ==> ids[i] != ids[j]
  }

  predicate Labelled(steps: seq<Step>, language: Language) {
    forall i :: 0 <= i < |steps| ==> steps[i].caption == StepLabel(steps[i].id, language)
  }

  /** `userInputs.transaction_type`: undefined when the key is missing. */
  function TransactionType(userInputs: map<string, string>): Option<string> {
    if "transaction_type" in userInputs then Some(userInputs["transaction_type"]) else None
  }

  /** The steps a transaction type puts between `transaction_type` and `transaction_complete`. */
  function MiddleIds(transactionType: Option<string>): seq<string> {
    if transactionType == Some("deposit") then ["deposit_amount", "deposit_confirmation"]
    else if transactionType == Some("payout") then ["payout_amount", "payout_confirmation"]
    else if transactionType == Some("transfer") then
      ["transfer_country", "financial_institution", "account_number", "transfer_amount", "transfer_confirmation"]
    else []
  }

  /** Steps for the given ids, each under its label. */
  function StepsOf(ids: seq<string>, language: Language): (r: seq<Step>)
    ensures Ids(r) == ids
    ensures Labelled(r, language)
  {
    var r := seq(|ids|, i requires 0 <= i < |ids| => Step(ids[i], StepLabel(ids[i], language)));
    assert Ids(r) == ids;
    r
  }

  /** `buildMainProgressPath`: the three opening steps, the steps of the chosen transaction, and
      the two closing steps, each under its label. */
  method BuildMainProgressPath(language: Language, userInputs: map<string, string>) returns (path: seq<Step>)
    ensures Ids(path) == MainIds(TransactionType(userInputs))
    ensures Distinct(Ids(path))
    ensures Labelled(path, language)
  {
    path := StepsOf(["start", "welcome", "transaction_type"], language);
    var transactionType := TransactionType(userInputs);
    if transactionType == Some("deposit") {
      path := Push(path, ["deposit_amount", "deposit_confirmation"], language);
    } else if transactionType == Some("payout") {
      path := Push(path, ["payout_amount", "payout_confirmation"], language);
    } else if transactionType == Some("transfer") {
      path := Push(path, ["transfer_country", "financial_institution", "account_number",
                          "transfer_amount", "transfer_confirmation"], language);
    }
    assert Ids(path) == ["start", "welcome", "transaction_type"] + MiddleIds(transactionType);
    path := Push(path, ["transaction_complete", "qr_code_display"], language);
    MainIdsDistinct(transactionType);
  }

  /** Appends one labelled step for each of the given ids. */
  method Push(path: seq<Step>, ids: seq<string>, language: Language) returns (r: seq<Step>)
    requires Labelled(path, language)
    ensures Ids(r) == Ids(path) + ids
    ensures Labelled(r, language)
  {
    var added := StepsOf(ids, language);
    r := path + added;
    assert Ids(r) == Ids(path) + Ids(added);
  }

  /** The fixed path drawn when there is no node data. */
  function FallbackPath(language: Language): (r: seq<Step>)
    ensures Ids(r) == ["start", "welcome", "transaction_type", "qr_code_display"]
    ensures Distinct(Ids(r))
    ensures Labelled(r, language)
  {
    StepsOf(["start", "welcome", "transaction_type", "qr_code_display"], language)
  }

  /** The ids of the main path. */
  function MainIds(transactionType: Option<string>): seq<string> {
    ["start", "welcome", "transaction_type"] + MiddleIds(transactionType)
    + ["transaction_complete", "qr_code_display"]
  }

  /** The main path has no repeated id, whatever the transaction, so `findIndex` finds the one
      step that is the current node; deposit and payout add two steps, transfer five. */
  lemma MainIdsDistinct(transactionType: Option<string>)
    ensures Distinct(MainIds(transactionType))
    ensures |MainIds(transactionType)| == 5 + (
      if transactionType == Some("deposit") || transactionType == Some("payout") then 2
      else if transactionType == Some("transfer") then 5 else 0)
  {
  }

  /** No two steps of the path share an id. */
  predicate Unique(path: seq<Step>) {
    forall i, j :: 0 <= i < j < |path| ==> path[i].id != path[j].id
  }

  lemma UniqueOfDistinct(path: seq<Step>)
    requires Distinct(Ids(path))
    ensures Unique(path)
  {
    var ids := Ids(path);
    forall i, j | 0 <= i < j < |path|
      ensures path[i].id != path[j].id
    {
      assert ids[i] != ids[j];
    }
  }

  /** The first position whose step has id `x`, or -1. */
  function FindIndex(path: seq<Step>, x: string): (r: int)
    ensures -1 <= r < |path|
    ensures r == -1 <==> forall j :: 0 <= j < |path| ==> path[j].id != x
    ensures r >= 0 ==> path[r].id == x && forall j :: 0 <= j < r ==> path[j].id != x
  {
    if path == [] then -1
    else if path[0].id == x then 0
    else
      var k := FindIndex(path[1..], x);
      assert forall j :: 1 <= j < |path| ==> path[j] == path[1..][j - 1];
      if k == -1 then -1 else k + 1
  }

  /** The `map` in `getSteps`: each step is completed when it lies before the current node's
      position and current when its id is the current node's. */
  function Mark(path: seq<Step>, currentNodeId: string): (r: seq<ProgressStep>)
    ensures |r| == |path|
    ensures forall i :: 0 <= i < |path| ==>
      r[i].id == path[i].id && r[i].caption == path[i].caption
      && r[i].completed == (i < FindIndex(path, currentNodeId))
      && r[i].current == (path[i].id == currentNodeId)
  {
    var at := FindIndex(path, currentNodeId);
    seq(|path|, i requires 0 <= i < |path| =>
      ProgressStep(path[i].id, path[i].caption, i < at, path[i].id == currentNodeId))
  }

  /** On a path without repeated ids that holds the current node at `k`, the completed steps
      are exactly those before `k`. */
  lemma MarkCompletedOnPath(path: seq<Step>, currentNodeId: string, k: nat)
    requires Unique(path) && k < |path| && path[k].id == currentNodeId
    ensures forall i :: 0 <= i < |path| ==> Mark(path, currentNodeId)[i].completed == (i < k)
  {
    var at := FindIndex(path, currentNodeId);
    assert at >= 0 && path[at].id == path[k].id;
  }

  /** On a path without repeated ids that holds the current node at `k`, `k` is the only
      current step. */
  lemma MarkCurrentOnPath(path: seq<Step>, currentNodeId: string, k: nat)
    requires Unique(path) && k < |path| && path[k].id == currentNodeId
    ensures forall i :: 0 <= i < |path| ==> Mark(path, currentNodeId)[i].current == (i == k)
  {
    forall i | 0 <= i < |path|
      ensures (path[i].id == currentNodeId) == (i == k)
    {
      if i < k {
        assert path[i].id != path[k].id;
      } else if i > k {
        assert path[k].id != path[i].id;
      }
    }
  }

  /** A current node that is not on the path marks nothing. */
  lemma MarkOffPath(path: seq<Step>, currentNodeId: string)
    requires forall i :: 0 <= i < |path| ==> path[i].id != currentNodeId
    ensures forall i :: 0 <= i < |path| ==>
      !Mark(path, currentNodeId)[i].completed && !Mark(path, currentNodeId)[i].current
  {
  }

  /** `getSteps`: the main path when the language has node data, the fixed path otherwise, marked
      against the current node. */
  method GetSteps(hasNodes: bool, language: Language, currentNodeId: string, userInputs: map<string, string>)
    returns (steps: seq<ProgressStep>, path: seq<Step>)
    ensures !hasNodes ==> path == FallbackPath(language)
    ensures hasNodes ==>
      Ids(path) == MainIds(TransactionType(userInputs))
    ensures Unique(path) && Labelled(path, language)
    ensures steps == Mark(path, currentNodeId)
  {
    if !hasNodes {
      path := FallbackPath(language);
    } else {
      path := BuildMainProgressPath(language, userInputs);
    }
    UniqueOfDistinct(path);
    steps := Mark(path, currentNodeId);
  }
}
