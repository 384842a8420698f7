/** The bookkeeping around prompt generation (src/services/voiceFileGenerator.ts): the audio-key
    check and sanitiser, the summary report of a batch and the save counters. Speech synthesis,
    text optimisation and timing are outside the model; their outcomes arrive in the results. */
module VoiceFileGenerator {
  import opened Wrappers
  import opened Strings
  import opened Normalization

  /** `[a-zA-Z0-9]` */
  predicate IsAsciiAlnum(c: char) {
    ('a' <= c <= 'z') || ('A' <= c <= 'Z') || ('0' <= c <= '9')
  }

  /** `[a-zA-Z0-9_-]` */
  predicate IsKeyChar(c: char) {
    IsAsciiAlnum(c) || c == '_' || c == '-'
  }

  /** The key pattern, one or more key characters: one key character, then either the end or another match. */
  predicate MatchesKeyPattern(s: string) {
    s != [] && IsKeyChar(s[0]) && (|s| == 1 || MatchesKeyPattern(s[1..]))
  }

  /** `validateAudioKey` */
  predicate ValidateAudioKey(audioKey: string): (r: bool)
    ensures r ==> 1 <= |audioKey| <= 50 && forall i :: 0 <= i < |audioKey| ==> IsKeyChar(audioKey[i])
  {
    KeyPatternMeans(audioKey);
    MatchesKeyPattern(audioKey) && |audioKey| > 0 && |audioKey| <= 50
  }

  /** A key passes exactly when it has 1 to 50 characters, each a letter, digit, `_` or `-`. */
  lemma {:induction false} ValidateAudioKeyMeans(audioKey: string)
    ensures ValidateAudioKey(audioKey)
        <==> 1 <= |audioKey| <= 50 && forall i :: 0 <= i < |audioKey| ==> IsKeyChar(audioKey[i])
  {
    KeyPatternMeans(audioKey);
  }

  lemma {:induction false} KeyPatternMeans(s: string)
    ensures MatchesKeyPattern(s) <==> s != [] && forall i :: 0 <= i < |s| ==> IsKeyChar(s[i])
    decreases |s|
  {
    if |s| > 1 {
      KeyPatternMeans(s[1..]);
      assert forall i :: 1 <= i < |s| ==> s[i] == s[1..][i - 1];
    }
  }

  /** One character of `generateAudioKey`: lowered, then `_` unless it is an ASCII letter or digit. */
  function KeyChar(c: char): (r: char)
    ensures r == '_' || ('a' <= r <= 'z') || ('0' <= r <= '9')
  {
    var d := LowerChar(c);
    if IsAsciiAlnum(d) then d else '_'
  }

  /** The key of a node id: lower-cased, with every character that is not an ASCII letter or
      digit replaced by `_`, each character on its own, so the key has the node id's length. */
  function GenerateAudioKey(nodeId: string): (r: string)
    ensures |r| == |nodeId|
    ensures forall i :: 0 <= i < |r| ==> r[i] == KeyChar(nodeId[i])
  {
    seq(|nodeId|, i requires 0 <= i < |nodeId| => KeyChar(nodeId[i]))
  }

  /** `[a-z0-9_]`: what a generated key is made of. */
  predicate IsGeneratedChar(c: char) {
    ('a' <= c <= 'z') || ('0' <= c <= '9') || c == '_'
  }

  /** A generated key holds only lower-case letters, digits and underscores. */
  lemma GeneratedKeyChars(nodeId: string)
    ensures forall i :: 0 <= i < |nodeId| ==> IsGeneratedChar(GenerateAudioKey(nodeId)[i])
  {
  }

  /** The characters `generateAudioKey` leaves alone are exactly `[a-z0-9_]`. */
  lemma KeyCharFixed(c: char)
    ensures KeyChar(c) == c <==> IsGeneratedChar(c)
  {
  }

  /** A node id is its own key exactly when it is made of `[a-z0-9_]`. */
  lemma GenerateAudioKeyFixed(nodeId: string)
    ensures GenerateAudioKey(nodeId) == nodeId <==> forall i :: 0 <= i < |nodeId| ==> IsGeneratedChar(nodeId[i])
  {
    var r := GenerateAudioKey(nodeId);
    forall i | 0 <= i < |nodeId|
      ensures r[i] == nodeId[i] <==> IsGeneratedChar(nodeId[i])
    {
      KeyCharFixed(nodeId[i]);
    }
    if forall i :: 0 <= i < |nodeId| ==> IsGeneratedChar(nodeId[i]) {
      assert forall i :: 0 <= i < |nodeId| ==> r[i] == nodeId[i];
    }
  }

  /** Generating a key from a key changes nothing. */
  lemma GenerateAudioKeyIdempotent(nodeId: string)
    ensures GenerateAudioKey(GenerateAudioKey(nodeId)) == GenerateAudioKey(nodeId)
  {
    GeneratedKeyChars(nodeId);
    GenerateAudioKeyFixed(GenerateAudioKey(nodeId));
  }

  /** A generated key of 1 to 50 characters passes `validateAudioKey`. */
  lemma GeneratedKeyValid(nodeId: string)
    requires 1 <= |nodeId| <= 50
    ensures ValidateAudioKey(GenerateAudioKey(nodeId))
  {
    var r := GenerateAudioKey(nodeId);
    GeneratedKeyChars(nodeId);
    assert forall i :: 0 <= i < |r| ==> IsKeyChar(r[i]);
    ValidateAudioKeyMeans(r);
  }

  /** `VoiceGenerationResult`; each optional property is an `Option`. */
  datatype VoiceGenerationResult = VoiceGenerationResult(
    nodeId: string,
    audioKey: string,
    originalText: string,
    optimizedText: string,
    audioUrl: Option<string>,
    error: Option<string>,
    duration: Option<int>,
    fileSize: Option<int>)

  datatype ErrorEntry = ErrorEntry(nodeId: string, error: string)

  /** What `generateReport` returns. */
  datatype Report = Report(
    total: nat,
    successful: nat,
    failed: nat,
    totalDuration: int,
    estimatedSize: int,
    errors: seq<ErrorEntry>)

  /** `r.error` is truthy: the entry failed. An empty message is falsy and counts as success. */
  predicate Failed(r: VoiceGenerationResult) {
    Truthy(r.error)
  }

  /** The entries that carry an error, in order. */
  function FailedEntries(results: seq<VoiceGenerationResult>): (r: seq<VoiceGenerationResult>)
    ensures |r| <= |results|
    ensures forall j :: 0 <= j < |r| ==> Failed(r[j]) && r[j] in results
  {
    if results == [] then []
    else (if Failed(results[0]) then [results[0]] else []) + FailedEntries(results[1..])
  }

  /** Every failed entry is kept by the filter. */
  lemma {:induction false} FailedEntriesComplete(results: seq<VoiceGenerationResult>, i: nat)
    requires i < |results| && Failed(results[i])
    ensures results[i] in FailedEntries(results)
  {
    if i > 0 {
      FailedEntriesComplete(results[1..], i - 1);
    }
  }

  /** The number of entries without an error. */
  function CountSuccessful(results: seq<VoiceGenerationResult>): nat {
    if results == [] then 0
    else (if Failed(results[0]) then 0 else 1) + CountSuccessful(results[1..])
  }

  /** The two filters of `generateReport` split the results between them. */
  lemma {:induction false} SuccessfulAndFailed(results: seq<VoiceGenerationResult>)
    ensures CountSuccessful(results) + |FailedEntries(results)| == |results|
  {
    if results != [] {
      SuccessfulAndFailed(results[1..]);
    }
  }

  /** The logical-or default 0 for an optional number (0 when absent). */
  function OrZero(x: Option<int>): int {
    if x.Some? then x.value else 0
  }

  /** The sum of the durations, an absent one counting 0. */
  function TotalDuration(results: seq<VoiceGenerationResult>): int {
    if results == [] then 0
    else TotalDuration(results[..|results| - 1]) + OrZero(results[|results| - 1].duration)
  }

  /** The sum of the file sizes, an absent one counting 0. */
  function EstimatedSize(results: seq<VoiceGenerationResult>): int {
    if results == [] then 0
    else EstimatedSize(results[..|results| - 1]) + OrZero(results[|results| - 1].fileSize)
  }

  /** The totals of a batch are the totals of its parts: a missing duration or size adds 0. */
  lemma {:induction false} TotalsOfParts(a: seq<VoiceGenerationResult>, b: seq<VoiceGenerationResult>)
    ensures TotalDuration(a + b) == TotalDuration(a) + TotalDuration(b)
    ensures EstimatedSize(a + b) == EstimatedSize(a) + EstimatedSize(b)
    decreases |b|
  {
    if b != [] {
      var b' := b[..|b| - 1];
      TotalsOfParts(a, b');
      assert (a + b)[..|a + b| - 1] == a + b';
      assert (a + b)[|a + b| - 1] == b[|b| - 1];
    } else {
      assert a + b == a;
    }
  }

  /** A batch whose entries all lack a duration and a size totals 0 on both. */
  lemma {:induction false} TotalsOfMissing(results: seq<VoiceGenerationResult>)
    requires forall j :: 0 <= j < |results| ==> results[j].duration.None? && results[j].fileSize.None?
    ensures TotalDuration(results) == 0 && EstimatedSize(results) == 0
  {
    if results != [] {
      TotalsOfMissing(results[..|results| - 1]);
    }
  }

  /** `generateReport` */
  function GenerateReport(results: seq<VoiceGenerationResult>): (r: Report)
    ensures r.total == |results| && r.successful + r.failed == r.total
    ensures r.failed == |r.errors| == |FailedEntries(results)|
    ensures forall j :: 0 <= j < |r.errors| ==>
      r.errors[j] == ErrorEntry(FailedEntries(results)[j].nodeId, FailedEntries(results)[j].error.value)
    ensures r.totalDuration == TotalDuration(results) && r.estimatedSize == EstimatedSize(results)
  {
    var failed := FailedEntries(results);
    SuccessfulAndFailed(results);
    Report(|results|, CountSuccessful(results), |failed|, TotalDuration(results), EstimatedSize(results),
      seq(|failed|, j requires 0 <= j < |failed| => ErrorEntry(failed[j].nodeId, failed[j].error.value)))
  }

  /** An entry `saveGeneratedFiles` saves: it has a non-empty URL and no error. */
  predicate Savable(r: VoiceGenerationResult) {
    Truthy(r.audioUrl) && !Truthy(r.error)
  }

  function CountSavable(results: seq<VoiceGenerationResult>): (r: nat)
    ensures r <= |results|
  {
    if results == [] then 0
    else CountSavable(results[..|results| - 1]) + (if Savable(results[|results| - 1]) then 1 else 0)
  }

  /** Only successful entries are saved, so no more are saved than the report counts successful. */
  lemma {:induction false} SavedAtMostSuccessful(results: seq<VoiceGenerationResult>)
    ensures CountSavable(results) <= GenerateReport(results).successful
  {
    SavableBelowSuccessful(results);
  }

  lemma {:induction false} SavableBelowSuccessful(results: seq<VoiceGenerationResult>)
    ensures CountSavable(results) <= CountSuccessful(results)
    decreases |results|
  {
    if results != [] {
      var init := results[..|results| - 1];
      var last := results[|results| - 1];
      SavableBelowSuccessful(init);
      SuccessfulOfExtended(init, last);
      assert init + [last] == results;
    }
  }

  /** `CountSuccessful` read from the back. */
  lemma {:induction false} SuccessfulOfExtended(init: seq<VoiceGenerationResult>, last: VoiceGenerationResult)
    ensures CountSuccessful(init + [last]) == CountSuccessful(init) + (if Failed(last) then 0 else 1)
    decreases |init|
  {
    if init != [] {
      SuccessfulOfExtended(init[1..], last);
      assert (init + [last])[1..] == init[1..] + [last];
    }
  }

  /** `saveGeneratedFiles`: one pass over the results counting the entries with a url and no
      error as saved and every other entry as failed. */
  method SaveGeneratedFiles(results: seq<VoiceGenerationResult>) returns (saved: nat, failed: nat)
    ensures saved == CountSavable(results)
    ensures saved + failed == |results|
  {
    saved, failed := 0, 0;
    var i := 0;
    while i < |results|
      invariant i <= |results|
      invariant saved == CountSavable(results[..i]) && saved + failed == i
    {
      assert results[..i + 1][..i] == results[..i];
      if Truthy(results[i].audioUrl) && !Truthy(results[i].error) {
        saved := saved + 1;
      } else {
        failed := failed + 1;
      }
      i := i + 1;
    }
    assert results[..i] == results;
  }
}
