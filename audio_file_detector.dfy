/** Naming and choice of recorded prompts (src/services/audioFileDetector.ts). A prompt for node
    `n` recorded by speaker `s` is the file `n_s.wav`; a prompt without speaker is `n.wav`. The
    HEAD request that tells whether a file is served is an oracle passed in. */
module AudioFileDetector {
  import opened Wrappers
  import opened Strings
  import opened Types

  /** An entry of the detector's list; `fileExists` is the `exists` flag. */
  datatype AudioFileInfo = AudioFileInfo(
    nodeId: string,
    speaker: string,
    filename: string,
    url: string,
    fileExists: bool)

  // ---------------------------------------------------------------------------------------------
  // File names
  // ---------------------------------------------------------------------------------------------

  function SpeakerFileName(nodeId: string, speaker: string): string {
    nodeId + "_" + speaker + ".wav"
  }

  function PlainFileName(nodeId: string): string {
    nodeId + ".wav"
  }

  /** `/audio/${language}/${filename}` */
  function AudioUrl(language: Language, filename: string): string {
    "/audio/" + Code(language) + "/" + filename
  }

  /** The characters the regular-expression `.` does not match. */
  predicate IsLineTerminator(c: char) {
    c == '\n' || c == '\r' || c == '\U{2028}' || c == '\U{2029}'
  }

  predicate DotChars(s: string) {
    forall i :: 0 <= i < |s| ==> !IsLineTerminator(s[i])
  }

  /** `s` is `_`, one or more ASCII digits, `.wav`. */
  predicate SpeakerSuffix(s: string) {
    |s| >= 6 && s[0] == '_' && EndsWith(s, ".wav") && AllDigits(s[1..|s| - 4])
  }

  /** `filename` is `p_D.wav` for a speaker `D` of one or more digits. */
  predicate SpeakerForm(filename: string, p: string, d: string) {
    d != [] && AllDigits(d) && filename == p + "_" + d + ".wav"
  }

  // ---------------------------------------------------------------------------------------------
  // extractSpeakerFromFilename: /_(\d+)\.wav$/
  // ---------------------------------------------------------------------------------------------

  /** The length of the run of digits that ends `s`. */
  function TrailingDigits(s: string): (r: nat)
    ensures r <= |s|
    ensures AllDigits(s[|s| - r..])
    ensures r < |s| ==> !IsDigit(s[|s| - r - 1])
  {
    if s == [] || !IsDigit(s[|s| - 1]) then 0
    else
      var r := 1 + TrailingDigits(s[..|s| - 1]);
      assert s[|s| - r..] == s[..|s| - 1][|s| - r..] + [s[|s| - 1]];
      r
  }

  /** The speaker of a file name: the digits between the last `_` and a final `.wav`, or `none`. */
  function ExtractSpeaker(filename: string): (r: string)
    ensures r == "none" || exists p :: SpeakerForm(filename, p, r)
  {
    if !EndsWith(filename, ".wav") then "none"
    else
      var body := filename[..|filename| - 4];
      var d := TrailingDigits(body);
      if 0 < d < |body| && body[|body| - d - 1] == '_' then
        var p := body[..|body| - d - 1];
        assert filename == p + "_" + body[|body| - d..] + ".wav";
        assert SpeakerForm(filename, p, body[|body| - d..]);
        body[|body| - d..]
      else "none"
  }

  /** A name of the form `p_D.wav` yields the speaker `D`, whatever `p` holds. */
  lemma ExtractSpeakerOf(filename: string, p: string, d: string)
    requires SpeakerForm(filename, p, d)
    ensures ExtractSpeaker(filename) == d
  {
    var body := filename[..|filename| - 4];
    assert body == (p + "_") + d;
    TrailingDigitsAfter(p + "_", d);
  }

  lemma {:induction false} TrailingDigitsAfter(x: string, d: string)
    requires x != [] && !IsDigit(x[|x| - 1]) && AllDigits(d)
    ensures TrailingDigits(x + d) == |d|
  {
    var s := x + d;
    if d == [] {
      assert s == x;
    } else {
      assert s[..|s| - 1] == x + d[..|d| - 1];
      TrailingDigitsAfter(x, d[..|d| - 1]);
    }
  }

  // ---------------------------------------------------------------------------------------------
  // extractNodeIdFromFilename: /^(.+?)(?:_\d+)?\.wav$/, else the first `.wav` removed
  // ---------------------------------------------------------------------------------------------

  /** The lazy group can end after `n` characters: they are all matched by `.`, and what follows
      is `_D.wav` or `.wav`. */
  predicate MatchesAt(filename: string, n: nat) {
    1 <= n <= |filename| && DotChars(filename[..n])
    && (SpeakerSuffix(filename[n..]) || filename[n..] == ".wav")
  }

  /** The shortest group length from `n` on, as the lazy quantifier tries them. */
  function FirstMatch(filename: string, n: nat): (r: Option<nat>)
    requires n >= 1
    decreases |filename| + 1 - n
    ensures r.Some? ==>
      n <= r.value && MatchesAt(filename, r.value)
      && forall j :: n <= j < r.value ==> !MatchesAt(filename, j)
    ensures r.None? ==> forall j :: n <= j ==> !MatchesAt(filename, j)
  {
    if n > |filename| then None
    else if MatchesAt(filename, n) then Some(n)
    else FirstMatch(filename, n + 1)
  }

  /** The node id of a file name: the shortest non-empty prefix followed by an optional
      `_<digits>` and a final `.wav`; a name the pattern does not match loses its first `.wav`. */
  function ExtractNodeId(filename: string): (r: string)
    ensures FirstMatch(filename, 1).Some? ==> r == filename[..FirstMatch(filename, 1).value]
    ensures FirstMatch(filename, 1).None? ==> r == RemoveFirst(filename, ".wav")
  {
    match FirstMatch(filename, 1)
    case Some(n) => filename[..n]
    case None => RemoveFirst(filename, ".wav")
  }

  /** The first match is the one at `m` when no shorter group matches. */
  lemma FirstMatchIs(filename: string, m: nat)
    requires MatchesAt(filename, m)
    requires forall j :: 1 <= j < m ==> !MatchesAt(filename, j)
    ensures FirstMatch(filename, 1) == Some(m)
  {
  }

  /** `n_s.wav` for a node id without line breaks and a speaker of digits reads back as node `n`
      and speaker `s`: the names the recorder writes parse to what it was given. */
  lemma SpeakerFileRoundTrip(nodeId: string, speaker: string)
    requires nodeId != [] && DotChars(nodeId)
    requires speaker != [] && AllDigits(speaker)
    ensures ExtractNodeId(SpeakerFileName(nodeId, speaker)) == nodeId
    ensures ExtractSpeaker(SpeakerFileName(nodeId, speaker)) == speaker
  {
    var f := SpeakerFileName(nodeId, speaker);
    var n := |nodeId|;
    assert f[..n] == nodeId;
    assert f[n..] == "_" + speaker + ".wav";
    assert f[n..][1..|f[n..]| - 4] == speaker;
    assert MatchesAt(f, n);
    forall j | 1 <= j < n
      ensures !MatchesAt(f, j)
    {
      var rest := f[j..];
      assert |rest| > 4;
      assert rest[n - j] == '_';
      assert 1 <= n - j < |rest| - 4;
      assert !IsDigit(rest[1..|rest| - 4][n - j - 1]);
    }
    FirstMatchIs(f, n);
    ExtractSpeakerOf(f, nodeId, speaker);
  }

  /** `n.wav` reads back as node `n` with no speaker, provided `n` does not itself end in
      `_<digits>` (a plain prompt for node `a_1` would read as speaker `1` of node `a`). */
  lemma PlainFileRoundTrip(nodeId: string)
    requires nodeId != [] && DotChars(nodeId)
    requires forall p, d :: !SpeakerForm(PlainFileName(nodeId), p, d)
    ensures ExtractNodeId(PlainFileName(nodeId)) == nodeId
    ensures ExtractSpeaker(PlainFileName(nodeId)) == "none"
  {
    var f := PlainFileName(nodeId);
    var n := |nodeId|;
    assert f[..n] == nodeId;
    assert f[n..] == ".wav";
    forall j | 1 <= j < n
      ensures !MatchesAt(f, j)
    {
      var rest := f[j..];
      if SpeakerSuffix(rest) {
        var d := rest[1..|rest| - 4];
        assert f == f[..j] + "_" + d + ".wav";
        assert SpeakerForm(f, f[..j], d);
      }
    }
    FirstMatchIs(f, n);
  }

  /** A plain prompt named after a node ending in `_<digits>` is read as another node's prompt
      with a speaker. */
  lemma PlainFileAmbiguous()
    ensures ExtractNodeId(PlainFileName("a_1")) == "a"
    ensures ExtractSpeaker(PlainFileName("a_1")) == "1"
  {
    var f := PlainFileName("a_1");
    assert f[1..] == "_1.wav";
    assert SpeakerSuffix(f[1..]);
    FirstMatchIs(f, 1);
    ExtractSpeakerOf(f, "a", "1");
  }

  // ---------------------------------------------------------------------------------------------
  // detectAudioFilesForNode
  // ---------------------------------------------------------------------------------------------

  /** The speakers tried for every node, before the file without speaker. */
  const CommonSpeakers: seq<string> := ["2", "3", "11", "22"]

  function Candidate(nodeId: string, language: Language, speaker: string, served: string -> bool): AudioFileInfo {
    var filename := SpeakerFileName(nodeId, speaker);
    AudioFileInfo(nodeId, speaker, filename, AudioUrl(language, filename), served(AudioUrl(language, filename)))
  }

  /** The candidate files of a node: one per common speaker, then the plain file; `served` is
      the answer of the HEAD request for a URL. */
  function DetectAudioFilesForNode(nodeId: string, language: Language, served: string -> bool): (r: seq<AudioFileInfo>)
    ensures |r| == 5
    ensures forall i :: 0 <= i < 5 ==>
      r[i].nodeId == nodeId && r[i].url == AudioUrl(language, r[i].filename)
      && r[i].fileExists == served(r[i].url)
    ensures forall i :: 0 <= i < 4 ==>
      r[i].speaker == CommonSpeakers[i] && r[i].filename == SpeakerFileName(nodeId, CommonSpeakers[i])
    ensures r[4].speaker == "none" && r[4].filename == PlainFileName(nodeId)
  {
    var plain := PlainFileName(nodeId);
    seq(4, i requires 0 <= i < 4 => Candidate(nodeId, language, CommonSpeakers[i], served))
    + [AudioFileInfo(nodeId, "none", plain, AudioUrl(language, plain), served(AudioUrl(language, plain)))]
  }

  /** Every candidate's file name reads back as its node and speaker, for a node id without line
      breaks that does not end in `_<digits>`. */
  lemma CandidatesParse(nodeId: string, language: Language, served: string -> bool)
    requires nodeId != [] && DotChars(nodeId)
    requires forall p, d :: !SpeakerForm(PlainFileName(nodeId), p, d)
    ensures forall c :: c in DetectAudioFilesForNode(nodeId, language, served) ==>
      ExtractNodeId(c.filename) == c.nodeId && ExtractSpeaker(c.filename) == c.speaker
  {
    var r := DetectAudioFilesForNode(nodeId, language, served);
    forall i | 0 <= i < 4
      ensures ExtractNodeId(r[i].filename) == nodeId && ExtractSpeaker(r[i].filename) == r[i].speaker
    {
      assert AllDigits(CommonSpeakers[i]);
      SpeakerFileRoundTrip(nodeId, CommonSpeakers[i]);
    }
    PlainFileRoundTrip(nodeId);
  }

  // ---------------------------------------------------------------------------------------------
  // selectBestAudioFile
  // ---------------------------------------------------------------------------------------------

  /** The speakers in order of preference. */
  const PriorityOrder: seq<string> := ["3", "2", "11", "22", "none"]

  /** A speaker's place in the preference order; 5 for a speaker outside it. */
  function Rank(speaker: string): (r: nat)
    ensures r <= 5
    ensures r < 5 ==> PriorityOrder[r] == speaker
    ensures r == 5 ==> speaker !in PriorityOrder
  {
    if speaker == "3" then 0
    else if speaker == "2" then 1
    else if speaker == "11" then 2
    else if speaker == "22" then 3
    else if speaker == "none" then 4
    else 5
  }

  /** The candidate files the server answered for, in order. */
  function Existing(files: seq<AudioFileInfo>): (r: seq<AudioFileInfo>)
    ensures forall f :: f in r <==> f in files && f.fileExists
  {
    if files == [] then []
    else if files[0].fileExists then [files[0]] + Existing(files[1..])
    else Existing(files[1..])
  }

  /** The first file with the given speaker, if any. */
  function FindSpeaker(files: seq<AudioFileInfo>, speaker: string): (r: Option<AudioFileInfo>)
    ensures r.Some? ==> r.value in files && r.value.speaker == speaker
  {
    if files == [] then None
    else if files[0].speaker == speaker then Some(files[0])
    else FindSpeaker(files[1..], speaker)
  }

  /** The preference loop from position `k` of the order on, with the first file as fallback. */
  function PickFrom(existing: seq<AudioFileInfo>, k: nat): (r: AudioFileInfo)
    requires existing != [] && k <= 5
    ensures r in existing
    decreases 5 - k
  {
    if k == 5 then existing[0]
    else match FindSpeaker(existing, PriorityOrder[k])
      case Some(f) => f
      case None => PickFrom(existing, k + 1)
  }

  /** `selectBestAudioFile` */
  function SelectBestAudioFile(files: seq<AudioFileInfo>): (r: Option<AudioFileInfo>)
    ensures r.None? <==> Existing(files) == []
    ensures r.Some? ==> r.value in files && r.value.fileExists
  {
    var existing := Existing(files);
    if existing == [] then None else Some(PickFrom(existing, 0))
  }

  /** `r` is the file at `i`, it is served, and no served file before it has rank `rank`. */
  predicate FirstServedOfRank(files: seq<AudioFileInfo>, r: AudioFileInfo, i: nat, rank: nat) {
    i < |files| && files[i] == r && r.fileExists && Rank(r.speaker) == rank
    && forall j :: 0 <= j < i && files[j].fileExists ==> Rank(files[j].speaker) != rank
  }

  /** The first served file of the list with the speaker. */
  function FindServed(files: seq<AudioFileInfo>, speaker: string): (r: Option<AudioFileInfo>)
    ensures r.None? ==> forall f :: f in files && f.fileExists ==> f.speaker != speaker
    ensures r.Some? ==> exists i :: FirstServedWith(files, r.value, i, speaker)
  {
    if files == [] then None
    else if files[0].fileExists && files[0].speaker == speaker then
      assert FirstServedWith(files, files[0], 0, speaker);
      Some(files[0])
    else
      var r := FindServed(files[1..], speaker);
      if r.Some? then
        var i: nat :| FirstServedWith(files[1..], r.value, i, speaker);
        FirstServedWithShift(files, r.value, i, speaker);
        r
      else
        r
  }

  /** `r` is the file at `i`, it is served with the speaker, and no served file before it has
      that speaker. */
  predicate FirstServedWith(files: seq<AudioFileInfo>, r: AudioFileInfo, i: nat, speaker: string) {
    i < |files| && files[i] == r && r.fileExists && r.speaker == speaker
    && forall j :: 0 <= j < i && files[j].fileExists ==> files[j].speaker != speaker
  }

  lemma FirstServedWithShift(files: seq<AudioFileInfo>, r: AudioFileInfo, i: nat, speaker: string)
    requires files != [] && !(files[0].fileExists && files[0].speaker == speaker)
    requires FirstServedWith(files[1..], r, i, speaker)
    ensures FirstServedWith(files, r, i + 1, speaker)
  {
    assert forall j :: 1 <= j < i + 1 ==> files[j] == files[1..][j - 1];
  }

  /** `r` is the file at `i` and the first served file of the list. */
  predicate FirstServedAt(files: seq<AudioFileInfo>, r: AudioFileInfo, i: nat) {
    i < |files| && files[i] == r && r.fileExists
    && forall j :: 0 <= j < i ==> !files[j].fileExists
  }

  /** The first served file of the list. */
  function FirstServed(files: seq<AudioFileInfo>): (r: Option<AudioFileInfo>)
    ensures r.None? <==> forall f :: f in files ==> !f.fileExists
    ensures r.Some? ==> exists i :: FirstServedAt(files, r.value, i)
  {
    if files == [] then None
    else if files[0].fileExists then
      assert FirstServedAt(files, files[0], 0);
      Some(files[0])
    else
      var r := FirstServed(files[1..]);
      if r.Some? then
        var i: nat :| FirstServedAt(files[1..], r.value, i);
        assert forall j :: 1 <= j < i + 1 ==> files[j] == files[1..][j - 1];
        assert FirstServedAt(files, r.value, i + 1);
        r
      else
        assert forall f :: f in files ==> f == files[0] || f in files[1..];
        r
  }

  /** Finding a speaker among the served files is finding the first served file with it. */
  lemma {:induction false} FindInExisting(files: seq<AudioFileInfo>, speaker: string)
    ensures FindSpeaker(Existing(files), speaker) == FindServed(files, speaker)
  {
    if files != [] {
      FindInExisting(files[1..], speaker);
    }
  }

  /** The first of the served files is the first served file. */
  lemma {:induction false} HeadOfExisting(files: seq<AudioFileInfo>)
    ensures Existing(files) == [] <==> FirstServed(files).None?
    ensures Existing(files) != [] ==> Existing(files)[0] == FirstServed(files).value
  {
    if files != [] {
      HeadOfExisting(files[1..]);
    }
  }

  /** `r` is what the source promises to choose from `files`: a served file of the list whose
      speaker ranks best among the served files, and the first served file of that rank. */
  ghost predicate Best(files: seq<AudioFileInfo>, r: AudioFileInfo) {
    r in files && r.fileExists
    && (forall f :: f in files && f.fileExists ==> Rank(r.speaker) <= Rank(f.speaker))
    && exists i :: FirstServedOfRank(files, r, i, Rank(r.speaker))
  }

  /** The choice: nothing exactly when no file is served, otherwise the best file. A served file
      outside the preference order is chosen only when every served file is, and then it is the
      first served file. */
  lemma SelectBestSpec(files: seq<AudioFileInfo>)
    ensures SelectBestAudioFile(files).None? <==> forall f :: f in files ==> !f.fileExists
    ensures SelectBestAudioFile(files).Some? ==> Best(files, SelectBestAudioFile(files).value)
  {
    HeadOfExisting(files);
    if Existing(files) != [] {
      PickFromSpec(files, 0);
    }
  }

  /** The preference loop from position `k` on, when no served file ranks below `k`, returns the
      best file. */
  lemma {:induction false} PickFromSpec(files: seq<AudioFileInfo>, k: nat)
    requires Existing(files) != [] && k <= 5
    requires forall f :: f in files && f.fileExists ==> Rank(f.speaker) >= k
    decreases 5 - k
    ensures Best(files, PickFrom(Existing(files), k))
  {
    var r := PickFrom(Existing(files), k);
    if k == 5 {
      HeadOfExisting(files);
      var i: nat :| FirstServedAt(files, r, i);
      BestFallback(files, r, i);
    } else {
      var speaker := PriorityOrder[k];
      FindInExisting(files, speaker);
      match FindServed(files, speaker)
      case Some(f) =>
        var i: nat :| FirstServedWith(files, f, i, speaker);
        BestFound(files, f, i, k);
      case None =>
        PickFromNext(files, k);
        PickFromSpec(files, k + 1);
    }
  }

  /** With no served file in the preference order, the first served file is the best. */
  lemma BestFallback(files: seq<AudioFileInfo>, r: AudioFileInfo, i: nat)
    requires FirstServedAt(files, r, i)
    requires forall f :: f in files && f.fileExists ==> Rank(f.speaker) >= 5
    ensures Best(files, r)
  {
    assert FirstServedOfRank(files, r, i, 5);
  }

  /** With no served file ranked below `k`, the first served file of the `k`-th speaker is the
      best. */
  lemma BestFound(files: seq<AudioFileInfo>, r: AudioFileInfo, i: nat, k: nat)
    requires k < 5 && FirstServedWith(files, r, i, PriorityOrder[k])
    requires forall f :: f in files && f.fileExists ==> Rank(f.speaker) >= k
    ensures Best(files, r)
  {
    assert Rank(r.speaker) == k;
    forall j | 0 <= j < i && files[j].fileExists
      ensures Rank(files[j].speaker) != k
    {
      assert files[j].speaker != PriorityOrder[k];
    }
    assert FirstServedOfRank(files, r, i, k);
  }

  /** No served file with the `k`-th speaker: none ranks below `k + 1`. */
  lemma PickFromNext(files: seq<AudioFileInfo>, k: nat)
    requires k < 5 && FindServed(files, PriorityOrder[k]).None?
    requires forall f :: f in files && f.fileExists ==> Rank(f.speaker) >= k
    ensures forall f :: f in files && f.fileExists ==> Rank(f.speaker) >= k + 1
  {
    forall f | f in files && f.fileExists
      ensures Rank(f.speaker) >= k + 1
    {
      assert f.speaker != PriorityOrder[k];
    }
  }
}
