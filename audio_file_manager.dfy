/** The key-to-URL table of recorded prompts (src/services/audioFileManager.ts). The
    `audioStorage` map is kept as its list of pairs in insertion order, which is the order its
    `forEach` visits them. Blob URLs, `localStorage`, `URL.revokeObjectURL`, the upload request
    and the HEAD request are outside the model: the values they produce are parameters. */
module AudioFileManager {
  import opened Wrappers
  import opened Strings
  import opened Types

  /** One `[storageKey, url]` pair of `audioStorage`. */
  datatype Entry = Entry(key: string, url: string)

  /** One value of the record `getAllAudioFiles` returns, with the property name it is stored under. */
  datatype AudioFileRecord = AudioFileRecord(storageKey: string, language: string, audioKey: string, url: string)

  /** `${language}_` */
  function Prefix(language: Language): (r: string)
    ensures |r| == 3 && r[..2] == Code(language) && r[2] == '_'
  {
    Code(language) + "_"
  }

  /** `getStorageKey`: the language, an underscore, then the audio key. */
  function StorageKey(audioKey: string, language: Language): (r: string)
    ensures StartsWith(r, Prefix(language)) && r[|Prefix(language)|..] == audioKey
  {
    Prefix(language) + audioKey
  }

  /** Distinct pairs of audio key and language never share a storage key. */
  lemma StorageKeyInjective(a: string, l: Language, b: string, m: Language)
    requires StorageKey(a, l) == StorageKey(b, m)
    ensures a == b && l == m
  {
    assert Code(l) == StorageKey(a, l)[..2] == StorageKey(b, m)[..2] == Code(m);
    assert StorageKey(a, l)[3..] == StorageKey(b, m)[3..];
  }

  /** A storage key of one language never carries the other language's prefix. */
  lemma PrefixOfLanguage(a: string, l: Language, m: Language)
    ensures StartsWith(StorageKey(a, m), Prefix(l)) <==> l == m
  {
    if StartsWith(StorageKey(a, m), Prefix(l)) {
      assert Code(l) == Prefix(l)[..2] == StorageKey(a, m)[..2] == Code(m);
    }
  }

  /** `/audio/${language}/${audioKey}.wav`: where the public audio directory serves a prompt. */
  function PublicUrl(audioKey: string, language: Language): (r: string)
    ensures StartsWith(r, "/audio/") && EndsWith(r, ".wav") && |r| == |audioKey| + 14
    ensures r[7..9] == Code(language) && r[9] == '/' && r[10..|r| - 4] == audioKey
  {
    var r := "/audio/" + Code(language) + "/" + audioKey + ".wav";
    assert r[7..9] == Code(language) && r[10..|r| - 4] == audioKey;
    r
  }

  /** A `Map` never holds a key twice. */
  predicate UniqueKeys(entries: seq<Entry>) {
    forall i, j :: 0 <= i < j < |entries| ==> entries[i].key != entries[j].key
  }

  /** The position of `key` in the map, or -1. */
  function FindKey(entries: seq<Entry>, key: string): (r: int)
    ensures -1 <= r < |entries|
    ensures r == -1 <==> forall j :: 0 <= j < |entries| ==> entries[j].key != key
    ensures r >= 0 ==> entries[r].key == key && forall j :: 0 <= j < r ==> entries[j].key != key
  {
    if entries == [] then -1
    else if entries[0].key == key then 0
    else
      var k := FindKey(entries[1..], key);
      assert forall j :: 1 <= j < |entries| ==> entries[j] == entries[1..][j - 1];
      if k == -1 then -1 else k + 1
  }

  /** Reading a key of the map: the URL paired with it, if any. */
  function Get(entries: seq<Entry>, key: string): (r: Option<string>)
    ensures r.None? <==> forall j :: 0 <= j < |entries| ==> entries[j].key != key
    ensures r.Some? ==> exists j :: 0 <= j < |entries| && entries[j] == Entry(key, r.value)
  {
    var i := FindKey(entries, key);
    if i < 0 then None else Some(entries[i].url)
  }

  /** `get` looks at the first pair, then at the rest. */
  lemma GetCons(entries: seq<Entry>, k: string)
    requires entries != []
    ensures Get(entries, k) == if entries[0].key == k then Some(entries[0].url) else Get(entries[1..], k)
  {
  }

  /** In a map every key is found with its own url. */
  lemma GetStored(entries: seq<Entry>, j: nat)
    requires UniqueKeys(entries) && j < |entries|
    ensures Get(entries, entries[j].key) == Some(entries[j].url)
  {
    var i := FindKey(entries, entries[j].key);
    assert i >= 0 && entries[i].key == entries[j].key;
  }

  /** Two lists with the same keys in the same places find every other key at the same place. */
  lemma FindKeyOfSameKeys(e: seq<Entry>, r: seq<Entry>, k: string)
    requires |e| <= |r| <= |e| + 1
    requires forall j :: 0 <= j < |e| ==> r[j].key == e[j].key
    requires |r| > |e| ==> r[|e|].key != k
    ensures FindKey(r, k) == FindKey(e, k)
  {
    var a := FindKey(e, k);
    var b := FindKey(r, k);
    if a >= 0 {
      assert r[a].key == k;
    }
    if b >= 0 {
      assert b < |e| && e[b].key == k;
    }
  }

  /** Setting a key of the map: a new key is added at the end; a key already present keeps
      its place and takes the new url. */
  function Set(entries: seq<Entry>, key: string, url: string): (r: seq<Entry>)
    ensures |r| == |entries| + (if FindKey(entries, key) < 0 then 1 else 0)
    ensures forall j :: 0 <= j < |entries| ==> r[j].key == entries[j].key
    ensures |r| > |entries| ==> r[|entries|] == Entry(key, url)
  {
    var i := FindKey(entries, key);
    if i < 0 then entries + [Entry(key, url)] else entries[i := Entry(key, url)]
  }

  /** After `set(key, url)`, `get(key)` is `url` and every other key reads as before. */
  lemma GetAfterSet(entries: seq<Entry>, key: string, url: string, k: string)
    ensures Get(Set(entries, key, url), k) == if k == key then Some(url) else Get(entries, k)
  {
    var r := Set(entries, key, url);
    var i := FindKey(entries, key);
    if k == key {
      if i < 0 {
        assert FindKey(r, k) == |entries|;
      } else {
        assert r[i].key == k;
        assert FindKey(r, k) == i;
      }
    } else {
      FindKeyOfSameKeys(entries, r, k);
      var f := FindKey(entries, k);
      if f >= 0 {
        assert f != i;
        assert r[f] == entries[f];
      }
    }
  }

  /** `set` keeps the map free of repeated keys. */
  lemma SetUnique(entries: seq<Entry>, key: string, url: string)
    requires UniqueKeys(entries)
    ensures UniqueKeys(Set(entries, key, url))
  {
  }

  /** The entries whose key is not in `drop`, in their order: `audioStorage.delete` of every key
      in `drop`. */
  function Keep(entries: seq<Entry>, drop: seq<string>): (r: seq<Entry>)
    ensures |r| <= |entries|
    ensures forall j :: 0 <= j < |r| ==> r[j] in entries && r[j].key !in drop
  {
    if entries == [] then []
    else (if entries[0].key in drop then [] else [entries[0]]) + Keep(entries[1..], drop)
  }

  /** After deleting the keys of `drop`, those read as absent and every other key as before. */
  lemma {:induction false} GetAfterKeep(entries: seq<Entry>, drop: seq<string>, k: string)
    ensures Get(Keep(entries, drop), k) == if k in drop then None else Get(entries, k)
  {
    if entries != [] {
      var x := entries[0];
      var rest := Keep(entries[1..], drop);
      GetAfterKeep(entries[1..], drop, k);
      GetCons(entries, k);
      if x.key in drop {
        assert Keep(entries, drop) == rest;
      } else {
        assert Keep(entries, drop) == [x] + rest;
        assert ([x] + rest)[1..] == rest;
        GetCons([x] + rest, k);
      }
    }
  }

  /** Deleting one set of keys and then another is deleting both. */
  lemma {:induction false} KeepTwice(entries: seq<Entry>, a: seq<string>, b: seq<string>)
    ensures Keep(Keep(entries, a), b) == Keep(entries, a + b)
  {
    if entries != [] {
      KeepTwice(entries[1..], a, b);
      var x := entries[0];
      var rest := Keep(entries[1..], a);
      var tail := Keep(entries[1..], a + b);
      assert (x.key in a + b) <==> (x.key in a || x.key in b);
      if x.key in a {
        assert Keep(entries, a) == rest;
        assert Keep(entries, a + b) == tail;
      } else {
        assert Keep(entries, a) == [x] + rest;
        assert ([x] + rest)[1..] == rest;
        assert Keep([x] + rest, b) == (if x.key in b then [] else [x]) + Keep(rest, b);
        assert Keep(entries, a + b) == (if x.key in b then [] else [x]) + tail;
      }
    }
  }

  /** Deleting keys keeps the map free of repeated keys. */
  lemma {:induction false} KeepUnique(entries: seq<Entry>, drop: seq<string>)
    requires UniqueKeys(entries)
    ensures UniqueKeys(Keep(entries, drop))
  {
    if entries != [] {
      KeepUnique(entries[1..], drop);
      var rest := Keep(entries[1..], drop);
      forall j | 0 <= j < |rest|
        ensures rest[j].key != entries[0].key
      {
        var m :| 0 <= m < |entries[1..]| && entries[1..][m] == rest[j];
        assert entries[m + 1] == rest[j];
      }
    }
  }

  /** The keys of `entries` that begin with `prefix`, in map order: what the first `forEach` of
      `clearLanguageAudio` collects. */
  function PrefixedKeys(entries: seq<Entry>, prefix: string): (r: seq<string>)
    ensures forall j :: 0 <= j < |r| ==> StartsWith(r[j], prefix)
  {
    if entries == [] then []
    else
      var last := entries[|entries| - 1];
      PrefixedKeys(entries[..|entries| - 1], prefix) + (if StartsWith(last.key, prefix) then [last.key] else [])
  }

  /** A key is collected exactly when it is in the map and begins with the prefix. */
  lemma {:induction false} PrefixedKeysMembers(entries: seq<Entry>, prefix: string, k: string)
    ensures k in PrefixedKeys(entries, prefix) <==> StartsWith(k, prefix) && Get(entries, k).Some?
  {
    if entries != [] {
      var init := entries[..|entries| - 1];
      PrefixedKeysMembers(init, prefix, k);
      GetOfExtended(init, entries[|entries| - 1], k);
      assert init + [entries[|entries| - 1]] == entries;
    }
  }

  /** A key is in a list extended by one entry when it is in the list or is the new entry's. */
  lemma GetOfExtended(init: seq<Entry>, last: Entry, k: string)
    ensures Get(init + [last], k).Some? <==> Get(init, k).Some? || last.key == k
  {
    var e := init + [last];
    if Get(init, k).Some? {
      var j :| 0 <= j < |init| && init[j].key == k;
      assert e[j].key == k;
    }
    if last.key == k {
      assert e[|init|].key == k;
    }
  }

  /** What `clearLanguageAudio` leaves: the map without the keys of the language's prefix. */
  function DropLanguage(entries: seq<Entry>, language: Language): seq<Entry> {
    Keep(entries, PrefixedKeys(entries, Prefix(language)))
  }

  /** `clearLanguageAudio` removes exactly the keys with the language's prefix; every other key,
      among them each key of the other language, reads as before. */
  lemma DropLanguageGet(entries: seq<Entry>, language: Language, k: string)
    ensures Get(DropLanguage(entries, language), k)
         == if StartsWith(k, Prefix(language)) then None else Get(entries, k)
  {
    var drop := PrefixedKeys(entries, Prefix(language));
    GetAfterKeep(entries, drop, k);
    PrefixedKeysMembers(entries, Prefix(language), k);
  }

  /** Removing the first occurrence of the prefix from a key that begins with it strips exactly
      that prefix: its first occurrence is the leading one. */
  lemma RemoveLeading(s: string, prefix: string)
    requires StartsWith(s, prefix)
    ensures RemoveFirst(s, prefix) == s[|prefix|..]
  {
    assert OccursAt(s, prefix, 0);
    assert IndexOf(s, prefix, 0) == 0;
  }

  /** `getStoredAudioKeys`: the keys with the language's prefix, prefix removed, in map order. */
  function StoredAudioKeys(entries: seq<Entry>, language: Language): (r: seq<string>)
    ensures |r| <= |entries|
  {
    if entries == [] then []
    else
      var last := entries[|entries| - 1];
      StoredAudioKeys(entries[..|entries| - 1], language)
      + (if StartsWith(last.key, Prefix(language)) then [RemoveFirst(last.key, Prefix(language))] else [])
  }

  /** An audio key is listed for a language exactly when the map holds its storage key. */
  lemma {:induction false} StoredAudioKeysMembers(entries: seq<Entry>, language: Language, a: string)
    ensures a in StoredAudioKeys(entries, language) <==> Get(entries, StorageKey(a, language)).Some?
  {
    if entries != [] {
      var init := entries[..|entries| - 1];
      var last := entries[|entries| - 1];
      StoredAudioKeysMembers(init, language, a);
      GetOfExtended(init, last, StorageKey(a, language));
      assert init + [last] == entries;
      if StartsWith(last.key, Prefix(language)) {
        RemoveLeading(last.key, Prefix(language));
        assert last.key == Prefix(language) + last.key[3..];
        assert (last.key[3..] == a) <==> (last.key == StorageKey(a, language));
      } else {
        assert last.key != StorageKey(a, language);
      }
    }
  }

  /** The pieces of `s` between occurrences of `sep`, as JavaScript's `split` gives them. */
  function Split(s: string, sep: char): (r: seq<string>)
    ensures |r| >= 1
    ensures forall i :: 0 <= i < |r| ==> sep !in r[i]
    decreases |s|
  {
    if sep !in s then [s]
    else
      var i := Position(s, sep);
      [s[..i]] + Split(s[i + 1..], sep)
  }

  /** The first position of `c` in `s`. */
  function Position(s: string, c: char): (r: nat)
    requires c in s
    ensures r < |s| && s[r] == c && c !in s[..r]
  {
    if s[0] == c then 0
    else
      assert c in s[1..];
      var k := Position(s[1..], c);
      assert s[..k + 1] == [s[0]] + s[1..][..k];
      k + 1
  }

  /** Splitting with a limit of two: JavaScript splits at every underscore and then keeps the
      first two pieces, so the second piece ends at the second underscore. */
  function SplitTwo(s: string): (r: seq<string>)
    ensures 1 <= |r| <= 2
    ensures '_' !in s ==> r == [s]
    ensures '_' in s ==> |r| == 2 && r[0] == s[..Position(s, '_')]
    ensures '_' in s ==> var rest := s[Position(s, '_') + 1..];
      r[1] == if '_' in rest then rest[..Position(rest, '_')] else rest
  {
    var parts := Split(s, '_');
    if '_' !in s then parts
    else
      var rest := s[Position(s, '_') + 1..];
      assert parts == [s[..Position(s, '_')]] + Split(rest, '_');
      assert parts[1] == Split(rest, '_')[0];
      if |parts| <= 2 then parts else parts[..2]
  }

  /** A position holding `c` with no `c` before it is the first position of `c`. */
  lemma PositionIs(s: string, c: char, k: nat)
    requires k < |s| && s[k] == c && c !in s[..k]
    ensures Position(s, c) == k
  {
    var p := Position(s, c);
    assert forall i :: 0 <= i < k ==> s[..k][i] == s[i];
    assert forall i :: 0 <= i < p ==> s[..p][i] == s[i];
  }

  /** A storage key splits at the underscore after the language: its first piece is the
      language and the rest is the audio key. */
  lemma StorageKeySplit(a: string, language: Language)
    ensures '_' in StorageKey(a, language)
    ensures Position(StorageKey(a, language), '_') == 2
    ensures StorageKey(a, language)[..2] == Code(language) && StorageKey(a, language)[3..] == a
  {
    var s := StorageKey(a, language);
    assert s[2] == '_' && s[..2] == Code(language);
    PositionIs(s, '_', 2);
  }

  /** The record `getAllAudioFiles` makes of one pair: only when both the language piece and the
      audio-key piece are non-empty. */
  function FileRecordOf(e: Entry): Option<AudioFileRecord> {
    var parts := SplitTwo(e.key);
    if |parts| == 2 && parts[0] != "" && parts[1] != "" then
      Some(AudioFileRecord(e.key, parts[0], parts[1], e.url))
    else None
  }

  /** `getAllAudioFiles`: one record per pair that splits into two non-empty pieces, in map order. */
  function AllAudioFiles(entries: seq<Entry>): (r: seq<AudioFileRecord>)
    ensures |r| <= |entries|
  {
    if entries == [] then []
    else
      var last := entries[|entries| - 1];
      AllAudioFiles(entries[..|entries| - 1])
      + (match FileRecordOf(last) case Some(f) => [f] case None => [])
  }

  /** An audio key without an underscore is reported with its language and in full. */
  lemma FileRecordOfPlainKey(a: string, language: Language, url: string)
    requires a != "" && '_' !in a
    ensures FileRecordOf(Entry(StorageKey(a, language), url))
         == Some(AudioFileRecord(StorageKey(a, language), Code(language), a, url))
  {
    StorageKeySplit(a, language);
  }

  /** As written: an audio key that holds an underscore is reported only up to it, and one that
      begins with an underscore is not reported at all. */
  lemma FileRecordTruncatesKey(a: string, language: Language, url: string)
    requires '_' in a
    ensures var p := Position(a, '_');
      FileRecordOf(Entry(StorageKey(a, language), url))
      == if p == 0 then None else Some(AudioFileRecord(StorageKey(a, language), Code(language), a[..p], url))
  {
    StorageKeySplit(a, language);
  }

  /** The node `deposit_amount` keeps its prompt under `ja_deposit_amount`, which is listed with
      the audio key `deposit`. */
  lemma DepositAmountListedAsDeposit(url: string)
    ensures FileRecordOf(Entry(StorageKey("deposit_amount", Ja), url))
         == Some(AudioFileRecord(StorageKey("deposit_amount", Ja), "ja", "deposit", url))
  {
    var a := "deposit_amount";
    assert a[..7] == "deposit";
    assert '_' !in a[..7];
    PositionIs(a, '_', 7);
    FileRecordTruncatesKey(a, Ja, url);
  }

  /** A storage key split at its first underscore only: the language and the whole audio key. */
  function ParseStorageKey(key: string): (r: Option<(string, string)>)
    ensures r.Some? ==> key == r.value.0 + "_" + r.value.1 && '_' !in r.value.0
    ensures r.Some? ==> r.value.0 != "" && r.value.1 != ""
  {
    if '_' !in key then None
    else
      var p := Position(key, '_');
      if p == 0 || p + 1 == |key| then None
      else
        assert key == key[..p] + "_" + key[p + 1..];
        Some((key[..p], key[p + 1..]))
  }

  /** The record meant for one pair: the storage key read back into language and audio key. */
  function IntendedRecordOf(e: Entry): Option<AudioFileRecord> {
    match ParseStorageKey(e.key)
    case Some((language, audioKey)) => Some(AudioFileRecord(e.key, language, audioKey, e.url))
    case None => None
  }

  /** Every storage key reads back into the language and the whole audio key it was made of. */
  lemma ParseStorageKeyRoundTrip(a: string, language: Language, url: string)
    requires a != ""
    ensures ParseStorageKey(StorageKey(a, language)) == Some((Code(language), a))
    ensures IntendedRecordOf(Entry(StorageKey(a, language), url))
         == Some(AudioFileRecord(StorageKey(a, language), Code(language), a, url))
  {
    StorageKeySplit(a, language);
  }

  /** The map rebuilt by `set` of every stored pair in turn. */
  function Loaded(stored: seq<Entry>): (r: seq<Entry>)
    ensures |r| <= |stored|
  {
    if stored == [] then []
    else
      var last := stored[|stored| - 1];
      Set(Loaded(stored[..|stored| - 1]), last.key, last.url)
  }

  /** Pairs saved from a map load back as that same map, in the same order. */
  lemma {:induction false} LoadedRoundTrip(stored: seq<Entry>)
    requires UniqueKeys(stored)
    ensures Loaded(stored) == stored
  {
    if stored != [] {
      var init := stored[..|stored| - 1];
      var last := stored[|stored| - 1];
      LoadedRoundTrip(init);
      assert FindKey(init, last.key) == -1;
      assert init + [Entry(last.key, last.url)] == stored;
    }
  }

  /** The url of a prompt: the stored one when it is a non-empty string, else the file in the
      public audio directory. */
  function AudioUrl(entries: seq<Entry>, audioKey: string, language: Language): (r: string)
    ensures Truthy(Get(entries, StorageKey(audioKey, language))) ==> r == Get(entries, StorageKey(audioKey, language)).value
    ensures !Truthy(Get(entries, StorageKey(audioKey, language))) ==> r == PublicUrl(audioKey, language)
  {
    OrElse(Get(entries, StorageKey(audioKey, language)), PublicUrl(audioKey, language))
  }

  /** `audioFileExists`: true when the map holds the key (whatever its url), else the answer of
      the HEAD request, passed in as `served`. */
  predicate FileExists(entries: seq<Entry>, audioKey: string, language: Language, served: bool): (r: bool)
    ensures !served ==> (r <==> exists j :: 0 <= j < |entries| && entries[j].key == StorageKey(audioKey, language))
  {
    Get(entries, StorageKey(audioKey, language)).Some? || served
  }

  /** A key stored with an empty url counts as existing, yet its url is the public file's. */
  lemma EmptyUrlExistsButFallsBack(entries: seq<Entry>, audioKey: string, language: Language)
    requires Get(entries, StorageKey(audioKey, language)) == Some("")
    ensures FileExists(entries, audioKey, language, false)
    ensures AudioUrl(entries, audioKey, language) == PublicUrl(audioKey, language)
  {
  }

  /** After a successful save the prompt's url is the public file's, it exists without asking
      the server, and every other prompt keeps its url. */
  lemma SavedPrompt(entries: seq<Entry>, audioKey: string, language: Language, a: string, l: Language)
    ensures var saved := Set(entries, StorageKey(audioKey, language), PublicUrl(audioKey, language));
      AudioUrl(saved, audioKey, language) == PublicUrl(audioKey, language)
      && FileExists(saved, audioKey, language, false)
      && ((a, l) != (audioKey, language) ==> AudioUrl(saved, a, l) == AudioUrl(entries, a, l))
  {
    GetAfterSet(entries, StorageKey(audioKey, language), PublicUrl(audioKey, language), StorageKey(audioKey, language));
    if (a, l) != (audioKey, language) {
      if StorageKey(a, l) == StorageKey(audioKey, language) {
        StorageKeyInjective(a, l, audioKey, language);
      }
      GetAfterSet(entries, StorageKey(audioKey, language), PublicUrl(audioKey, language), StorageKey(a, l));
    }
  }

  /** The error `saveAudioFile` throws when the server refuses the upload. */
  const SaveFailed := "音声ファイルの保存に失敗しました"

  class BrowserAudioFileManager {
    /** `audioStorage`, as its pairs in insertion order. */
    var entries: seq<Entry>

    predicate Valid()
      reads this
    {
      UniqueKeys(entries)
    }

    /** `new BrowserAudioFileManager()`: `loadStoredAudio` sets every pair read back from storage;
        `stored` is empty when nothing was stored or it did not parse. */
    constructor(stored: seq<Entry>)
      ensures Valid() && entries == Loaded(stored)
    {
      entries := [];
      new;
      var i := 0;
      while i < |stored|
        invariant i <= |stored|
        invariant UniqueKeys(entries) && entries == Loaded(stored[..i])
      {
        assert stored[..i + 1][..i] == stored[..i];
        SetUnique(entries, stored[i].key, stored[i].url);
        entries := Set(entries, stored[i].key, stored[i].url);
        i := i + 1;
      }
      assert stored[..i] == stored;
    }

    /** `saveAudioFile`: `blobUrl` is the object URL made for the recording and `serverOk` the
        outcome of the upload. On success the key maps to the public file and the blob URL is
        returned; on failure the error is thrown before the map is touched. */
    method SaveAudioFile(audioKey: string, language: Language, blobUrl: string, serverOk: bool)
      returns (r: Result<string, string>)
      requires Valid()
      modifies this
      ensures Valid()
      ensures serverOk ==>
        r == Ok(blobUrl) && entries == Set(old(entries), StorageKey(audioKey, language), PublicUrl(audioKey, language))
      ensures !serverOk ==> r == Err(SaveFailed) && entries == old(entries)
    {
      if !serverOk {
        return Err(SaveFailed);
      }
      SetUnique(entries, StorageKey(audioKey, language), PublicUrl(audioKey, language));
      entries := Set(entries, StorageKey(audioKey, language), PublicUrl(audioKey, language));
      r := Ok(blobUrl);
    }

    /** `getStoredAudioKeys`: one pass over the map collecting the language's keys. */
    method GetStoredAudioKeys(language: Language) returns (keys: seq<string>)
      ensures keys == StoredAudioKeys(entries, language)
    {
      keys := [];
      var i := 0;
      while i < |entries|
        invariant i <= |entries|
        invariant keys == StoredAudioKeys(entries[..i], language)
      {
        assert entries[..i + 1][..i] == entries[..i];
        var key := entries[i].key;
        if StartsWith(key, Prefix(language)) {
          keys := keys + [RemoveFirst(key, Prefix(language))];
        }
        i := i + 1;
      }
      assert entries[..i] == entries;
    }

    /** `cleanup`: the map is emptied. */
    method Cleanup()
      modifies this
      ensures Valid() && entries == []
    {
      entries := [];
    }

    /** `getAllAudioFiles`: one pass over the map making a record of every pair that splits. */
    method GetAllAudioFiles() returns (files: seq<AudioFileRecord>)
      ensures files == AllAudioFiles(entries)
    {
      files := [];
      var i := 0;
      while i < |entries|
        invariant i <= |entries|
        invariant files == AllAudioFiles(entries[..i])
      {
        assert entries[..i + 1][..i] == entries[..i];
        var record := FileRecordOf(entries[i]);
        if record.Some? {
          files := files + [record.value];
        }
        i := i + 1;
      }
      assert entries[..i] == entries;
    }

    /** `clearLanguageAudio`: a first pass collects the keys with the language's prefix, a
        second deletes them one by one. */
    method ClearLanguageAudio(language: Language)
      requires Valid()
      modifies this
      ensures Valid() && entries == DropLanguage(old(entries), language)
    {
      var keysToRemove := CollectPrefixed(Prefix(language));
      DeleteAll(keysToRemove);
    }

    /** The first pass of `clearLanguageAudio`. */
    method CollectPrefixed(prefix: string) returns (keys: seq<string>)
      ensures keys == PrefixedKeys(entries, prefix)
    {
      keys := [];
      var i := 0;
      while i < |entries|
        invariant i <= |entries|
        invariant keys == PrefixedKeys(entries[..i], prefix)
      {
        assert entries[..i + 1][..i] == entries[..i];
        if StartsWith(entries[i].key, prefix) {
          keys := keys + [entries[i].key];
        }
        i := i + 1;
      }
      assert entries[..i] == entries;
    }

    /** The second pass of `clearLanguageAudio`: `audioStorage.delete` of each key in turn. */
    method DeleteAll(keys: seq<string>)
      requires Valid()
      modifies this
      ensures Valid() && entries == Keep(old(entries), keys)
    {
      ghost var before := entries;
      KeepNone(before);
      var j := 0;
      while j < |keys|
        invariant j <= |keys|
        invariant UniqueKeys(entries) && entries == Keep(before, keys[..j])
      {
        KeepTwice(before, keys[..j], [keys[j]]);
        assert keys[..j + 1] == keys[..j] + [keys[j]];
        KeepUnique(entries, [keys[j]]);
        entries := Keep(entries, [keys[j]]);
        j := j + 1;
      }
      assert keys[..j] == keys;
    }
  }

  /** Deleting no key changes nothing. */
  lemma {:induction false} KeepNone(entries: seq<Entry>)
    ensures Keep(entries, []) == entries
  {
    if entries != [] {
      KeepNone(entries[1..]);
    }
  }
}
