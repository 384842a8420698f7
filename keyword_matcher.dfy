/** `KeywordMatcher` and `ResponseStrategy` (src/services/keywordMatcher.ts): scores an utterance
    against each choice of a node by a running maximum over several signals, ranks the scores and
    maps the best one to a response tier. Confidences are exact rationals (`real`). */
module KeywordMatcher {
  import opened Wrappers
  import opened Strings
  import opened Types
  import opened Normalization
  import opened Levenshtein
  import opened Ranking

  datatype MatchType = Exact | Keyword | Partial | Similarity

  datatype MatchResult = MatchResult(
    choice: Choice,
    confidence: real,
    matchedKeywords: seq<string>,
    matchType: MatchType)

  datatype MatchingConfig = MatchingConfig(
    highConfidenceThreshold: real,
    mediumConfidenceThreshold: real,
    enableFuzzyMatching: bool,
    enableSimilarityMatching: bool)

  /** The defaults of the constructor, which the dialog engine also passes explicitly. */
  const DefaultConfig := MatchingConfig(0.8, 0.5, true, true)

  // ---------------------------------------------------------------------------------------------
  // Keyword points (checkKeywordMatches, isNumberKeyword, getVoiceVariations)
  // ---------------------------------------------------------------------------------------------

  /** A character of the class `[0-9一二三四五六七八九十１２３４５６７８９０]`. */
  predicate IsNumeralChar(c: char) {
    ('0' <= c <= '9') || ('\U{FF10}' <= c <= '\U{FF19}')
    || c == '一' || c == '二' || c == '三' || c == '四' || c == '五'
    || c == '六' || c == '七' || c == '八' || c == '九' || c == '十'
  }

  predicate IsNumeralRun(s: string) {
    |s| > 0 && forall i :: 0 <= i < |s| ==> IsNumeralChar(s[i])
  }

  /** One or more numerals, optionally followed by `番` or `ばん`. Neither suffix character is a numeral, so the suffix, when
      present, is exactly the trailing `番` or `ばん`. */
  predicate IsNumeralShaped(s: string) {
    IsNumeralRun(s)
    || (EndsWith(s, "番") && IsNumeralRun(s[..|s| - 1]))
    || (EndsWith(s, "ばん") && IsNumeralRun(s[..|s| - 2]))
  }

  /** A keyword worth the numeral points: its normal form starts with a numeral, and the digit
      keywords that have spoken readings are all such keywords. */
  predicate IsNumberKeyword(keyword: string): (r: bool)
    ensures r ==> NormalizeText(keyword) != [] && IsNumeralChar(NormalizeText(keyword)[0])
    ensures keyword in DigitKeywords ==> r
  {
    IsNumeralShaped(NormalizeText(keyword))
  }

  /** The keys of the table of spoken digit readings. */
  const DigitKeywords: seq<string> := ["1", "2", "3", "4", "5", "6", "7", "8", "9"]

  /** The keys of the table of known mis-hearings. */
  const MisheardKeywords: seq<string> := ["よにゅう", "ひきだし", "ふりこみ", "みずほ", "mitsubishi"]

  /** `getVoiceVariations`: the readings a speech recogniser may produce for a digit keyword,
      and a few known mis-hearings of other keywords. */
  function VoiceVariations(keyword: string): (r: seq<string>)
    ensures r != [] <==> keyword in DigitKeywords || keyword in MisheardKeywords
    ensures forall i :: 0 <= i < |r| ==> r[i] != []
  {
    (if keyword == "1" then ["いち", "ひとつ", "わん"]
     else if keyword == "2" then ["に", "ふたつ", "つー"]
     else if keyword == "3" then ["さん", "みっつ", "すりー"]
     else if keyword == "4" then ["よん", "し", "よっつ", "ふぉー"]
     else if keyword == "5" then ["ご", "いつつ", "ふぁいぶ"]
     else if keyword == "6" then ["ろく", "むっつ", "しっくす"]
     else if keyword == "7" then ["なな", "しち", "ななつ", "せぶん"]
     else if keyword == "8" then ["はち", "やっつ", "えいと"]
     else if keyword == "9" then ["きゅう", "く", "ここのつ", "ないん"]
     else [])
    +
    (if keyword == "よにゅう" then ["にゅうきん", "よきん"]
     else if keyword == "ひきだし" then ["ひきだ", "だし"]
     else if keyword == "ふりこみ" then ["ふりく", "りこみ"]
     else if keyword == "みずほ" then ["みず", "ほう"]
     else if keyword == "mitsubishi" then ["みつび", "つびし"]
     else [])
  }

  /** The running state of the keyword loop: `totalScore` and `matchedKeywords`. */
  datatype Tally = Tally(score: nat, matched: seq<string>)

  /** Points for a keyword whose normal form `nk` occurs in the utterance `input`. */
  function DirectPoints(input: string, keyword: string, nk: string): nat {
    if IsNumberKeyword(keyword) then (if input == nk then 15 else 12)
    else if input == nk then 10
    else if |nk| >= 3 then 7
    else 3
  }

  /** Points for a variant hit. */
  function VariantPoints(keyword: string): nat {
    if IsNumberKeyword(keyword) then 10 else 5
  }

  /** Some variant occurs in the utterance. */
  predicate AnyContained(input: string, variants: seq<string>) {
    variants != [] && (AnyContained(input, variants[..|variants| - 1]) || Contains(input, variants[|variants| - 1]))
  }

  /** The variant bonus: paid once, when some variant is heard and the keyword is not yet among
      the matched keywords. */
  function VariantBonus(input: string, keyword: string, variants: seq<string>, t: Tally): Tally {
    if keyword !in t.matched && AnyContained(input, variants)
    then Tally(t.score + VariantPoints(keyword), t.matched + [keyword])
    else t
  }

  /** One turn of the keyword loop: the direct hit, then the variant bonus (so never after the
      keyword's own direct hit). */
  function TallyKeyword(input: string, t: Tally, keyword: string): Tally {
    var nk := NormalizeText(keyword);
    var t1 := if Contains(input, nk) then Tally(t.score + DirectPoints(input, keyword, nk), t.matched + [keyword]) else t;
    VariantBonus(input, keyword, VoiceVariations(nk), t1)
  }

  /** The keyword loop over `keywords`, in order. */
  function TallyAll(input: string, keywords: seq<string>): Tally {
    if keywords == [] then Tally(0, [])
    else TallyKeyword(input, TallyAll(input, keywords[..|keywords| - 1]), keywords[|keywords| - 1])
  }

  predicate HasNumberKeyword(keywords: seq<string>) {
    exists i :: 0 <= i < |keywords| && IsNumberKeyword(keywords[i])
  }

  function MinReal(x: real, y: real): real {
    if x <= y then x else y
  }

  /** The keyword score over its ceiling, capped at 1; the ceiling is 15 when some keyword is
      numeral-shaped and 10 otherwise. */
  function ConfidenceOf(score: nat, hasNumber: bool): (r: real)
    ensures 0.0 <= r <= 1.0
  {
    if hasNumber then MinReal(score as real / 15.0, 1.0) else MinReal(score as real / 10.0, 1.0)
  }

  function KeywordConfidence(input: string, keywords: seq<string>): (r: real)
    ensures 0.0 <= r <= 1.0
  {
    ConfidenceOf(TallyAll(input, keywords).score, HasNumberKeyword(keywords))
  }

  /** `checkKeywordMatches`: the keyword loop, then the score over its ceiling. */
  method CheckKeywordMatches(input: string, keywords: seq<string>) returns (confidence: real, matchedKeywords: seq<string>)
    ensures confidence == KeywordConfidence(input, keywords)
    ensures matchedKeywords == TallyAll(input, keywords).matched
    ensures 0.0 <= confidence <= 1.0
  {
    var t := TallyKeywords(input, keywords);
    if HasNumberKeyword(keywords) {
      confidence := MinReal(t.score as real / 15.0, 1.0);
    } else {
      confidence := MinReal(t.score as real / 10.0, 1.0);
    }
    matchedKeywords := t.matched;
  }

  /** The loop over the keywords, accumulating `totalScore` and `matchedKeywords`. */
  method TallyKeywords(input: string, keywords: seq<string>) returns (t: Tally)
    ensures t == TallyAll(input, keywords)
  {
    t := Tally(0, []);
    for i := 0 to |keywords|
      invariant t == TallyAll(input, keywords[..i])
    {
      t := TallyStep(input, t, keywords[i]);
      assert keywords[..i + 1][..i] == keywords[..i];
    }
    assert keywords[..|keywords|] == keywords;
  }

  /** The body of the keyword loop: the direct hit, then the loop over the variants. */
  method TallyStep(input: string, t: Tally, keyword: string) returns (r: Tally)
    ensures r == TallyKeyword(input, t, keyword)
  {
    var normalizedKeyword := NormalizeText(keyword);
    var direct := if Contains(input, normalizedKeyword)
                  then Tally(t.score + DirectPoints(input, keyword, normalizedKeyword), t.matched + [keyword])
                  else t;
    r := AddVariantPoints(input, keyword, VoiceVariations(normalizedKeyword), direct);
  }

  /** The loop over the variants of one keyword: the first variant heard adds the bonus, unless
      the keyword is already matched. */
  method AddVariantPoints(input: string, keyword: string, variants: seq<string>, before: Tally) returns (t: Tally)
    ensures t == VariantBonus(input, keyword, variants, before)
  {
    t := before;
    for k := 0 to |variants|
      invariant t == VariantBonus(input, keyword, variants[..k], before)
    {
      if Contains(input, variants[k]) && keyword !in t.matched {
        t := Tally(t.score + VariantPoints(keyword), t.matched + [keyword]);
      }
      VariantBonusStep(input, keyword, variants, k, before);
    }
    FullSlice(variants);
  }

  /** One more variant: the bonus is paid at it exactly when it is heard and not yet paid. */
  lemma VariantBonusStep(input: string, keyword: string, variants: seq<string>, k: nat, before: Tally)
    requires k < |variants|
    ensures var t := VariantBonus(input, keyword, variants[..k], before);
      VariantBonus(input, keyword, variants[..k + 1], before)
      == if Contains(input, variants[k]) && keyword !in t.matched
         then Tally(t.score + VariantPoints(keyword), t.matched + [keyword]) else t
  {
    AnyContainedStep(input, variants, k);
    assert keyword in before.matched + [keyword];
  }

  lemma AnyContainedStep(input: string, variants: seq<string>, k: nat)
    requires k < |variants|
    ensures AnyContained(input, variants[..k + 1]) == (AnyContained(input, variants[..k]) || Contains(input, variants[k]))
  {
    PrefixOfPrefix(variants, k + 1, k);
  }

  // ---------------------------------------------------------------------------------------------
  // Similarity signals (fuzzyMatch, calculateStringSimilarity)
  // ---------------------------------------------------------------------------------------------

  /** `fuzzyMatch` once the edit distance `distance` of two strings whose longer length is
      `maxLength` is known. */
  function FuzzyFromDistance(distance: nat, maxLength: nat): real {
    if maxLength == 0 then 1.0
    else
      var similarity := 1.0 - distance as real / maxLength as real;
      if similarity - 0.3 < 0.0 then 0.0 else similarity - 0.3
  }

  /** `fuzzyMatch`: one minus the relative edit distance, less 0.3 and floored at 0. Identical
      strings get the top score, 0.7, or 1 when both are empty. */
  function FuzzyMatch(s1: string, s2: string): (r: real)
    ensures 0.0 <= r
    ensures s1 == s2 ==> r == (if s1 == [] then 1.0 else 0.7)
  {
    EditDistanceZeroIffEqual(s1, s2);
    FuzzyFromDistance(EditDistance(s1, s2), Max(|s1|, |s2|))
  }

  /** For two strings not both empty the fuzzy score lies in [0, 0.7]. */
  lemma FuzzyMatchBounds(s1: string, s2: string)
    requires s1 != [] || s2 != []
    ensures 0.0 <= FuzzyMatch(s1, s2) <= 0.7
  {
    var m := Max(|s1|, |s2|);
    var d := EditDistance(s1, s2);
    assert d as real / m as real >= 0.0;
  }

  function CharSet(s: string): set<char> {
    set i | 0 <= i < |s| :: s[i]
  }

  /** `calculateStringSimilarity`: the Jaccard index of the two character sets. The source divides
      by the size of the union, so two empty strings would give NaN; the matcher never asks for
      that case because two empty normal forms are an exact match. */
  function Jaccard(s1: string, s2: string): (r: real)
    requires s1 != [] || s2 != []
    ensures r == 0.0 <==> CharSet(s1) * CharSet(s2) == {}
  {
    var a, b := CharSet(s1), CharSet(s2);
    assert (if s1 != [] then s1[0] else s2[0]) in a + b;
    |a * b| as real / |a + b| as real
  }

  lemma JaccardBounds(s1: string, s2: string)
    requires s1 != [] || s2 != []
    ensures 0.0 <= Jaccard(s1, s2) <= 1.0
  {
    var a, b := CharSet(s1), CharSet(s2);
    assert (if s1 != [] then s1[0] else s2[0]) in a + b;
    SubsetCard(a * b, a + b);
    RatioBounds(|a * b|, |a + b|);
  }

  lemma RatioBounds(x: nat, y: nat)
    requires 0 < y && x <= y
    ensures 0.0 <= x as real / y as real <= 1.0
  {
    var q := x as real / y as real;
    assert q * y as real == x as real;
  }

  lemma SubsetCard<T>(x: set<T>, y: set<T>)
    requires x <= y
    ensures |x| <= |y|
  {
    assert y == x + (y - x);
  }

  // ---------------------------------------------------------------------------------------------
  // calculateMatch
  // ---------------------------------------------------------------------------------------------

  /** Confidence, matched keywords and type after the containment and keyword signals. */
  datatype Stage = Stage(confidence: real, matchedKeywords: seq<string>, matchType: MatchType)

  function ContainmentAndKeywords(ni: string, nc: string, choice: Choice): Stage {
    var s0 := if Contains(ni, nc) || Contains(nc, ni) then Stage(0.9, [choice.text], Partial) else Stage(0.0, [], Partial);
    var kc := KeywordConfidence(ni, choice.keywords);
    if kc > s0.confidence then Stage(kc, TallyAll(ni, choice.keywords).matched, Keyword) else s0
  }

  /** Some exclude keyword's normal form occurs in the normalised utterance. */
  predicate Excluded(ni: string, excludeKeywords: seq<string>) {
    exists i :: 0 <= i < |excludeKeywords| && Contains(ni, NormalizeText(excludeKeywords[i]))
  }

  function Damp(s: Stage, excluded: bool): Stage {
    if excluded then s.(confidence := s.confidence * 0.1) else s
  }

  /** The fuzzy step (below 0.7) and the Jaccard step (below 0.5), each replacing the running
      maximum only when it beats it. */
  function Refine(cfg: MatchingConfig, ni: string, nc: string, s: Stage): Stage
    requires ni != [] || nc != []
  {
    var s1 := if cfg.enableFuzzyMatching && s.confidence < 0.7 && FuzzyMatch(ni, nc) > s.confidence
              then s.(confidence := FuzzyMatch(ni, nc), matchType := Similarity) else s;
    if cfg.enableSimilarityMatching && s1.confidence < 0.5 && Jaccard(ni, nc) > s1.confidence
    then s1.(confidence := Jaccard(ni, nc), matchType := Similarity) else s1
  }

  /** `calculateMatch(input, choice)` as a function of its inputs. */
  function Score(cfg: MatchingConfig, input: string, choice: Choice): (r: MatchResult)
    ensures r.choice == choice && 0.0 <= r.confidence <= 1.0
    ensures r.matchType == Exact <==> NormalizeText(input) == NormalizeText(choice.text)
  {
    var ni, nc := NormalizeText(input), NormalizeText(choice.text);
    if ni == nc then MatchResult(choice, 1.0, [choice.text], Exact)
    else
      FuzzyMatchBounds(ni, nc);
      JaccardBounds(ni, nc);
      var s := Refine(cfg, ni, nc, Damp(ContainmentAndKeywords(ni, nc, choice), Excluded(ni, choice.excludeKeywords)));
      MatchResult(choice, s.confidence, s.matchedKeywords, s.matchType)
  }

  /** `calculateMatch`: the running maximum, step by step. */
  method CalculateMatch(cfg: MatchingConfig, input: string, choice: Choice) returns (r: MatchResult)
    ensures r == Score(cfg, input, choice)
    ensures r.choice == choice && 0.0 <= r.confidence <= 1.0
  {
    ConfidenceBounds(cfg, input, choice);
    var normalizedInput := NormalizeText(input);
    var normalizedChoiceText := NormalizeText(choice.text);
    if normalizedInput == normalizedChoiceText {
      return MatchResult(choice, 1.0, [choice.text], Exact);
    }
    var stage := MatchSignals(normalizedInput, normalizedChoiceText, choice);
    if Excluded(normalizedInput, choice.excludeKeywords) {
      stage := stage.(confidence := stage.confidence * 0.1);
    }
    stage := RefineMatch(cfg, normalizedInput, normalizedChoiceText, stage);
    r := MatchResult(choice, stage.confidence, stage.matchedKeywords, stage.matchType);
  }

  /** Steps 2 and 3 of `calculateMatch`: containment of the normal forms, then the keywords. */
  method MatchSignals(normalizedInput: string, normalizedChoiceText: string, choice: Choice) returns (stage: Stage)
    ensures stage == ContainmentAndKeywords(normalizedInput, normalizedChoiceText, choice)
  {
    var contained := Contains(normalizedInput, normalizedChoiceText) || Contains(normalizedChoiceText, normalizedInput);
    stage := if contained then Stage(0.9, [choice.text], Partial) else Stage(0.0, [], Partial);
    var keywordConfidence, keywordMatched := CheckKeywordMatches(normalizedInput, choice.keywords);
    if keywordConfidence > stage.confidence {
      stage := Stage(keywordConfidence, keywordMatched, Keyword);
    }
    SignalsFrom(normalizedInput, normalizedChoiceText, choice, contained, keywordConfidence, keywordMatched, stage);
  }

  /** The containment and keyword stage in terms of the containment test and the keyword loop's
      two results. */
  lemma SignalsFrom(ni: string, nc: string, choice: Choice, contained: bool, kc: real, km: seq<string>, stage: Stage)
    requires contained == (Contains(ni, nc) || Contains(nc, ni))
    requires kc == KeywordConfidence(ni, choice.keywords) && km == TallyAll(ni, choice.keywords).matched
    requires var s0 := if contained then Stage(0.9, [choice.text], Partial) else Stage(0.0, [], Partial);
      stage == if kc > s0.confidence then Stage(kc, km, Keyword) else s0
    ensures stage == ContainmentAndKeywords(ni, nc, choice)
  {
  }

  /** Steps 5 and 6 of `calculateMatch`: the fuzzy and the Jaccard fallbacks. */
  method RefineMatch(cfg: MatchingConfig, normalizedInput: string, normalizedChoiceText: string, stage: Stage)
    returns (refined: Stage)
    requires normalizedInput != [] || normalizedChoiceText != []
    ensures refined == Refine(cfg, normalizedInput, normalizedChoiceText, stage)
  {
    refined := stage;
    if cfg.enableFuzzyMatching && refined.confidence < 0.7 {
      var distance := LevenshteinDistance(normalizedInput, normalizedChoiceText);
      var fuzzy := FuzzyFromDistance(distance, Max(|normalizedInput|, |normalizedChoiceText|));
      if fuzzy > refined.confidence {
        refined := refined.(confidence := fuzzy, matchType := Similarity);
      }
    }
    if cfg.enableSimilarityMatching && refined.confidence < 0.5 {
      var similarity := Jaccard(normalizedInput, normalizedChoiceText);
      if similarity > refined.confidence {
        refined := refined.(confidence := similarity, matchType := Similarity);
      }
    }
  }

  /** Every confidence the matcher produces lies in [0, 1]. */
  lemma ConfidenceBounds(cfg: MatchingConfig, input: string, choice: Choice)
    ensures 0.0 <= Score(cfg, input, choice).confidence <= 1.0
  {
    var ni, nc := NormalizeText(input), NormalizeText(choice.text);
    if ni != nc {
      FuzzyMatchBounds(ni, nc);
      JaccardBounds(ni, nc);
    }
  }

  /** An exact match of the normal forms scores 1.0 with type `exact`; no other case does. */
  lemma ExactMatch(cfg: MatchingConfig, input: string, choice: Choice)
    ensures Score(cfg, input, choice).matchType == Exact
        <==> NormalizeText(input) == NormalizeText(choice.text)
    ensures NormalizeText(input) == NormalizeText(choice.text)
        ==> Score(cfg, input, choice) == MatchResult(choice, 1.0, [choice.text], Exact)
  {
  }

  /** When one normal form contains the other and no exclude keyword is heard, the confidence is
      at least 0.9, from the containment or a stronger keyword score. */
  lemma ContainmentFloor(cfg: MatchingConfig, input: string, choice: Choice)
    requires var ni, nc := NormalizeText(input), NormalizeText(choice.text);
      Contains(ni, nc) || Contains(nc, ni)
    requires !Excluded(NormalizeText(input), choice.excludeKeywords)
    ensures Score(cfg, input, choice).confidence >= 0.9
    ensures Score(cfg, input, choice).matchType in {Exact, Partial, Keyword}
  {
    var ni, nc := NormalizeText(input), NormalizeText(choice.text);
    if ni != nc {
      ScoreByStages(cfg, input, choice);
      ContainedStage(ni, nc, choice);
      RefineKeepsHigh(cfg, ni, nc, ContainmentAndKeywords(ni, nc, choice));
    }
  }

  /** `calculateMatch` past the exact-match test, as its stages. */
  lemma ScoreByStages(cfg: MatchingConfig, input: string, choice: Choice)
    requires NormalizeText(input) != NormalizeText(choice.text)
    ensures var ni, nc := NormalizeText(input), NormalizeText(choice.text);
      var s := Refine(cfg, ni, nc, Damp(ContainmentAndKeywords(ni, nc, choice), Excluded(ni, choice.excludeKeywords)));
      Score(cfg, input, choice) == MatchResult(choice, s.confidence, s.matchedKeywords, s.matchType)
  {
  }

  /** Containment alone gives 0.9, as a partial match unless a keyword score beats it. */
  lemma ContainedStage(ni: string, nc: string, choice: Choice)
    requires Contains(ni, nc) || Contains(nc, ni)
    ensures ContainmentAndKeywords(ni, nc, choice).confidence >= 0.9
    ensures ContainmentAndKeywords(ni, nc, choice).matchType in {Partial, Keyword}
  {
  }

  /** A running confidence of 0.7 or more is past both similarity steps. */
  lemma RefineKeepsHigh(cfg: MatchingConfig, ni: string, nc: string, s: Stage)
    requires ni != [] || nc != []
    requires s.confidence >= 0.7
    ensures Refine(cfg, ni, nc, s) == s
  {
  }

  /** A heard exclude keyword cuts the containment and keyword score to a tenth: unless a
      similarity signal replaces it, the result is at most a tenth of what the same choice
      without exclude keywords scores. */
  lemma ExcludeDamping(cfg: MatchingConfig, input: string, choice: Choice)
    requires NormalizeText(input) != NormalizeText(choice.text)
    requires Excluded(NormalizeText(input), choice.excludeKeywords)
    ensures var r := Score(cfg, input, choice);
      r.matchType == Similarity
      || (r.confidence <= 0.1 * Score(cfg, input, choice.(excludeKeywords := [])).confidence
          && r.confidence <= 0.1)
  {
    var ni, nc := NormalizeText(input), NormalizeText(choice.text);
    var s := ContainmentAndKeywords(ni, nc, choice);
    var free := choice.(excludeKeywords := []);
    assert !Excluded(ni, free.excludeKeywords);
    assert ContainmentAndKeywords(ni, nc, free) == s.(matchedKeywords := s.matchedKeywords)
      by { assert free.text == choice.text && free.keywords == choice.keywords; }
    RefineRaises(cfg, ni, nc, s);
    KeywordConfidenceBounds(ni, choice.keywords);
  }

  lemma KeywordConfidenceBounds(input: string, keywords: seq<string>)
    ensures 0.0 <= KeywordConfidence(input, keywords) <= 1.0
  {
  }

  /** The similarity steps only raise the running confidence. */
  lemma RefineRaises(cfg: MatchingConfig, ni: string, nc: string, s: Stage)
    requires ni != [] || nc != []
    requires s.matchType != Similarity
    ensures Refine(cfg, ni, nc, s).confidence >= s.confidence
    ensures Refine(cfg, ni, nc, s).matchType == s.matchType ==> Refine(cfg, ni, nc, s) == s
  {
  }

  // ---------------------------------------------------------------------------------------------
  // Keyword floors
  // ---------------------------------------------------------------------------------------------

  /** The keyword loop never lowers the score, and a keyword whose normal form is heard adds at
      least its direct points. */
  lemma TallyAllGrows(input: string, keywords: seq<string>, i: nat)
    requires i < |keywords| && Contains(input, NormalizeText(keywords[i]))
    ensures TallyAll(input, keywords).score
         >= TallyAll(input, keywords[..i]).score + DirectPoints(input, keywords[i], NormalizeText(keywords[i]))
  {
    var upTo := keywords[..i + 1];
    PrefixOfPrefix(keywords, i + 1, i);
    TallyLast(input, upTo);
    TallyKeywordGrows(input, TallyAll(input, keywords[..i]), keywords[i]);
    TallyAllMonotone(input, keywords, i + 1);
  }

  /** The keyword loop never lowers the score. */
  lemma {:induction false} TallyAllMonotone(input: string, keywords: seq<string>, j: nat)
    requires j <= |keywords|
    ensures TallyAll(input, keywords).score >= TallyAll(input, keywords[..j]).score
    decreases |keywords|
  {
    if j < |keywords| {
      var last := |keywords| - 1;
      TallyLast(input, keywords);
      TallyKeywordGrows(input, TallyAll(input, keywords[..last]), keywords[last]);
      PrefixOfPrefix(keywords, last, j);
      TallyAllMonotone(input, keywords[..last], j);
    } else {
      FullSlice(keywords);
    }
  }

  lemma TallyLast(input: string, keywords: seq<string>)
    requires keywords != []
    ensures TallyAll(input, keywords)
         == TallyKeyword(input, TallyAll(input, keywords[..|keywords| - 1]), keywords[|keywords| - 1])
  {
  }

  /** One turn never lowers the score; a heard keyword adds at least its direct points. */
  lemma TallyKeywordGrows(input: string, t: Tally, keyword: string)
    ensures TallyKeyword(input, t, keyword).score >= t.score
    ensures Contains(input, NormalizeText(keyword)) ==>
      TallyKeyword(input, t, keyword).score >= t.score + DirectPoints(input, keyword, NormalizeText(keyword))
  {
  }

  lemma ConfidenceFloor(score: nat, hasNumber: bool, floor: nat, b: real)
    requires score >= floor && b <= 1.0 && b * (if hasNumber then 15.0 else 10.0) <= floor as real
    ensures ConfidenceOf(score, hasNumber) >= b
  {
    var total := score as real;
    if hasNumber {
      assert total / 15.0 - b == (total - b * 15.0) / 15.0;
    } else {
      assert total / 10.0 - b == (total - b * 10.0) / 10.0;
    }
  }

  /** A heard keyword lifts the keyword confidence to its direct points over the ceiling: 12/15
      for a numeral keyword, 7/10 for a word keyword of three or more characters when the choice
      has no numeral keyword. */
  lemma KeywordConfidenceFloor(input: string, keywords: seq<string>, i: nat)
    requires i < |keywords| && Contains(input, NormalizeText(keywords[i]))
    ensures IsNumberKeyword(keywords[i]) ==> KeywordConfidence(input, keywords) >= 0.8
    ensures !HasNumberKeyword(keywords) && |NormalizeText(keywords[i])| >= 3
        ==> KeywordConfidence(input, keywords) >= 0.7
  {
    var nk := NormalizeText(keywords[i]);
    TallyAllGrows(input, keywords, i);
    var score := TallyAll(input, keywords).score;
    if IsNumberKeyword(keywords[i]) {
      assert HasNumberKeyword(keywords);
      ConfidenceFloor(score, true, 12, 0.8);
    } else if !HasNumberKeyword(keywords) && |nk| >= 3 {
      ConfidenceFloor(score, false, 7, 0.7);
    }
  }

  /** A heard keyword survives into the final score when no exclude keyword is heard. */
  lemma KeywordHitFloor(cfg: MatchingConfig, input: string, choice: Choice, i: nat)
    requires i < |choice.keywords| && Contains(NormalizeText(input), NormalizeText(choice.keywords[i]))
    requires !Excluded(NormalizeText(input), choice.excludeKeywords)
    ensures IsNumberKeyword(choice.keywords[i]) ==> Score(cfg, input, choice).confidence >= 0.8
    ensures !HasNumberKeyword(choice.keywords) && |NormalizeText(choice.keywords[i])| >= 3
        ==> Score(cfg, input, choice).confidence >= 0.7
  {
    KeywordConfidenceFloor(NormalizeText(input), choice.keywords, i);
    KeywordScoreKept(cfg, input, choice);
  }

  /** Without a heard exclude keyword, the score is at least the keyword confidence. */
  lemma KeywordScoreKept(cfg: MatchingConfig, input: string, choice: Choice)
    requires !Excluded(NormalizeText(input), choice.excludeKeywords)
    ensures Score(cfg, input, choice).confidence >= KeywordConfidence(NormalizeText(input), choice.keywords)
  {
    var ni, nc := NormalizeText(input), NormalizeText(choice.text);
    if ni != nc {
      var stage := ContainmentAndKeywords(ni, nc, choice);
      RefineRaises(cfg, ni, nc, stage);
    }
  }

  // ---------------------------------------------------------------------------------------------
  // findBestMatches, getBestMatch
  // ---------------------------------------------------------------------------------------------

  function Conf(m: MatchResult): real {
    m.confidence
  }

  /** One result per choice, in the order of the choices. */
  function Results(cfg: MatchingConfig, input: string, choices: seq<Choice>): (r: seq<MatchResult>)
    ensures |r| == |choices|
  {
    seq(|choices|, j requires 0 <= j < |choices| => Score(cfg, input, choices[j]))
  }

  /** `findBestMatches` as a function: the results with a positive confidence, stably sorted by
      confidence. */
  function BestMatches(cfg: MatchingConfig, input: string, choices: seq<Choice>): seq<MatchResult> {
    StableSort(Positive(Results(cfg, input, choices), Conf), Conf)
  }

  /** `findBestMatches`: one `calculateMatch` per choice, keeping the positive ones, then the
      stable sort. */
  method FindBestMatches(cfg: MatchingConfig, input: string, choices: seq<Choice>) returns (results: seq<MatchResult>)
    ensures results == BestMatches(cfg, input, choices)
  {
    results := FilterPositive(cfg, input, choices);
    results := StableSort(results, Conf);
  }

  /** The loop of `findBestMatches`: one `calculateMatch` per choice, keeping the positive ones. */
  method FilterPositive(cfg: MatchingConfig, input: string, choices: seq<Choice>) returns (results: seq<MatchResult>)
    ensures results == Positive(Results(cfg, input, choices), Conf)
  {
    ghost var all := Results(cfg, input, choices);
    results := [];
    for i := 0 to |choices|
      invariant results == Positive(all[..i], Conf)
    {
      var matchResult := CalculateMatch(cfg, input, choices[i]);
      results := KeepPositive(results, matchResult);
      PositiveStep(all, i, Conf);
    }
    FullSlice(all);
  }

  /** Pushes a result onto the list when its confidence is positive. */
  method KeepPositive(results: seq<MatchResult>, matchResult: MatchResult) returns (r: seq<MatchResult>)
    ensures r == results + (if Conf(matchResult) > 0.0 then [matchResult] else [])
  {
    r := results;
    if matchResult.confidence > 0.0 {
      r := r + [matchResult];
    }
  }

  /** `getBestMatch`: the head of the ranking, if any. */
  function GetBestMatch(cfg: MatchingConfig, input: string, choices: seq<Choice>): (r: Option<MatchResult>)
    ensures r.Some? ==> r.value.confidence > 0.0 && r.value.choice in choices
  {
    var matches := BestMatches(cfg, input, choices);
    if |matches| > 0 then
      RankedFromChoices(cfg, input, choices, matches[0]);
      Some(matches[0])
    else None
  }

  /** Every ranked result has a positive confidence and belongs to one of the choices. */
  lemma RankedFromChoices(cfg: MatchingConfig, input: string, choices: seq<Choice>, m: MatchResult)
    requires m in BestMatches(cfg, input, choices)
    ensures m.confidence > 0.0 && m.choice in choices
  {
    var all := Results(cfg, input, choices);
    StableSortSortedPermutation(Positive(all, Conf), Conf);
    assert m in multiset(Positive(all, Conf));
    PositiveMembers(all, Conf);
    var j :| 0 <= j < |all| && all[j] == m;
    assert m.choice == choices[j];
  }

  /** `getBestMatch` answers nothing exactly when every choice scores 0; otherwise it answers the
      result of the first choice whose confidence is the maximum. */
  lemma BestMatchIsFirstMaximal(cfg: MatchingConfig, input: string, choices: seq<Choice>)
    ensures GetBestMatch(cfg, input, choices).None?
        <==> forall j :: 0 <= j < |choices| ==> Results(cfg, input, choices)[j].confidence == 0.0
    ensures GetBestMatch(cfg, input, choices).Some? ==>
      exists k :: IsFirstMaximal(Results(cfg, input, choices), Conf, k)
        && GetBestMatch(cfg, input, choices).value == Results(cfg, input, choices)[k]
        && Results(cfg, input, choices)[k] == Score(cfg, input, choices[k])
  {
    var all := Results(cfg, input, choices);
    forall j | 0 <= j < |choices| ensures Conf(all[j]) >= 0.0 {
      ConfidenceBounds(cfg, input, choices[j]);
    }
    FirstMaximal(all, Conf);
  }

  // ---------------------------------------------------------------------------------------------
  // getConfidenceLevel, ResponseStrategy.determineResponse
  // ---------------------------------------------------------------------------------------------

  datatype ConfidenceLevel = High | Medium | Low

  /** The three levels partition the confidences by the two thresholds, the high one first. */
  function GetConfidenceLevel(cfg: MatchingConfig, confidence: real): (r: ConfidenceLevel)
    ensures r == High <==> confidence >= cfg.highConfidenceThreshold
    ensures r == Medium <==> cfg.mediumConfidenceThreshold <= confidence < cfg.highConfidenceThreshold
    ensures r == Low <==> confidence < cfg.mediumConfidenceThreshold && confidence < cfg.highConfidenceThreshold
  {
    if confidence >= cfg.highConfidenceThreshold then High
    else if confidence >= cfg.mediumConfidenceThreshold then Medium
    else Low
  }

  /** The four response tiers and the data each carries. */
  datatype Response =
    | Direct(choice: Choice, confidence: real)
    | AskConfirmation(choice: Choice, confidence: real, matchedKeywords: seq<string>)
    | OfferChoices(originalInput: MatchResult, confidence: real)
    | Fallback

  /** The tier the response strategy picks for a best match, by confidence level. */
  predicate Answers(r: Response, m: MatchResult, cfg: MatchingConfig) {
    match GetConfidenceLevel(cfg, m.confidence)
    case High => r == Direct(m.choice, m.confidence)
    case Medium => r == AskConfirmation(m.choice, m.confidence, m.matchedKeywords)
    case Low => r == OfferChoices(m, m.confidence)
  }

  function DetermineResponse(matchResult: Option<MatchResult>, cfg: MatchingConfig): (r: Response)
    ensures r == Fallback <==> matchResult.None?
    ensures matchResult.Some? ==> Answers(r, matchResult.value, cfg)
  {
    match matchResult
    case None => Fallback
    case Some(m) =>
      match GetConfidenceLevel(cfg, m.confidence)
      case High => Direct(m.choice, m.confidence)
      case Medium => AskConfirmation(m.choice, m.confidence, m.matchedKeywords)
      case Low => OfferChoices(m, m.confidence)
  }

  /** The response to an utterance: fallback exactly when every choice scores 0, otherwise the
      tier of the first choice with the highest confidence. */
  lemma ResponseTiers(cfg: MatchingConfig, input: string, choices: seq<Choice>)
    ensures var r := DetermineResponse(GetBestMatch(cfg, input, choices), cfg);
      r == Fallback <==> forall j :: 0 <= j < |choices| ==> Score(cfg, input, choices[j]).confidence == 0.0
    ensures var r := DetermineResponse(GetBestMatch(cfg, input, choices), cfg);
      r != Fallback ==>
        exists k :: (IsFirstMaximal(Results(cfg, input, choices), Conf, k)
                     && Answers(r, Score(cfg, input, choices[k]), cfg))
  {
    BestMatchIsFirstMaximal(cfg, input, choices);
    var all := Results(cfg, input, choices);
    assert forall j :: 0 <= j < |choices| ==> all[j] == Score(cfg, input, choices[j]);
  }

  // ---------------------------------------------------------------------------------------------
  // Scenarios
  // ---------------------------------------------------------------------------------------------

  /** With the thresholds the dialog uses, a heard numeral keyword gives a direct transition, and
      a heard word keyword of three or more characters (on a choice without numeral keywords)
      gives at least a confirmation question, provided no exclude keyword of that choice is
      heard. */
  lemma KeywordHitAnswered(input: string, choices: seq<Choice>, j: nat, i: nat)
    requires j < |choices| && i < |choices[j].keywords|
    requires Contains(NormalizeText(input), NormalizeText(choices[j].keywords[i]))
    requires !Excluded(NormalizeText(input), choices[j].excludeKeywords)
    ensures var r := DetermineResponse(GetBestMatch(DefaultConfig, input, choices), DefaultConfig);
      IsNumberKeyword(choices[j].keywords[i]) ==> r.Direct?
    ensures var r := DetermineResponse(GetBestMatch(DefaultConfig, input, choices), DefaultConfig);
      !HasNumberKeyword(choices[j].keywords) && |NormalizeText(choices[j].keywords[i])| >= 3
      ==> r.Direct? || r.AskConfirmation?
  {
    KeywordHitFloor(DefaultConfig, input, choices[j], i);
    if IsNumberKeyword(choices[j].keywords[i]) {
      BestAtLeast(DefaultConfig, input, choices, j, 0.8);
    } else if !HasNumberKeyword(choices[j].keywords) && |NormalizeText(choices[j].keywords[i])| >= 3 {
      BestAtLeast(DefaultConfig, input, choices, j, 0.7);
    }
  }

  /** When some choice scores at least `floor > 0`, there is a best match, and it scores at least
      `floor` too. */
  lemma BestAtLeast(cfg: MatchingConfig, input: string, choices: seq<Choice>, j: nat, floor: real)
    requires j < |choices| && floor > 0.0 && Score(cfg, input, choices[j]).confidence >= floor
    ensures GetBestMatch(cfg, input, choices).Some?
    ensures GetBestMatch(cfg, input, choices).value.confidence >= floor
  {
    var all := Results(cfg, input, choices);
    BestMatchIsFirstMaximal(cfg, input, choices);
    assert all[j].confidence >= floor;
    var k :| IsFirstMaximal(all, Conf, k) && GetBestMatch(cfg, input, choices).value == all[k];
    assert Conf(all[j]) <= Conf(all[k]);
  }

  /** A string that occurs in `s` shares its first character with `s`. */
  lemma {:induction false} DisjointNotContained(s: string, t: string)
    requires t != [] && forall p :: 0 <= p < |s| ==> s[p] != t[0]
    ensures !Contains(s, t)
  {
    if s != [] {
      assert |t| > |s| || s[..|t|][0] == s[0];
      DisjointNotContained(s[1..], t);
    }
  }

  /** The keyword loop scores nothing when no keyword and no variant of one is heard. */
  lemma {:induction false} NothingHeard(input: string, keywords: seq<string>)
    requires forall i :: 0 <= i < |keywords| ==>
      (!Contains(input, NormalizeText(keywords[i]))
       && !AnyContained(input, VoiceVariations(NormalizeText(keywords[i]))))
    ensures TallyAll(input, keywords) == Tally(0, [])
  {
    if keywords != [] {
      NothingHeard(input, keywords[..|keywords| - 1]);
    }
  }

  /** Neither normal form is empty, they share no character, and no keyword or variant of the
      choice is heard. */
  predicate Unrelated(ni: string, choice: Choice) {
    var nc := NormalizeText(choice.text);
    ni != [] && nc != []
    && (forall p, q :: 0 <= p < |ni| && 0 <= q < |nc| ==> ni[p] != nc[q])
    && forall i :: 0 <= i < |choice.keywords| ==>
         (!Contains(ni, NormalizeText(choice.keywords[i]))
          && !AnyContained(ni, VoiceVariations(NormalizeText(choice.keywords[i]))))
  }

  /** An unrelated utterance scores 0: no containment or keyword, an edit distance as long as the
      longer string, and an empty character intersection. */
  lemma UnrelatedScoresZero(cfg: MatchingConfig, input: string, choice: Choice)
    requires Unrelated(NormalizeText(input), choice)
    ensures Score(cfg, input, choice).confidence == 0.0
  {
    UnrelatedSignals(NormalizeText(input), choice);
    SilentSignalsScoreZero(cfg, input, choice);
  }

  /** Each signal of an unrelated utterance is silent. */
  lemma UnrelatedSignals(ni: string, choice: Choice)
    requires Unrelated(ni, choice)
    ensures var nc := NormalizeText(choice.text);
      ni != nc && !Contains(ni, nc) && !Contains(nc, ni)
      && TallyAll(ni, choice.keywords) == Tally(0, [])
      && FuzzyMatch(ni, nc) == 0.0 && Jaccard(ni, nc) == 0.0
  {
    var nc := NormalizeText(choice.text);
    assert ni[0] != nc[0];
    DisjointNotContained(ni, nc);
    DisjointNotContained(nc, ni);
    NothingHeard(ni, choice.keywords);
    DisjointSimilarityZero(ni, nc);
  }

  /** Both similarity signals are 0 for two non-empty strings without a common character. */
  lemma DisjointSimilarityZero(a: string, b: string)
    requires a != [] && b != []
    requires forall p, q :: 0 <= p < |a| && 0 <= q < |b| ==> a[p] != b[q]
    ensures FuzzyMatch(a, b) == 0.0 && Jaccard(a, b) == 0.0
  {
    EditDistanceDisjoint(a, b);
    FuzzyAtFullDistance(Max(|a|, |b|));
    forall x | x in CharSet(a) ensures x !in CharSet(b) {
      var p :| 0 <= p < |a| && a[p] == x;
      assert forall q :: 0 <= q < |b| ==> b[q] != x;
    }
    assert CharSet(a) * CharSet(b) == {};
    var union := CharSet(a) + CharSet(b);
    assert a[0] in union;
    ZeroRatio(|union|);
    assert Jaccard(a, b) == 0 as real / |union| as real;
  }

  lemma ZeroRatio(y: nat)
    requires y > 0
    ensures 0 as real / y as real == 0.0
  {
  }

  lemma FuzzyAtFullDistance(m: nat)
    requires m > 0
    ensures FuzzyFromDistance(m, m) == 0.0
  {
    assert m as real / m as real == 1.0;
  }

  /** When containment, keywords and both similarity signals are all 0, so is the score. */
  lemma SilentSignalsScoreZero(cfg: MatchingConfig, input: string, choice: Choice)
    requires var ni, nc := NormalizeText(input), NormalizeText(choice.text);
      ni != nc && !Contains(ni, nc) && !Contains(nc, ni)
      && TallyAll(ni, choice.keywords) == Tally(0, [])
      && FuzzyMatch(ni, nc) == 0.0 && Jaccard(ni, nc) == 0.0
    ensures Score(cfg, input, choice).confidence == 0.0
  {
    var ni, nc := NormalizeText(input), NormalizeText(choice.text);
    assert ContainmentAndKeywords(ni, nc, choice).confidence == 0.0;
  }

  /** An utterance unrelated to every choice gets the fallback response. */
  lemma UnrelatedFallsBack(cfg: MatchingConfig, input: string, choices: seq<Choice>)
    requires forall j :: 0 <= j < |choices| ==> Unrelated(NormalizeText(input), choices[j])
    ensures DetermineResponse(GetBestMatch(cfg, input, choices), cfg) == Fallback
  {
    forall j | 0 <= j < |choices| ensures Score(cfg, input, choices[j]).confidence == 0.0 {
      UnrelatedScoresZero(cfg, input, choices[j]);
    }
    ResponseTiers(cfg, input, choices);
  }

  /** Every variant in the table is a non-empty string. */
  lemma {:induction false} NothingInEmpty(variants: seq<string>)
    requires forall i :: 0 <= i < |variants| ==> variants[i] != []
    ensures !AnyContained([], variants)
  {
    if variants != [] {
      NothingInEmpty(variants[..|variants| - 1]);
      ContainsLengthContra(variants[|variants| - 1]);
    }
  }

  /** The empty string contains only the empty string. */
  lemma ContainsLengthContra(t: string)
    requires t != []
    ensures !Contains([], t)
  {
  }

  /** Every keyword and exclude keyword of the choice, and its text, normalise to something. */
  predicate NonBlank(choice: Choice) {
    NormalizeText(choice.text) != []
    && (forall i :: 0 <= i < |choice.keywords| ==> NormalizeText(choice.keywords[i]) != [])
    && (forall i :: 0 <= i < |choice.excludeKeywords| ==> NormalizeText(choice.excludeKeywords[i]) != [])
  }

  /** An utterance that normalises to nothing is contained in every choice text: it scores 0.9
      with type `partial` against every choice whose strings are not blank. */
  lemma BlankUtteranceScore(cfg: MatchingConfig, input: string, choice: Choice)
    requires NormalizeText(input) == [] && NonBlank(choice)
    ensures Score(cfg, input, choice) == MatchResult(choice, 0.9, [choice.text], Partial)
  {
    var nc := NormalizeText(choice.text);
    ContainsTrivial(nc);
    forall i | 0 <= i < |choice.keywords|
      ensures !Contains([], NormalizeText(choice.keywords[i]))
      ensures !AnyContained([], VoiceVariations(NormalizeText(choice.keywords[i])))
    {
      ContainsLengthContra(NormalizeText(choice.keywords[i]));
      NothingInEmpty(VoiceVariations(NormalizeText(choice.keywords[i])));
    }
    NothingHeard([], choice.keywords);
    forall i | 0 <= i < |choice.excludeKeywords|
      ensures !Contains([], NormalizeText(choice.excludeKeywords[i]))
    {
      ContainsLengthContra(NormalizeText(choice.excludeKeywords[i]));
    }
    assert !Excluded([], choice.excludeKeywords);
    assert ContainmentAndKeywords([], nc, choice) == Stage(0.9, [choice.text], Partial);
  }

  /** Hence, with the dialog's thresholds, a blank utterance selects the first choice directly. */
  lemma BlankUtteranceSelectsFirst(input: string, choices: seq<Choice>)
    requires NormalizeText(input) == [] && choices != []
    requires forall j :: 0 <= j < |choices| ==> NonBlank(choices[j])
    ensures DetermineResponse(GetBestMatch(DefaultConfig, input, choices), DefaultConfig) == Direct(choices[0], 0.9)
  {
    var cfg := DefaultConfig;
    var all := Results(cfg, input, choices);
    forall j | 0 <= j < |choices| ensures all[j] == MatchResult(choices[j], 0.9, [choices[j].text], Partial) {
      BlankUtteranceScore(cfg, input, choices[j]);
    }
    ResponseTiers(cfg, input, choices);
    var r := DetermineResponse(GetBestMatch(cfg, input, choices), cfg);
    assert all[0].confidence > 0.0;
    var k :| IsFirstMaximal(all, Conf, k) && Answers(r, Score(cfg, input, choices[k]), cfg);
    assert k == 0 by {
      assert Conf(all[0]) == Conf(all[k]);
    }
    assert all[0] == Score(cfg, input, choices[0]);
  }

  /** A heard exclude keyword does not keep a choice out of the direct tier: the Jaccard step
      runs after the damping and replaces the damped confidence by the Jaccard index, which is 1
      when the two normal forms use the same characters. */
  lemma ExcludedChoiceCanStillWin(input: string, choice: Choice)
    requires var ni, nc := NormalizeText(input), NormalizeText(choice.text);
      ni != nc && ni != [] && CharSet(ni) == CharSet(nc)
      && Excluded(ni, choice.excludeKeywords) && FuzzyMatch(ni, nc) < 0.5
    ensures var r := Score(DefaultConfig, input, choice);
      r.confidence == 1.0 && r.matchType == Similarity
      && DetermineResponse(Some(r), DefaultConfig) == Direct(choice, 1.0)
  {
    var ni, nc := NormalizeText(input), NormalizeText(choice.text);
    SameCharsJaccard(ni, nc);
    DampedStageBound(ContainmentAndKeywords(ni, nc, choice));
    JaccardTakesOver(DefaultConfig, ni, nc, Damp(ContainmentAndKeywords(ni, nc, choice), true));
  }

  lemma DampedStageBound(s: Stage)
    requires s.confidence <= 1.0
    ensures Damp(s, true).confidence <= 0.1
  {
  }

  /** With little scored so far, a fuzzy score below 0.5 and a Jaccard index of 1, the Jaccard
      step decides the stage. */
  lemma JaccardTakesOver(cfg: MatchingConfig, ni: string, nc: string, s: Stage)
    requires ni != [] || nc != []
    requires cfg.enableSimilarityMatching && s.confidence <= 0.1
    requires FuzzyMatch(ni, nc) < 0.5 && Jaccard(ni, nc) == 1.0
    ensures Refine(cfg, ni, nc, s).confidence == 1.0 && Refine(cfg, ni, nc, s).matchType == Similarity
  {
  }

  /** An instance: for two distinct normal characters x and y, the utterance "yx" names the
      exclude keyword "y" of the choice "xy" and still selects that choice directly. */
  lemma SwappedUtteranceSelectsExcludedChoice(x: char, y: char, id: string, next: string)
    requires IsNormal(x) && IsNormal(y) && x != y
    ensures var choice := Choice(id, [x, y], [], [[y]], next);
      Excluded(NormalizeText([y, x]), choice.excludeKeywords)
      && DetermineResponse(Some(Score(DefaultConfig, [y, x], choice)), DefaultConfig) == Direct(choice, 1.0)
  {
    var choice := Choice(id, [x, y], [], [[y]], next);
    SwapNormal(x, y);
    SwapSignals(x, y);
    SwapExcluded(x, y, choice);
    ExcludedChoiceCanStillWin([y, x], choice);
  }

  lemma SwapNormal(x: char, y: char)
    requires IsNormal(x) && IsNormal(y)
    ensures NormalizeText([y, x]) == [y, x] && NormalizeText([x, y]) == [x, y]
  {
    NormalPairFixed([y, x]);
    NormalPairFixed([x, y]);
  }

  /** The swap differs from the original, uses the same characters, and is two edits away. */
  lemma SwapSignals(x: char, y: char)
    requires x != y
    ensures [y, x] != [x, y] && CharSet([y, x]) == CharSet([x, y]) && FuzzyMatch([y, x], [x, y]) < 0.5
  {
    assert [y, x][0] != [x, y][0];
    CharSetPair(y, x);
    CharSetPair(x, y);
    SwapDistance(x, y);
    FuzzyAtFullDistance(2);
  }

  /** The exclude keyword `y` occurs at the head of the swapped utterance. */
  lemma SwapExcluded(x: char, y: char, choice: Choice)
    requires IsNormal(y) && choice.excludeKeywords == [[y]]
    ensures Excluded([y, x], choice.excludeKeywords)
  {
    NormalSingleFixed(y);
    assert StartsWith([y, x], [y]);
    assert Contains([y, x], NormalizeText(choice.excludeKeywords[0]));
  }

  lemma CharSetPair(x: char, y: char)
    ensures CharSet([x, y]) == {x, y}
  {
    assert [x, y][0] == x && [x, y][1] == y;
  }

  /** Two non-empty strings over the same characters have Jaccard index 1. */
  lemma SameCharsJaccard(a: string, b: string)
    requires a != [] && CharSet(a) == CharSet(b)
    ensures Jaccard(a, b) == 1.0
  {
    var cs := CharSet(a);
    assert a[0] in cs;
    assert cs * cs == cs && cs + cs == cs;
    var n := |cs| as real;
    assert n / n == 1.0;
  }

  /** Swapping two distinct characters costs two edits. */
  lemma SwapDistance(x: char, y: char)
    requires x != y
    ensures EditDistance([y, x], [x, y]) == 2
  {
    EditDistanceBounds([y, x], [x, y]);
    EditDistanceBounds([y], [x, y]);
    EditDistanceBounds([y, x], [x]);
    EditDistanceZeroIffEqual([y], [x]);
    assert [y, x][..1] == [y] && [x, y][..1] == [x];
  }
}
