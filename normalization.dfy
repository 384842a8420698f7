/** `KeywordMatcher.normalizeText` (src/services/keywordMatcher.ts:269-283): lower-case, trim, fold
    katakana to hiragana, fold full-width letters and digits to ASCII, delete every whitespace
    character. `NormalizePipeline` applies those stages in the source's order; `NormalizeText`
    folds one character at a time and drops whitespace, and `NormalizeFollowsPipeline` proves the
    two equal on every string. The matcher uses the per-character form. */
module Normalization {
  import opened Strings

  /** `toLowerCase` on one character. Concrete for ASCII letters and for full-width Latin capitals
      (U+FF21..U+FF3A, lowered to U+FF41..U+FF5A); every other character is left as it is. */
  function LowerChar(c: char): char {
    if 'A' <= c <= 'Z' then (c as int + 32) as char
    else if '\U{FF21}' <= c <= '\U{FF3A}' then (c as int + 32) as char
    else c
  }

  /** `[ァ-ヶ]`: katakana U+30A1..U+30F6. */
  predicate IsKatakana(c: char) {
    '\U{30A1}' <= c <= '\U{30F6}'
  }

  /** `[Ａ-Ｚａ-ｚ０-９]`: full-width Latin letters and digits. */
  predicate IsFullWidthAlnum(c: char) {
    ('\U{FF21}' <= c <= '\U{FF3A}') || ('\U{FF41}' <= c <= '\U{FF5A}') || ('\U{FF10}' <= c <= '\U{FF19}')
  }

  /** Shift a katakana character down by 0x60, onto the matching hiragana. */
  function KanaChar(c: char): char {
    if IsKatakana(c) then (c as int - 0x60) as char else c
  }

  /** Shift a full-width letter or digit down by 0xFEE0, onto its ASCII form. */
  function WidthChar(c: char): char {
    if IsFullWidthAlnum(c) then (c as int - 0xFEE0) as char else c
  }

  function MapLower(s: string): (r: string)
    ensures |r| == |s| && forall i :: 0 <= i < |s| ==> r[i] == LowerChar(s[i])
  {
    seq(|s|, i requires 0 <= i < |s| => LowerChar(s[i]))
  }

  function MapKana(s: string): (r: string)
    ensures |r| == |s| && forall i :: 0 <= i < |s| ==> r[i] == KanaChar(s[i])
  {
    seq(|s|, i requires 0 <= i < |s| => KanaChar(s[i]))
  }

  function MapWidth(s: string): (r: string)
    ensures |r| == |s| && forall i :: 0 <= i < |s| ==> r[i] == WidthChar(s[i])
  {
    seq(|s|, i requires 0 <= i < |s| => WidthChar(s[i]))
  }

  /** Deletes every whitespace run; runs are removed, not collapsed to one space. */
  function RemoveWhitespace(s: string): (r: string)
    ensures |r| <= |s|
    ensures forall i :: 0 <= i < |r| ==> !IsWhitespace(r[i])
    ensures forall i :: 0 <= i < |r| ==> r[i] in s
  {
    if s == [] then []
    else if IsWhitespace(s[0]) then RemoveWhitespace(s[1..])
    else [s[0]] + RemoveWhitespace(s[1..])
  }

  /** A character that every stage of the normalisation leaves alone. */
  predicate IsNormal(c: char) {
    !IsWhitespace(c) && !('A' <= c <= 'Z') && !('\U{FF21}' <= c <= '\U{FF3A}')
    && !IsKatakana(c) && !IsFullWidthAlnum(c)
  }

  predicate AllNormal(s: string) {
    forall i :: 0 <= i < |s| ==> IsNormal(s[i])
  }

  /** Lower-case, katakana fold and full-width fold of one character. */
  function FoldChar(c: char): char {
    WidthChar(KanaChar(LowerChar(c)))
  }

  /** The normal form, one character at a time: whitespace is dropped, everything else folded. */
  function NormalizeText(s: string): (r: string)
    ensures |r| <= |s|
  {
    if s == [] then []
    else (if IsWhitespace(s[0]) then [] else [FoldChar(s[0])]) + NormalizeText(s[1..])
  }

  /** The stages of `normalizeText` in the source's order. */
  function NormalizePipeline(s: string): (r: string)
    ensures |r| <= |s|
  {
    RemoveWhitespace(MapWidth(MapKana(Trim(MapLower(s)))))
  }

  /** No stage turns whitespace into something else or something else into whitespace, and
      lower-casing twice is lower-casing once. */
  lemma FoldKeepsWhitespace(c: char)
    ensures IsWhitespace(LowerChar(c)) == IsWhitespace(c)
    ensures IsWhitespace(KanaChar(c)) == IsWhitespace(c)
    ensures IsWhitespace(WidthChar(c)) == IsWhitespace(c)
    ensures LowerChar(LowerChar(c)) == LowerChar(c)
  {
  }

  /** The staged pipeline and the per-character form agree on every string. */
  lemma NormalizeFollowsPipeline(s: string)
    ensures NormalizePipeline(s) == NormalizeText(s)
  {
    var l := MapLower(s);
    var t := Trim(l);
    forall i | 0 <= i < |t| ensures LowerChar(t[i]) == t[i] {
      var k := TrimOffset(l, i);
      FoldKeepsWhitespace(s[k]);
    }
    FoldsOfLowered(t);
    NormalizeTrim(l);
    NormalizeLowered(s);
  }

  /** On a string lower-casing leaves alone, the katakana and width maps followed by whitespace
      removal are the per-character form. */
  lemma {:induction false} FoldsOfLowered(t: string)
    requires forall i :: 0 <= i < |t| ==> LowerChar(t[i]) == t[i]
    ensures RemoveWhitespace(MapWidth(MapKana(t))) == NormalizeText(t)
  {
    if t != [] {
      var u := MapWidth(MapKana(t));
      assert u[1..] == MapWidth(MapKana(t[1..]));
      FoldKeepsWhitespace(t[0]);
      FoldKeepsWhitespace(KanaChar(t[0]));
      FoldsOfLowered(t[1..]);
    }
  }

  /** Lower-casing first changes nothing in the normal form. */
  lemma {:induction false} NormalizeLowered(s: string)
    ensures NormalizeText(MapLower(s)) == NormalizeText(s)
  {
    if s != [] {
      var l := MapLower(s);
      assert l[1..] == MapLower(s[1..]);
      FoldKeepsWhitespace(s[0]);
      NormalizeLowered(s[1..]);
    }
  }

  /** Normalisation distributes over concatenation. */
  lemma {:induction false} NormalizeAppend(p: string, q: string)
    ensures NormalizeText(p + q) == NormalizeText(p) + NormalizeText(q)
  {
    if p != [] {
      assert (p + q)[1..] == p[1..] + q;
      NormalizeAppend(p[1..], q);
    } else {
      assert p + q == q;
    }
  }

  /** Trimming first changes nothing in the normal form. */
  lemma NormalizeTrim(s: string)
    ensures NormalizeText(Trim(s)) == NormalizeText(s)
  {
    NormalizeTrimStart(s);
    NormalizeTrimEnd(TrimStart(s));
  }

  lemma {:induction false} NormalizeTrimStart(s: string)
    ensures NormalizeText(TrimStart(s)) == NormalizeText(s)
  {
    if s != [] && IsWhitespace(s[0]) {
      NormalizeTrimStart(s[1..]);
    }
  }

  lemma {:induction false} NormalizeTrimEnd(s: string)
    ensures NormalizeText(TrimEnd(s)) == NormalizeText(s)
  {
    if s != [] && IsWhitespace(s[|s| - 1]) {
      var p := s[..|s| - 1];
      assert s == p + [s[|s| - 1]];
      NormalizeAppend(p, [s[|s| - 1]]);
      NormalizeTrimEnd(p);
    }
  }

  /** The characters the three maps produce, from a character that is not whitespace. */
  lemma NormalChar(c: char)
    ensures !IsWhitespace(c) ==> IsNormal(FoldChar(c))
    ensures IsNormal(c) ==> FoldChar(c) == c
  {
  }

  /** Every character of a normalised string is normal: no whitespace, no upper-case ASCII or
      full-width capitals, no katakana, no full-width letters or digits. */
  lemma {:induction false} NormalizeOutput(s: string)
    ensures AllNormal(NormalizeText(s))
  {
    if s != [] {
      NormalChar(s[0]);
      NormalizeOutput(s[1..]);
    }
  }

  /** A string of normal characters is its own normal form. */
  lemma {:induction false} NormalizeFixesNormal(s: string)
    requires AllNormal(s)
    ensures NormalizeText(s) == s
  {
    if s != [] {
      NormalChar(s[0]);
      NormalizeFixesNormal(s[1..]);
    }
  }

  /** A normal character is its own normal form. */
  lemma NormalSingleFixed(c: char)
    requires IsNormal(c)
    ensures NormalizeText([c]) == [c]
  {
    NormalizeFixesNormal([c]);
  }

  /** Two normal characters are their own normal form. */
  lemma NormalPairFixed(s: string)
    requires |s| == 2 && IsNormal(s[0]) && IsNormal(s[1])
    ensures NormalizeText(s) == s
  {
    assert AllNormal(s);
    NormalizeFixesNormal(s);
  }

  /** Normalising twice changes nothing. */
  lemma NormalizeIdempotent(s: string)
    ensures NormalizeText(NormalizeText(s)) == NormalizeText(s)
  {
    NormalizeOutput(s);
    NormalizeFixesNormal(NormalizeText(s));
  }
}
