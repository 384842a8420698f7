/** String helpers shared by the services: the JavaScript `String` operations the source calls,
    restated over `seq<char>`. */
module Strings {
  import opened Wrappers

  /** `s.startsWith(p)` */
  predicate StartsWith(s: string, p: string) {
    |p| <= |s| && s[..|p|] == p
  }

  /** `s.endsWith(p)` */
  predicate EndsWith(s: string, p: string) {
    |p| <= |s| && s[|s| - |p|..] == p
  }

  /** `t` occurs in `s` at some position. */
  predicate Contains(s: string, t: string)
    decreases |s|
  {
    StartsWith(s, t) || (|s| > 0 && Contains(s[1..], t))
  }

  lemma {:induction false} ContainsAt(s: string, t: string, i: nat)
    requires i + |t| <= |s| && s[i..i + |t|] == t
    ensures Contains(s, t)
    decreases i
  {
    if i > 0 {
      assert s[1..][i - 1..i - 1 + |t|] == t;
      ContainsAt(s[1..], t, i - 1);
    }
  }

  lemma {:induction false} ContainsWitness(s: string, t: string) returns (i: nat)
    requires Contains(s, t)
    ensures i + |t| <= |s| && s[i..i + |t|] == t
    decreases |s|
  {
    if StartsWith(s, t) {
      i := 0;
    } else {
      var j := ContainsWitness(s[1..], t);
      i := j + 1;
      assert s[i..i + |t|] == s[1..][j..j + |t|];
    }
  }

  lemma FullSlice<T>(s: seq<T>)
    ensures s[..|s|] == s
  {
  }

  /** A prefix of a prefix is a prefix. */
  lemma PrefixOfPrefix<T>(s: seq<T>, n: nat, i: nat)
    requires i <= n <= |s|
    ensures s[..n][..i] == s[..i]
  {
  }

  /** A string contains itself and contains the empty string. */
  lemma ContainsTrivial(s: string)
    ensures Contains(s, s) && Contains(s, [])
  {
    assert StartsWith(s, s);
    assert StartsWith(s, []);
  }

  /** A string contains only strings at most as long as itself. */
  lemma {:induction false} ContainsLength(s: string, t: string)
    requires Contains(s, t)
    ensures |t| <= |s|
  {
    var i := ContainsWitness(s, t);
  }

  /** JavaScript truthiness of an optional string: `undefined` and `''` are falsy. */
  predicate Truthy(o: Option<string>) {
    o.Some? && o.value != ""
  }

  /** The logical-or default for an optional string: the value when truthy, else `d`. */
  function OrElse(o: Option<string>, d: string): (r: string)
    ensures Truthy(o) ==> r == o.value
    ensures !Truthy(o) ==> r == d
  {
    if Truthy(o) then o.value else d
  }

  /** `\d` in a JavaScript regular expression: an ASCII digit. */
  predicate IsDigit(c: char) {
    '0' <= c <= '9'
  }

  predicate AllDigits(s: string) {
    forall i :: 0 <= i < |s| ==> IsDigit(s[i])
  }

  /** The digits of `s`, in order, with every other character deleted. */
  function DigitsOnly(s: string): (r: string)
    ensures AllDigits(r)
    ensures |r| <= |s|
  {
    if s == [] then []
    else (if IsDigit(s[0]) then [s[0]] else []) + DigitsOnly(s[1..])
  }

  /** The decimal value of a string of ASCII digits. */
  function DecimalValue(s: string): nat
    requires AllDigits(s)
  {
    if s == [] then 0
    else 10 * DecimalValue(s[..|s| - 1]) + (s[|s| - 1] as int - '0' as int)
  }

  /** The digits of `s` read as a decimal number; `None` stands for `NaN` (no digit at all). */
  function ParseDigits(s: string): (r: Option<nat>)
    ensures r.None? <==> DigitsOnly(s) == []
  {
    var d := DigitsOnly(s);
    if d == [] then None else Some(DecimalValue(d))
  }

  /** JavaScript `\s` and the characters `String.prototype.trim` removes. */
  predicate IsWhitespace(c: char) {
    c == ' ' || c == '\t' || c == '\n' || c == '\r' || c == '\U{000B}' || c == '\U{000C}'
    || c == '\U{00A0}' || c == '\U{1680}' || ('\U{2000}' <= c <= '\U{200A}')
    || c == '\U{2028}' || c == '\U{2029}' || c == '\U{202F}' || c == '\U{205F}'
    || c == '\U{3000}' || c == '\U{FEFF}'
  }

  /** `s.trim()` */
  function Trim(s: string): (r: string)
    ensures |r| <= |s|
    ensures r != [] ==> !IsWhitespace(r[0]) && !IsWhitespace(r[|r| - 1])
  {
    TrimEnd(TrimStart(s))
  }

  function TrimStart(s: string): (r: string)
    ensures |r| <= |s|
    ensures r != [] ==> !IsWhitespace(r[0])
    ensures forall i :: 0 <= i < |r| ==> r[i] == s[|s| - |r| + i]
  {
    if s != [] && IsWhitespace(s[0]) then TrimStart(s[1..]) else s
  }

  function TrimEnd(s: string): (r: string)
    ensures |r| <= |s|
    ensures r != [] ==> !IsWhitespace(r[|r| - 1])
    ensures r == s[..|r|]
  {
    if s != [] && IsWhitespace(s[|s| - 1]) then TrimEnd(s[..|s| - 1]) else s
  }

  /** Every character of the trimmed string is a character of the string. */
  lemma TrimOffset(s: string, i: nat) returns (k: nat)
    requires i < |Trim(s)|
    ensures k < |s| && Trim(s)[i] == s[k]
  {
    var t := TrimStart(s);
    assert Trim(s) == t[..|Trim(s)|];
    k := |s| - |t| + i;
  }

  /** A string holding only whitespace (or nothing) trims to the empty string. */
  lemma {:induction false} TrimEmptyIffBlank(s: string)
    ensures Trim(s) == [] <==> forall i :: 0 <= i < |s| ==> IsWhitespace(s[i])
  {
    TrimStartBlank(s);
    var t := TrimStart(s);
    if t != [] {
      assert Trim(s) != [] by { TrimEndNonEmpty(t); }
      assert !IsWhitespace(s[|s| - |t|]);
    }
  }

  lemma {:induction false} TrimStartBlank(s: string)
    ensures TrimStart(s) == [] <==> forall i :: 0 <= i < |s| ==> IsWhitespace(s[i])
  {
    if s != [] && IsWhitespace(s[0]) {
      TrimStartBlank(s[1..]);
      assert forall i :: 1 <= i < |s| ==> s[i] == s[1..][i - 1];
    }
  }

  lemma TrimEndNonEmpty(t: string)
    requires t != [] && !IsWhitespace(t[0])
    ensures TrimEnd(t) != []
  {
    TrimEndKeepsLeading(t);
  }

  lemma {:induction false} TrimEndKeepsLeading(t: string)
    requires t != [] && !IsWhitespace(t[0])
    ensures |TrimEnd(t)| >= 1
  {
    if IsWhitespace(t[|t| - 1]) {
      assert |t| > 1;
      TrimEndKeepsLeading(t[..|t| - 1]);
    }
  }

  predicate OccursAt(s: string, t: string, i: nat) {
    i + |t| <= |s| && s[i..i + |t|] == t
  }

  /** `s.indexOf(t)` from position `i` on. */
  function IndexOf(s: string, t: string, i: nat): (r: int)
    decreases |s| + 1 - i
    ensures r == -1 || (i <= r && OccursAt(s, t, r) && forall j :: i <= j < r ==> !OccursAt(s, t, j))
    ensures r == -1 ==> forall j :: i <= j ==> !OccursAt(s, t, j)
  {
    if i + |t| > |s| then -1
    else if OccursAt(s, t, i) then i
    else IndexOf(s, t, i + 1)
  }

  /** Replacing a string pattern by nothing: only the first occurrence of `t` is removed. */
  function RemoveFirst(s: string, t: string): (r: string)
    ensures IndexOf(s, t, 0) == -1 ==> r == s
    ensures IndexOf(s, t, 0) >= 0 ==> |r| == |s| - |t|
    ensures IndexOf(s, t, 0) >= 0 ==> r[..IndexOf(s, t, 0)] + t + r[IndexOf(s, t, 0)..] == s
  {
    var i := IndexOf(s, t, 0);
    if i == -1 then s else s[..i] + s[i + |t|..]
  }
}
