/** Text as the engine stores, compares and searches it. Characters are code points. */
module Texts {

  /** Strings are handed to the engine and to the lower-casing as C strings. */
  function UpToNul(s: string): (r: string)
    ensures r <= s && '\0' !in r
    ensures '\0' !in s ==> r == s
  {
    if s == [] || s[0] == '\0' then [] else [s[0]] + UpToNul(s[1..])
  }

  type Lower = string -> string

  predicate Upper(c: char) {
    'A' <= c <= 'Z'
  }

  function Fold(c: char): char {
    if Upper(c) then ((c as int) + 32) as char else c
  }

  predicate NoUpper(s: string) {
    forall c | c in s :: !Upper(c)
  }

  /** What is needed of lower-casing: it reads a C string and leaves no ASCII capital. */
  predicate LowersWell(lower: Lower, s: string) {
    lower(s) == lower(UpToNul(s)) && '\0' !in lower(s) && NoUpper(lower(s))
  }

  ghost predicate Lowering(lower: Lower) {
    forall s {:trigger LowersWell(lower, s)} :: LowersWell(lower, s)
  }

  /** SQLite's LIKE without ESCAPE: % is any text, _ any character, ASCII letters match in either case. */
  predicate Like(text: string, pattern: string)
    decreases |text| + |pattern|
  {
    if pattern == [] then text == []
    else if pattern[0] == '%' then Like(text, pattern[1..]) || (text != [] && Like(text[1..], pattern))
    else text != [] && (pattern[0] == '_' || Fold(pattern[0]) == Fold(text[0])) && Like(text[1..], pattern[1..])
  }

  predicate Contains(text: string, s: string) {
    exists i | 0 <= i <= |text| :: s <= text[i..]
  }

  /** The condition of a search for s. */
  predicate Found(text: string, s: string) {
    Like(text, "%" + s + "%")
  }

  predicate Wildcard(c: char) {
    c == '%' || c == '_'
  }

  predicate HasWildcard(s: string) {
    exists c | c in s :: Wildcard(c)
  }

  // ---------------------------------------------------------------- searching without wildcards

  lemma {:induction false} AnythingIsLikePercent(text: string)
    ensures Like(text, "%")
  {
    assert "%"[1..] == "";
    if text != [] { AnythingIsLikePercent(text[1..]); }
  }

  lemma {:induction false} LikePrefix(text: string, s: string)
    requires NoUpper(text) && NoUpper(s) && !HasWildcard(s)
    ensures Like(text, s + "%") <==> s <= text
  {
    if s == [] {
      assert s + "%" == "%";
      AnythingIsLikePercent(text);
    } else {
      assert (s + "%")[1..] == s[1..] + "%";
      assert s[0] in s && !Wildcard(s[0]);
      if text != [] {
        assert text[0] in text;
        LikePrefix(text[1..], s[1..]);
        assert s <= text <==> s[0] == text[0] && s[1..] <= text[1..];
      }
    }
  }

  lemma {:induction false} FoundIsContains(text: string, s: string)
    requires NoUpper(text) && NoUpper(s) && !HasWildcard(s)
    ensures Found(text, s) <==> Contains(text, s)
  {
    var pattern := "%" + s + "%";
    assert pattern[1..] == s + "%";
    LikePrefix(text, s);
    if text == [] {
      assert text[0..] == text;
    } else {
      FoundIsContains(text[1..], s);
      assert text[0..] == text;
      assert forall i | 1 <= i <= |text| :: text[i..] == text[1..][i - 1..];
      if Contains(text[1..], s) {
        var i :| 0 <= i <= |text[1..]| && s <= text[1..][i..];
        assert text[i + 1..] == text[1..][i..];
      }
    }
  }

  // ---------------------------------------------------------------- searching with wildcards

  /** A text that the pattern matches although it does not contain it. */
  function Plain(s: string): string {
    if s == [] then [] else [if Wildcard(s[0]) then 'x' else s[0]] + Plain(s[1..])
  }

  lemma {:induction false} PlainDiffers(s: string)
    ensures |Plain(s)| == |s| && (NoUpper(s) ==> NoUpper(Plain(s)))
    ensures HasWildcard(s) ==> Plain(s) != s
  {
    if s != [] {
      PlainDiffers(s[1..]);
      assert forall c | c in s[1..] :: c in s;
      if HasWildcard(s) && !Wildcard(s[0]) {
        var c :| c in s && Wildcard(c);
        assert c in s[1..];
        assert Plain(s)[1..] == Plain(s[1..]);
      }
    }
  }

  lemma {:induction false} PlainIsLike(s: string)
    ensures Like(Plain(s), s + "%")
  {
    if s == [] {
      assert s + "%" == "%";
      AnythingIsLikePercent([]);
    } else {
      var text, pattern := Plain(s), s + "%";
      assert pattern[1..] == s[1..] + "%" && text[1..] == Plain(s[1..]);
      PlainIsLike(s[1..]);
      if s[0] == '%' { assert Like(text[1..], pattern[1..]); PercentTakesMore(text[1..], pattern); }
    }
  }

  lemma PercentTakesMore(text: string, pattern: string)
    requires pattern != [] && pattern[0] == '%' && Like(text, pattern[1..])
    ensures Like(text, pattern)
  {
  }

  /** The search finds exactly the texts that contain what is looked for if and only if that has no % and no _. */
  lemma SearchIsContainment(s: string)
    requires NoUpper(s)
    ensures (forall text | NoUpper(text) :: Found(text, s) <==> Contains(text, s)) <==> !HasWildcard(s)
  {
    if HasWildcard(s) {
      var text := Plain(s);
      PlainDiffers(s);
      PlainIsLike(s);
      assert ("%" + s + "%")[1..] == s + "%";
      PercentTakesMore(text, "%" + s + "%");
      assert !Contains(text, s);
    } else {
      forall text | NoUpper(text) ensures Found(text, s) <==> Contains(text, s) { FoundIsContains(text, s); }
    }
  }

  /** Text in the form of a date and time, which the result set reads as such instead of as a string. */
  predicate LooksLikeDate(s: string) {
    |s| >= 19 && s[4] == '-' && s[7] == '-' && s[10] == ' ' && s[13] == ':' && s[16] == ':'
  }

  // ---------------------------------------------------------------- what patterns match

  lemma {:induction false} CutAtNul(a: string, b: string)
    requires '\0' !in a
    ensures UpToNul(a + ['\0'] + b) == a
  {
    if a == [] {
      assert a + ['\0'] + b == ['\0'] + b;
    } else {
      assert a[0] in a && (a + ['\0'] + b)[1..] == a[1..] + ['\0'] + b;
      CutAtNul(a[1..], b);
    }
  }

  /** The same letter, of either case among the 26. */
  lemma FoldsAlike(c: char, d: char)
    ensures Fold(c) == Fold(d) <==> c == d || ('A' <= c <= 'Z' && d as int == c as int + 32) || ('A' <= d <= 'Z' && c as int == d as int + 32)
  {
  }

  /** A pattern without % is matched character by character. */
  lemma {:induction false} LikeWithoutPercent(text: string, pattern: string)
    requires '%' !in pattern
    ensures Like(text, pattern)
            <==> |text| == |pattern| && forall i | 0 <= i < |text| :: pattern[i] == '_' || Fold(pattern[i]) == Fold(text[i])
  {
    hide Fold;
    if pattern != [] && text != [] {
      LikeWithoutPercent(text[1..], pattern[1..]);
      if |text| == |pattern| {
        assert forall i | 1 <= i < |text| :: text[i] == text[1..][i - 1] && pattern[i] == pattern[1..][i - 1];
        assert forall i | 0 <= i < |text[1..]| :: text[1..][i] == text[i + 1] && pattern[1..][i] == pattern[i + 1];
      }
    }
  }

  /** A % takes any text, so that the rest of the pattern has to match some rest of the text. */
  lemma {:induction false} LikeAfterPercent(text: string, pattern: string)
    requires pattern != [] && pattern[0] == '%'
    ensures Like(text, pattern) <==> exists i :: 0 <= i <= |text| && Like(text[i..], pattern[1..])
  {
    assert text[0..] == text;
    if text != [] {
      LikeAfterPercent(text[1..], pattern);
      assert forall i | 0 <= i <= |text[1..]| :: text[1..][i..] == text[i + 1..];
      assert forall i | 1 <= i <= |text| :: text[i..] == text[1..][i - 1..];
    }
  }

  /** What stands before a % is matched first, character by character. */
  lemma {:induction false} LikeInParts(text: string, a: string, b: string)
    requires '%' !in a
    ensures Like(text, a + b) <==> |a| <= |text| && Like(text[..|a|], a) && Like(text[|a|..], b)
  {
    hide Fold;
    if a == [] {
      assert a + b == b && text[0..] == text && text[..0] == [];
    } else {
      assert (a + b)[1..] == a[1..] + b && a[0] in a;
      if text != [] {
        LikeInParts(text[1..], a[1..], b);
        if |a| <= |text| { assert text[..|a|][1..] == text[1..][..|a| - 1] && text[1..][|a| - 1..] == text[|a|..]; }
      }
    }
  }

  /** A date and time is what this pattern matches. */
  lemma DateIsLike(s: string)
    ensures LooksLikeDate(s) <==> Like(s, "____-__-__ __:__:__" + "%")
  {
    hide Like, Fold;
    var form := "____-__-__ __:__:__";
    LikeInParts(s, form, "%");
    if |s| >= 19 {
      AnythingIsLikePercent(s[19..]);
      LikeWithoutPercent(s[..19], form);
      FoldsAlike('-', s[4]);
      FoldsAlike('-', s[7]);
      FoldsAlike(' ', s[10]);
      FoldsAlike(':', s[13]);
      FoldsAlike(':', s[16]);
    }
  }
}
