/**
 Escaping a search needle for LIKE (context/store.py, `_escape_like` and `search`): the
 escaped pattern means exactly "contains the needle".
 */
module LikeEscape {

  const ESCAPE: char := '\\'

  /** str.replace of a one-character text. */
  function Replace(text: string, what: char, sub: string): string {
    if text == "" then ""
    else (if text[0] == what then sub else [text[0]]) + Replace(text[1..], what, sub)
  }

  /** Three successive replacements, the escape character first. */
  function EscapeLike(text: string): string {
    Replace(Replace(Replace(text, ESCAPE, [ESCAPE, ESCAPE]), '%', [ESCAPE, '%']), '_', [ESCAPE, '_'])
  }

  predicate IsSpecial(c: char) {
    c == ESCAPE || c == '%' || c == '_'
  }

  /** One pass, character by character. */
  function EscapeEach(text: string): string {
    if text == "" then ""
    else (if IsSpecial(text[0]) then [ESCAPE, text[0]] else [text[0]]) + EscapeEach(text[1..])
  }

  lemma {:induction false} ReplaceConcat(a: string, b: string, what: char, sub: string)
    ensures Replace(a + b, what, sub) == Replace(a, what, sub) + Replace(b, what, sub)
  {
    if a == "" {
      assert a + b == b;
    } else {
      ReplaceConcat(a[1..], b, what, sub);
      assert (a + b)[1..] == a[1..] + b;
    }
  }

  lemma ReplaceTwo(a: char, b: char, what: char, sub: string)
    ensures Replace([a, b], what, sub) == (if a == what then sub else [a]) + (if b == what then sub else [b])
  {
    ReplaceOne(a, what, sub);
    ReplaceOne(b, what, sub);
    assert [a, b] == [a] + [b];
    ReplaceConcat([a], [b], what, sub);
  }

  lemma ReplaceOne(a: char, what: char, sub: string)
    ensures Replace([a], what, sub) == if a == what then sub else [a]
  {
    assert [a][1..] == "";
  }

  lemma EscapeChar(c: char)
    ensures EscapeLike([c]) == if IsSpecial(c) then [ESCAPE, c] else [c]
  {
    ReplaceOne(c, ESCAPE, [ESCAPE, ESCAPE]);
    if c == ESCAPE {
      ReplaceTwo(ESCAPE, ESCAPE, '%', [ESCAPE, '%']);
      ReplaceTwo(ESCAPE, ESCAPE, '_', [ESCAPE, '_']);
    } else {
      ReplaceOne(c, '%', [ESCAPE, '%']);
      if c == '%' { ReplaceTwo(ESCAPE, '%', '_', [ESCAPE, '_']); } else { ReplaceOne(c, '_', [ESCAPE, '_']); }
    }
  }

  /** The three passes never touch each other's output: they amount to one pass. */
  lemma {:induction false} EscapePassesAreOne(text: string)
    ensures EscapeLike(text) == EscapeEach(text)
  {
    if text != "" {
      EscapePassesAreOne(text[1..]);
      EscapeChar(text[0]);
      var first, rest := [text[0]], text[1..];
      assert text == first + rest;
      var e, p := [ESCAPE, ESCAPE], [ESCAPE, '%'];
      ReplaceConcat(first, rest, ESCAPE, e);
      ReplaceConcat(Replace(first, ESCAPE, e), Replace(rest, ESCAPE, e), '%', p);
      ReplaceConcat(Replace(Replace(first, ESCAPE, e), '%', p), Replace(Replace(rest, ESCAPE, e), '%', p), '_',
                    [ESCAPE, '_']);
    }
  }

  /**
   LIKE with an escape character (the <like predicate>, section 8.5 of SQL-92), comparing
   characters through `fold` as ILIKE does.
   */
  predicate Like(fold: char -> char, pattern: string, text: string)
    decreases |pattern| + |text|
  {
    if pattern == "" then text == ""
    else if pattern[0] == '%' then Like(fold, pattern[1..], text) || (text != "" && Like(fold, pattern, text[1..]))
    else if pattern[0] == '_' then text != "" && Like(fold, pattern[1..], text[1..])
    else if pattern[0] == ESCAPE then
      |pattern| >= 2 && text != "" && fold(pattern[1]) == fold(text[0]) && Like(fold, pattern[2..], text[1..])
    else text != "" && fold(pattern[0]) == fold(text[0]) && Like(fold, pattern[1..], text[1..])
  }

  predicate SameFolded(fold: char -> char, a: string, b: string) {
    |a| == |b| && forall i :: 0 <= i < |a| ==> fold(a[i]) == fold(b[i])
  }

  /** The needle occurs in the text at `at`, up to case folding. */
  predicate OccursAt(fold: char -> char, needle: string, text: string, at: nat) {
    at + |needle| <= |text| && SameFolded(fold, needle, text[at..at + |needle|])
  }

  predicate Contains(fold: char -> char, needle: string, text: string) {
    exists at: nat :: at <= |text| && OccursAt(fold, needle, text, at)
  }

  /** A trailing wildcard matches whatever is left. */
  lemma {:induction false} AnyTail(fold: char -> char, text: string)
    ensures Like(fold, "%", text)
    decreases |text|
  {
    if text != "" { AnyTail(fold, text[1..]); } else { assert Like(fold, "%"[1..], text); }
  }

  lemma OccursFirst(fold: char -> char, needle: string, text: string)
    requires needle != ""
    ensures OccursAt(fold, needle, text, 0) <==>
            text != "" && fold(needle[0]) == fold(text[0]) && OccursAt(fold, needle[1..], text[1..], 0)
  {
    if |needle| <= |text| {
      var window := text[0..|needle|];
      assert text[1..][0..|needle| - 1] == window[1..];
      assert forall i :: 0 <= i < |needle| - 1 ==> needle[1..][i] == needle[i + 1] && window[1..][i] == window[i + 1];
      if OccursAt(fold, needle[1..], text[1..], 0) && fold(needle[0]) == fold(text[0]) {
        forall i | 0 <= i < |needle| ensures fold(needle[i]) == fold(window[i]) {
          if i > 0 { assert fold(needle[1..][i - 1]) == fold(window[1..][i - 1]); }
        }
      }
    }
  }

  /** The escaped needle matches itself and nothing else, then the wildcard takes the rest. */
  lemma {:induction false} EscapedMatchesPrefix(fold: char -> char, needle: string, text: string)
    ensures Like(fold, EscapeEach(needle) + "%", text) <==> OccursAt(fold, needle, text, 0)
    decreases |needle|
  {
    if needle == "" {
      assert EscapeEach(needle) + "%" == "%";
      AnyTail(fold, text);
    } else {
      var rest := EscapeEach(needle[1..]) + "%";
      var pattern := EscapeEach(needle) + "%";
      if IsSpecial(needle[0]) {
        assert pattern == [ESCAPE, needle[0]] + rest;
        assert pattern[2..] == rest;
      } else {
        assert pattern == [needle[0]] + rest;
        assert pattern[1..] == rest;
      }
      if text != "" { EscapedMatchesPrefix(fold, needle[1..], text[1..]); }
      OccursFirst(fold, needle, text);
    }
  }

  lemma OccursLater(fold: char -> char, needle: string, text: string, at: nat)
    requires text != "" && at > 0
    ensures OccursAt(fold, needle, text, at) <==> OccursAt(fold, needle, text[1..], at - 1)
  {
    if at + |needle| <= |text| {
      assert text[1..][at - 1..at - 1 + |needle|] == text[at..at + |needle|];
    }
  }

  lemma ContainsStep(fold: char -> char, needle: string, text: string)
    requires text != ""
    ensures Contains(fold, needle, text) <==> OccursAt(fold, needle, text, 0) || Contains(fold, needle, text[1..])
  {
    if Contains(fold, needle, text) {
      var at: nat :| at <= |text| && OccursAt(fold, needle, text, at);
      if at > 0 {
        OccursLater(fold, needle, text, at);
        assert OccursAt(fold, needle, text[1..], at - 1);
      }
    }
    if Contains(fold, needle, text[1..]) {
      var at: nat :| at <= |text| - 1 && OccursAt(fold, needle, text[1..], at);
      OccursLater(fold, needle, text, at + 1);
      assert OccursAt(fold, needle, text, at + 1);
    }
  }

  lemma {:induction false} WildcardSearches(fold: char -> char, needle: string, text: string)
    ensures Like(fold, "%" + (EscapeEach(needle) + "%"), text) <==> Contains(fold, needle, text)
    decreases |text|
  {
    var tail := EscapeEach(needle) + "%";
    var pattern := "%" + tail;
    assert pattern[1..] == tail;
    EscapedMatchesPrefix(fold, needle, text);
    if text == "" {
      assert Contains(fold, needle, text) <==> OccursAt(fold, needle, text, 0);
    } else {
      WildcardSearches(fold, needle, text[1..]);
      ContainsStep(fold, needle, text);
    }
  }

  /** The search clause finds exactly the texts that contain the needle, wildcards and all. */
  lemma EscapedSearchIsSubstring(fold: char -> char, needle: string, text: string)
    ensures Like(fold, "%" + EscapeLike(needle) + "%", text) <==> Contains(fold, needle, text)
  {
    EscapePassesAreOne(needle);
    assert "%" + EscapeLike(needle) + "%" == "%" + (EscapeEach(needle) + "%");
    WildcardSearches(fold, needle, text);
  }
}
