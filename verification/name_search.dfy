/** The name filter of GET /places: name ILIKE '%' || escapeLikePattern(q) || '%' ESCAPE '\'
    (cmd/api/main.go). */
module NameSearch {

  const SPECIALS: set<char> := {'\\', '%', '_'}

  function EscapeLikePattern(s: string): string {
    if s == "" then "" else (if s[0] in SPECIALS then ['\\', s[0]] else [s[0]]) + EscapeLikePattern(s[1..])
  }

  /** LIKE: % is any text, _ any one character, and \ takes the next pattern character literally. */
  predicate Like(text: string, pattern: string)
    decreases |pattern|, |text|
  {
    if pattern == "" then text == ""
    else if pattern[0] == '%' then Like(text, pattern[1..]) || (text != "" && Like(text[1..], pattern))
    else if pattern[0] == '\\' then |pattern| > 1 && text != "" && text[0] == pattern[1] && Like(text[1..], pattern[2..])
    else if pattern[0] == '_' then text != "" && Like(text[1..], pattern[1..])
    else text != "" && text[0] == pattern[0] && Like(text[1..], pattern[1..])
  }

  function Folded(fold: char -> char, s: string): (r: string)
    ensures |r| == |s| && forall i :: 0 <= i < |s| ==> r[i] == fold(s[i])
  {
    seq(|s|, i requires 0 <= i < |s| => fold(s[i]))
  }

  /** ILIKE compares case-folded texts. */
  predicate ILike(fold: char -> char, text: string, pattern: string) {
    Like(Folded(fold, text), Folded(fold, pattern))
  }

  ghost predicate KeepsSpecials(fold: char -> char) {
    && fold('\\') == '\\' && fold('%') == '%' && fold('_') == '_'
    && forall c :: fold(c) in SPECIALS ==> c in SPECIALS
  }

  predicate OccursAt(text: string, part: string, i: nat) {
    i + |part| <= |text| && text[i..i + |part|] == part
  }

  ghost predicate Contains(text: string, part: string) {
    exists i :: OccursAt(text, part, i)
  }

  lemma {:induction false} AnythingMatchesPercent(text: string)
    ensures Like(text, "%")
    decreases |text|
  {
    assert "%"[1..] == "";
    if text != "" {
      AnythingMatchesPercent(text[1..]);
    }
  }

  /** An escaped text followed by % matches exactly the texts it begins. */
  lemma {:induction false} EscapedIsLiteral(text: string, q: string)
    ensures Like(text, EscapeLikePattern(q) + "%") <==> q <= text
    decreases |q|
  {
    var pattern := EscapeLikePattern(q) + "%";
    if q == "" {
      assert pattern == "%";
      AnythingMatchesPercent(text);
    } else {
      var rest := EscapeLikePattern(q[1..]) + "%";
      assert pattern == (if q[0] in SPECIALS then ['\\', q[0]] else [q[0]]) + rest;
      if text != "" {
        EscapedIsLiteral(text[1..], q[1..]);
        assert q <= text <==> q[0] == text[0] && q[1..] <= text[1..];
      }
      if q[0] in SPECIALS {
        assert pattern[2..] == rest && pattern[1] == q[0];
      } else {
        assert pattern[1..] == rest && pattern[0] == q[0];
      }
    }
  }

  lemma {:induction false} PercentSkips(text: string, pattern: string)
    ensures Like(text, "%" + pattern) <==> exists i :: 0 <= i <= |text| && Like(text[i..], pattern)
    decreases |text|
  {
    assert ("%" + pattern)[1..] == pattern;
    if text == "" {
      assert text[0..] == text;
    } else {
      var tail := text[1..];
      PercentSkips(tail, pattern);
      assert text[0..] == text;
      if i :| 0 <= i <= |tail| && Like(tail[i..], pattern) {
        assert text[i + 1..] == tail[i..];
      }
      if i :| 0 < i <= |text| && Like(text[i..], pattern) {
        assert text[i..] == tail[i - 1..];
      }
    }
  }

  /** Unescaped, _ stands for any one character: n of them match exactly the texts of length n. */
  lemma {:induction false} UnderscoresCount(text: string, pattern: string)
    requires forall i :: 0 <= i < |pattern| ==> pattern[i] == '_'
    ensures Like(text, pattern) <==> |text| == |pattern|
    decreases |pattern|
  {
    if pattern != "" && text != "" {
      UnderscoresCount(text[1..], pattern[1..]);
    }
  }

  lemma {:induction false} FoldCommutesWithEscape(fold: char -> char, q: string)
    requires KeepsSpecials(fold)
    ensures Folded(fold, EscapeLikePattern(q)) == EscapeLikePattern(Folded(fold, q))
  {
    if q != "" {
      FoldCommutesWithEscape(fold, q[1..]);
      assert Folded(fold, q)[1..] == Folded(fold, q[1..]);
      var head := if q[0] in SPECIALS then ['\\', q[0]] else [q[0]];
      assert Folded(fold, head + EscapeLikePattern(q[1..])) == Folded(fold, head) + Folded(fold, EscapeLikePattern(q[1..]));
    }
  }

  /** A name passes the filter exactly when the query occurs in it up to case, with %, _ and \
      in the query standing for themselves. */
  lemma SearchFindsExactlySubstrings(fold: char -> char, name: string, q: string)
    requires KeepsSpecials(fold)
    ensures ILike(fold, name, "%" + EscapeLikePattern(q) + "%") <==> Contains(Folded(fold, name), Folded(fold, q))
  {
    var text, part := Folded(fold, name), Folded(fold, q);
    var pattern := EscapeLikePattern(part) + "%";
    FoldCommutesWithEscape(fold, q);
    assert Folded(fold, "%" + EscapeLikePattern(q) + "%") == "%" + pattern;
    PercentSkips(text, pattern);
    forall i | 0 <= i <= |text|
      ensures Like(text[i..], pattern) <==> OccursAt(text, part, i)
    {
      EscapedIsLiteral(text[i..], part);
      PrefixOfTail(text, part, i);
    }
  }

  lemma PrefixOfTail(text: string, part: string, i: nat)
    requires i <= |text|
    ensures part <= text[i..] <==> OccursAt(text, part, i)
  {
    if i + |part| <= |text| {
      assert text[i..][..|part|] == text[i..i + |part|];
    }
  }
}
