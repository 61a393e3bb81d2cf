/** Tokenising of names and streets (internal/identity/normalize.go).
    Unicode folding, the letter-or-digit test and case-insensitive equality come from
    Go libraries; they are parameters, and every statement holds for all of them. */
module Normalization {

  datatype Text = Text(
    fold: string -> string,           // NFKD, strip marks, NFC, lower-case
    isWord: char -> bool,             // unicode.IsLetter || unicode.IsDigit
    sameFold: (string, string) -> bool  // strings.EqualFold
  ) {
    ghost predicate Valid() {
      !isWord(' ')
    }
  }

  const SUFFIXES: set<string> := {"inc", "ltd", "llc", "co", "corp", "gmbh", "oy", "ab"}

  /** Every rune that is not a letter or digit becomes a space. */
  function Spaced(t: Text, s: string): (r: string)
    ensures |r| == |s|
  {
    seq(|s|, i requires 0 <= i < |s| => if t.isWord(s[i]) then s[i] else ' ')
  }

  function WordLength(s: string): (n: nat)
    ensures n <= |s|
    ensures ' ' !in s[..n]
    ensures n < |s| ==> s[n] == ' '
  {
    if s == [] || s[0] == ' ' then 0 else 1 + WordLength(s[1..])
  }

  /** strings.Fields on text whose only white space is ' '. */
  function Fields(s: string): seq<string>
    decreases |s|
  {
    if s == [] then []
    else if s[0] == ' ' then Fields(s[1..])
    else var n := WordLength(s); [s[..n]] + Fields(s[n..])
  }

  lemma {:induction false} FieldsAreRuns(s: string)
    ensures forall w :: w in Fields(s) ==> w != [] && ' ' !in w
    ensures forall w, c :: w in Fields(s) && c in w ==> c in s
    decreases |s|
  {
    if s != [] {
      if s[0] == ' ' {
        FieldsAreRuns(s[1..]);
      } else {
        FieldsAreRuns(s[WordLength(s)..]);
      }
    }
  }

  function DropSuffixes(ws: seq<string>): seq<string> {
    if ws == [] then []
    else (if ws[0] in SUFFIXES then [] else [ws[0]]) + DropSuffixes(ws[1..])
  }

  lemma {:induction false} OnlySuffixesAreDropped(ws: seq<string>)
    ensures forall w :: w in DropSuffixes(ws) <==> w in ws && w !in SUFFIXES
  {
    if ws != [] {
      OnlySuffixesAreDropped(ws[1..]);
      assert ws == [ws[0]] + ws[1..];
    }
  }

  function Normalize(t: Text, s: string): seq<string> {
    DropSuffixes(Fields(Spaced(t, t.fold(s))))
  }

  method NormalizeText(t: Text, s: string) returns (out: seq<string>)
    ensures out == Normalize(t, s)
  {
    var folded := t.fold(s);
    var b: string := [];
    for i := 0 to |folded|
      invariant b == Spaced(t, folded)[..i]
    {
      b := b + [if t.isWord(folded[i]) then folded[i] else ' '];
    }
    assert Spaced(t, folded)[..|folded|] == Spaced(t, folded);
    out := KeepNonSuffixes(Fields(b));
  }

  method KeepNonSuffixes(fields: seq<string>) returns (out: seq<string>)
    ensures out == DropSuffixes(fields)
  {
    out := [];
    for i := 0 to |fields|
      invariant out == DropSuffixes(fields[..i])
    {
      DropSuffixesAppend(fields[..i], fields[i]);
      assert fields[..i + 1] == fields[..i] + [fields[i]];
      if fields[i] !in SUFFIXES {
        out := out + [fields[i]];
      }
    }
    assert fields[..|fields|] == fields;
  }

  lemma {:induction false} DropSuffixesAppend(ws: seq<string>, w: string)
    ensures DropSuffixes(ws + [w]) == DropSuffixes(ws) + (if w in SUFFIXES then [] else [w])
  {
    if ws == [] {
      assert [] + [w] == [w];
    } else {
      assert (ws + [w])[0] == ws[0] && (ws + [w])[1..] == ws[1..] + [w];
      DropSuffixesAppend(ws[1..], w);
    }
  }

  /** What the tokens look like: non-empty runs of letters and digits, none a business suffix. */
  lemma TokensAreClean(t: Text, s: string)
    ensures forall w :: w in Normalize(t, s) ==> w != [] && w !in SUFFIXES
    ensures forall w, c :: w in Normalize(t, s) && c in w ==> t.isWord(c)
  {
    var sp := Spaced(t, t.fold(s));
    OnlySuffixesAreDropped(Fields(sp));
    FieldsAreRuns(sp);
    forall w, c | w in Normalize(t, s) && c in w
      ensures t.isWord(c)
    {
      assert w in Fields(sp) && c in sp && c != ' ';
    }
  }

  function Join(ws: seq<string>): string {
    if ws == [] then [] else ws[0] + " " + Join(ws[1..])
  }

  lemma {:induction false} FieldsOfJoin(ws: seq<string>)
    requires forall w :: w in ws ==> w != [] && ' ' !in w
    ensures Fields(Join(ws)) == ws
  {
    if ws == [] {
    } else {
      var w, rest := ws[0], Join(ws[1..]);
      var s := w + " " + rest;
      assert s == w + (" " + rest);
      WordLengthOf(w, " " + rest);
      assert s[0] == w[0];
      assert s[..|w|] == w && s[|w|..] == " " + rest;
      assert (" " + rest)[1..] == rest;
      assert forall v :: v in ws[1..] ==> v in ws;
      FieldsOfJoin(ws[1..]);
    }
  }

  lemma {:induction false} WordLengthOf(w: string, tail: string)
    requires ' ' !in w && tail != [] && tail[0] == ' '
    ensures WordLength(w + tail) == |w|
  {
    if w == [] {
      assert w + tail == tail;
    } else {
      assert (w + tail)[1..] == w[1..] + tail;
      assert (w + tail)[0] == w[0];
      WordLengthOf(w[1..], tail);
    }
  }

  /** Normalising again changes nothing: the tokens written out with spaces normalise to
      themselves, provided folding leaves that already folded text alone. */
  lemma NormalizeIsIdempotent(t: Text, s: string)
    requires t.Valid()
    requires t.fold(Join(Normalize(t, s))) == Join(Normalize(t, s))
    ensures Normalize(t, Join(Normalize(t, s))) == Normalize(t, s)
  {
    var ws := Normalize(t, s);
    TokensAreClean(t, s);
    JoinChars(ws);
    var j := Join(ws);
    forall i | 0 <= i < |j|
      ensures Spaced(t, j)[i] == j[i]
    {
      assert j[i] in j;
    }
    assert Spaced(t, Join(ws)) == Join(ws);
    FieldsOfJoin(ws);
    NothingToDrop(ws);
  }

  lemma {:induction false} JoinChars(ws: seq<string>)
    ensures forall c :: c in Join(ws) ==> c == ' ' || exists w :: w in ws && c in w
  {
    if ws != [] {
      JoinChars(ws[1..]);
      forall c | c in Join(ws) && c != ' '
        ensures exists w :: w in ws && c in w
      {
        if c in ws[0] {
          assert ws[0] in ws;
        } else {
          assert c in Join(ws[1..]);
          var w :| w in ws[1..] && c in w;
          assert w in ws;
        }
      }
    }
  }

  lemma {:induction false} NothingToDrop(ws: seq<string>)
    requires forall w :: w in ws ==> w !in SUFFIXES
    ensures DropSuffixes(ws) == ws
  {
    if ws != [] {
      assert ws[0] in ws;
      assert forall w :: w in ws[1..] ==> w in ws;
      NothingToDrop(ws[1..]);
    }
  }

  function Concatenated(ws: seq<string>): string {
    if ws == [] then "" else ws[0] + Concatenated(ws[1..])
  }

  function WordCharacters(t: Text, s: string): string {
    if s == "" then "" else (if t.isWord(s[0]) then [s[0]] else "") + WordCharacters(t, s[1..])
  }

  /** Names that differ in case and diacritics only have the same tokens. */
  lemma SpellingDoesNotMatter(t: Text, a: string, b: string)
    requires t.fold(a) == t.fold(b)
    ensures Normalize(t, a) == Normalize(t, b)
  {
  }

  /** Splitting into words loses no letter or digit, adds none and keeps their order. */
  lemma {:induction false} WordsKeepTheLetters(t: Text, s: string)
    requires t.Valid()
    ensures Concatenated(Fields(Spaced(t, s))) == WordCharacters(t, s)
    decreases |s|
  {
    var sp := Spaced(t, s);
    if s != "" {
      if sp[0] == ' ' {
        assert sp[1..] == Spaced(t, s[1..]);
        WordsKeepTheLetters(t, s[1..]);
      } else {
        var n := WordLength(sp);
        assert sp[n..] == Spaced(t, s[n..]);
        WordsKeepTheLetters(t, s[n..]);
        forall i | 0 <= i < n
          ensures t.isWord(s[i]) && sp[i] == s[i]
        {
          assert sp[..n][i] in sp[..n];
        }
        AllWord(t, s, n);
        assert Fields(sp) == [sp[..n]] + Fields(sp[n..]);
        assert sp[..n] == s[..n];
      }
    }
  }

  lemma {:induction false} AllWord(t: Text, s: string, n: nat)
    requires n <= |s| && forall i :: 0 <= i < n ==> t.isWord(s[i])
    ensures WordCharacters(t, s) == s[..n] + WordCharacters(t, s[n..])
    decreases n
  {
    if n > 0 {
      AllWord(t, s[1..], n - 1);
      assert s[1..][n - 1..] == s[n..] && s[..n] == [s[0]] + s[1..][..n - 1];
    } else {
      assert s[..0] == "" && s[0..] == s;
    }
  }
}
