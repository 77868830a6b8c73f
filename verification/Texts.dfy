// Cutting a text at a separator: the stars of a pattern, the dots of a version.
module Texts {
  // The pieces between the separators; one more piece than separators.
  function Split(text: string, sep: char): (pieces: seq<string>)
    ensures |pieces| >= 1
  {
    if text == "" then [""]
    else
      var rest := Split(text[1..], sep);
      if text[0] == sep then [""] + rest else [[text[0]] + rest[0]] + rest[1..]
  }

  lemma {:induction false} SplitPieces(text: string, sep: char, i: nat)
    requires i < |Split(text, sep)|
    ensures sep !in Split(text, sep)[i]
  {
    if text != "" {
      var rest := Split(text[1..], sep);
      if text[0] == sep {
        if i > 0 { SplitPieces(text[1..], sep, i - 1); }
      } else {
        SplitPieces(text[1..], sep, i);
      }
    }
  }

  lemma {:induction false} SplitOne(text: string, sep: char)
    requires sep !in text
    ensures Split(text, sep) == [text]
  {
    if text != "" {
      SplitOne(text[1..], sep);
      assert [text[0]] + text[1..] == text;
    }
  }

  lemma {:induction false} SplitFirst(first: string, sep: char, rest: string)
    requires sep !in first
    ensures Split(first + [sep] + rest, sep) == [first] + Split(rest, sep)
  {
    var text := first + [sep] + rest;
    if first == "" {
      assert text[1..] == rest;
    } else {
      assert text[1..] == first[1..] + [sep] + rest;
      SplitFirst(first[1..], sep, rest);
      assert [text[0]] + first[1..] == first;
    }
  }

  // The first piece, and the text behind its separator if there is one.
  lemma {:induction false} SplitBehindFirst(text: string, sep: char) returns (rest: string)
    ensures |Split(text, sep)| == 1 ==> text == Split(text, sep)[0]
    ensures |Split(text, sep)| > 1 ==>
      text == Split(text, sep)[0] + [sep] + rest && Split(rest, sep) == Split(text, sep)[1..]
  {
    rest := "";
    if text != "" {
      if text[0] == sep {
        rest := text[1..];
        assert text == [sep] + rest;
      } else {
        rest := SplitBehindFirst(text[1..], sep);
        assert text == [text[0]] + text[1..];
      }
    }
  }
}
