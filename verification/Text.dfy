/** The string operations the models share: stripping, splitting at blanks, searching. */
module Text {

  /** What str.strip() and str.split() take for blank, of the ASCII characters. */
  predicate IsSpace(c: char) {
    var n := c as int;
    9 <= n <= 13 || 28 <= n <= 32
  }

  function StripLeft(s: string): string {
    if s != "" && IsSpace(s[0]) then StripLeft(s[1..]) else s
  }

  function StripRight(s: string): string {
    if s != "" && IsSpace(s[|s| - 1]) then StripRight(s[..|s| - 1]) else s
  }

  function Strip(s: string): string { StripLeft(StripRight(s)) }

  function Replace(s: string, from: set<char>, to: char): string {
    seq(|s|, i requires 0 <= i < |s| => if s[i] in from then to else s[i])
  }

  /** The position of the first c, or the length of the text. */
  function Find(s: string, c: char): (i: nat)
    ensures i <= |s| && c !in s[..i] && (i < |s| ==> s[i] == c)
  {
    if s == "" || s[0] == c then 0 else
      var i := Find(s[1..], c) + 1;
      assert s[..i] == [s[0]] + s[1..][..i - 1];
      i
  }

  function WordEnd(s: string): (i: nat)
    ensures i <= |s|
  {
    if s == "" || IsSpace(s[0]) then 0 else WordEnd(s[1..]) + 1
  }

  function Words(s: string): seq<string>
    decreases |s|
  {
    var t := StripLeft(s);
    StripLeftShortens(s);
    var n := WordEnd(t);
    if t == "" then [] else
      assert n > 0 by { StripLeftStarts(s); }
      [t[..n]] + Words(t[n..])
  }

  lemma {:induction false} StripLeftShortens(s: string)
    ensures |StripLeft(s)| <= |s|
  {
    if s != "" && IsSpace(s[0]) { StripLeftShortens(s[1..]); }
  }

  lemma {:induction false} StripLeftStarts(s: string)
    ensures StripLeft(s) != "" ==> !IsSpace(StripLeft(s)[0])
  {
    if s != "" && IsSpace(s[0]) { StripLeftStarts(s[1..]); }
  }

  predicate OccursAt(s: string, sub: string, i: nat) {
    i + |sub| <= |s| && s[i..i + |sub|] == sub
  }

  predicate Contains(s: string, sub: string) {
    exists i :: 0 <= i <= |s| && OccursAt(s, sub, i)
  }

  lemma {:induction false} FindAfter(first: string, c: char, rest: string)
    requires c !in first
    ensures Find(first + [c] + rest, c) == |first|
  {
    var s := first + [c] + rest;
    if first == "" {
      assert s[0] == c;
    } else {
      assert s[0] == first[0] && s[1..] == first[1..] + [c] + rest;
      FindAfter(first[1..], c, rest);
    }
  }

  lemma FindNothing(s: string, c: char)
    requires c !in s
    ensures Find(s, c) == |s|
  {}

  /** No character of the text is blank. */
  predicate Solid(s: string) {
    forall i :: 0 <= i < |s| ==> !IsSpace(s[i])
  }

  lemma StripKeeps(s: string)
    requires s != "" && !IsSpace(s[0]) && !IsSpace(s[|s| - 1])
    ensures Strip(s) == s
  {}

  lemma ReplaceKeeps(s: string, from: set<char>, to: char)
    requires forall i :: 0 <= i < |s| ==> s[i] !in from
    ensures Replace(s, from, to) == s
  {}

  /** Words set apart by single blanks. */
  function Spaced(words: seq<string>): string {
    if words == [] then "" else if |words| == 1 then words[0] else words[0] + " " + Spaced(words[1..])
  }

  predicate AllWords(words: seq<string>) {
    forall i :: 0 <= i < |words| ==> words[i] != "" && Solid(words[i])
  }

  lemma {:induction false} WordEndAt(word: string, rest: string)
    requires Solid(word) && (rest == "" || IsSpace(rest[0]))
    ensures WordEnd(word + rest) == |word|
  {
    if word == "" {
      assert word + rest == rest;
    } else {
      assert (word + rest)[0] == word[0] && (word + rest)[1..] == word[1..] + rest;
      forall i | 0 <= i < |word[1..]| ensures !IsSpace(word[1..][i]) { assert word[1..][i] == word[i + 1]; }
      WordEndAt(word[1..], rest);
    }
  }

  /** Splitting at blanks gives back words that were set apart by blanks, a blank in front or not. */
  lemma {:induction false} WordsOfSpaced(words: seq<string>)
    requires AllWords(words)
    ensures Words(Spaced(words)) == words && Words(" " + Spaced(words)) == words
    decreases |words|
  {
    var s := Spaced(words);
    assert (" " + s)[1..] == s;
    if words != [] {
      var rest := if |words| == 1 then "" else " " + Spaced(words[1..]);
      assert s == words[0] + rest;
      assert s[0] == words[0][0];
      WordEndAt(words[0], rest);
      assert s[..|words[0]|] == words[0] && s[|words[0]|..] == rest;
      if |words| > 1 {
        WordsOfSpaced(words[1..]);
      }
      assert words == [words[0]] + words[1..];
    }
  }

  /** Set apart by blanks, words hold their own characters and blanks, and end in no blank. */
  lemma {:induction false} SpacedEnds(words: seq<string>)
    requires words != [] && AllWords(words)
    ensures Spaced(words) != "" && !IsSpace(Spaced(words)[0]) && !IsSpace(Spaced(words)[|Spaced(words)| - 1])
  {
    var s := Spaced(words);
    if |words| > 1 {
      SpacedEnds(words[1..]);
      var rest := Spaced(words[1..]);
      assert s == words[0] + " " + rest;
      assert s[|s| - 1] == rest[|rest| - 1];
    }
  }

  lemma {:induction false} SpacedKeepsOut(words: seq<string>, c: char)
    requires c != ' ' && forall i :: 0 <= i < |words| ==> c !in words[i]
    ensures c !in Spaced(words)
  {
    if |words| > 1 {
      SpacedKeepsOut(words[1..], c);
    }
  }
}
