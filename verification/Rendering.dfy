/**
 What lines of text mean to the Multimetrics aggregator: histograms, timings and sums that were written
 down are read back as they were.
 */
module Rendering {
  import opened Sums
  import opened Wrappers
  import opened Text
  import opened Multimetrics
  import opened Quantiles
  import opened Aggregator

  /** A name that can start a line. */
  predicate GoodName(name: string) {
    name != "" && Solid(name) && forall c :: c in name ==> c !in FORBIDDEN
  }

  const SEPARATORS: set<char> := {',', '-', ':'}

  /** A text that stands for a number: no blank, no separator and no at sign. */
  predicate Clean(text: string) {
    text != "" && Solid(text) && '@' !in text && forall c :: c in text ==> c !in SEPARATORS
  }

  function Line(name: string, tokens: seq<string>): string {
    name + " " + Spaced(tokens)
  }

  /** What follows the name on a line: neither end is blank, and there are no tabs. */
  predicate GoodBody(body: string) {
    body != "" && !IsSpace(body[0]) && !IsSpace(body[|body| - 1]) && '\t' !in body
  }

  lemma LineParts(name: string, body: string)
    requires name != "" && Solid(name) && GoodBody(body)
    ensures var line := name + " " + body;
      && line != "" && Replace(Strip(line), {'\t'}, ' ') == line
      && Find(line, ' ') == |name| < |line| && Strip(line[..|name|]) == name && Strip(line[|name| + 1..]) == body
  {
    var line := name + " " + body;
    assert line[0] == name[0] && line[|line| - 1] == body[|body| - 1];
    StripKeeps(line);
    assert '\t' !in name && ' ' !in name;
    ReplaceKeeps(line, {'\t'}, ' ');
    FindAfter(name, ' ', body);
    assert line[..|name|] == name && line[|name| + 1..] == body;
    StripKeeps(name);
    StripKeeps(body);
  }

  lemma SpacedIsBody(tokens: seq<string>)
    requires tokens != [] && AllWords(tokens)
    ensures GoodBody(Spaced(tokens))
  {
    SpacedEnds(tokens);
    forall i | 0 <= i < |tokens| ensures '\t' !in tokens[i] {}
    SpacedKeepsOut(tokens, '\t');
  }

  /** In a line of timings commas, minus signs and colons set tokens apart like blanks. */
  lemma TimingsBody(s: Settings, delta: real, name: string, body: string, tokens: seq<string>)
    requires delta != 0.0 && GoodName(name) && IsTimings(s, name) && GoodBody(body)
    requires AllWords(tokens) && Replace(body, SEPARATORS, ' ') == Spaced(tokens)
    ensures ParseLine(s, delta, name + " " + body) == Timed(name, ParseTokens(s, name, tokens))
  {
    LineParts(name, body);
    assert |Spaced(tokens)| == |body|;
    WordsOfSpaced(tokens);
  }

  /** A line of timings says what its tokens say. */
  lemma TimingsLine(s: Settings, delta: real, name: string, tokens: seq<string>)
    requires delta != 0.0 && GoodName(name) && tokens != [] && AllWords(tokens) && IsTimings(s, name)
    requires forall i, c :: 0 <= i < |tokens| && c in SEPARATORS ==> c !in tokens[i]
    ensures ParseLine(s, delta, Line(name, tokens)) == Timed(name, ParseTokens(s, name, tokens))
  {
    SpacedIsBody(tokens);
    forall c | c in SEPARATORS ensures c !in Spaced(tokens) { SpacedKeepsOut(tokens, c); }
    ReplaceKeeps(Spaced(tokens), SEPARATORS, ' ');
    TimingsBody(s, delta, name, Spaced(tokens), tokens);
  }

  /** A line whose name holds a forbidden character is ignored, and so is a blank one. */
  lemma IgnoredLines(s: Settings, delta: real, name: string, body: string)
    requires delta != 0.0 && name != "" && Solid(name) && GoodBody(body)
    ensures (exists c :: c in name && c in {'<', '>', ';', '\\'}) ==>
      HostResult(s, LineReader(s, delta), [name + " " + body]) == map[]
    ensures HostResult(s, LineReader(s, delta), [""]) == map[]
  {
    LineParts(name, body);
    SingleLine(s, delta, name + " " + body);
    SingleLine(s, delta, "");
  }

  /** A line of numbers says their sum. */
  lemma NumbersLine(s: Settings, delta: real, name: string, tokens: seq<string>)
    requires delta != 0.0 && GoodName(name) && tokens != [] && AllWords(tokens) && !IsTimings(s, name)
    requires SumTokens(s, tokens).Some?
    ensures ParseLine(s, delta, Line(name, tokens)) == Adds(name, Rate(s, SumTokens(s, tokens).value, delta))
  {
    SpacedIsBody(tokens);
    LineParts(name, Spaced(tokens));
    WordsOfSpaced(tokens);
  }

  lemma SingleLine(s: Settings, delta: real, line: string)
    requires delta != 0.0
    ensures HostResult(s, LineReader(s, delta), [line]) == Applied(map[], ParseLine(s, delta, line))
  {
    ReaderIsTyped(s, delta, line);
    HostOneMore(s, LineReader(s, delta), [], line);
    assert [] + [line] == [line];
  }

  lemma SingleTimed(s: Settings, delta: real, line: string, name: string, samples: seq<Sample>)
    requires delta != 0.0 && ParseLine(s, delta, line) == Timed(name, samples)
    ensures HostResult(s, LineReader(s, delta), [line]) == map[name := Timings(AddedSamples(map[], samples))]
  {
    SingleLine(s, delta, line);
  }

  // ----- packed timings

  /** The text of a number is read back as that number. */
  predicate ReadsBack(s: Settings, text: real -> string, x: real) {
    Clean(text(x)) && s.number(text(x)) == Some(x)
  }

  predicate ReadsAllBack(s: Settings, text: real -> string, hist: Hist) {
    forall k :: k in hist ==> ReadsBack(s, text, k) && ReadsBack(s, text, hist[k])
  }

  predicate Within(keys: seq<real>, hist: Hist) {
    forall i :: 0 <= i < |keys| ==> keys[i] in hist
  }

  /** One `key@count` for each of the keys. */
  function Packed(text: real -> string, hist: Hist, keys: seq<real>): seq<string>
    requires Within(keys, hist)
  {
    if keys == [] then [] else [text(keys[0]) + "@" + text(hist[keys[0]])] + Packed(text, hist, keys[1..])
  }

  /** The key is what stands before the at sign, the count what stands behind it. */
  lemma TokenReads(s: Settings, name: string, key: string, count: string)
    requires name != "" && name[0] == '@' && Clean(key) && Clean(count)
    ensures ParseToken(s, name, key + "@" + count) ==
      match (s.number(key), s.number(count))
      case (Some(k), Some(n)) => Good(Sample(key := k, count := n))
      case _ => Bad
  {
    var token := key + "@" + count;
    FindAfter(key, '@', count);
    assert token[..|key|] == key && token[|key| + 1..] == count;
  }

  /** Under a name with an at sign, timings without a count and counts without a timing are skipped. */
  lemma TokenSkipped(s: Settings, name: string, text: string)
    requires name != "" && name[0] == '@' && '@' !in text
    ensures ParseToken(s, name, text).Skip? && ParseToken(s, name, "@" + text).Skip?
  {
    FindNothing(text, '@');
    FindAfter("", '@', text);
    assert "" + ['@'] + text == "@" + text;
    assert ("@" + text)[1..] == text;
  }

  /** A second at sign makes a timing malformed. */
  lemma TokenRefused(s: Settings, name: string, a: string, b: string, c: string)
    requires name != "" && name[0] == '@' && '@' !in a
    ensures ParseToken(s, name, a + "@" + b + "@" + c).Bad?
  {
    var rest := b + "@" + c;
    assert a + "@" + b + "@" + c == a + "@" + rest;
    FindAfter(a, '@', rest);
    assert (a + "@" + rest)[|a| + 1..] == rest && rest[|b|] == '@';
  }

  /** Under any other name a timing stands for itself, once. */
  lemma TokenPlain(s: Settings, name: string, token: string)
    requires name == "" || name[0] != '@'
    ensures ParseToken(s, name, token) ==
      match s.number(token) case Some(x) => Good(Sample(key := x, count := 1.0)) case None => Bad
  {}

  /** A malformed timing ends its line; what stands before it counts, and skipped timings do not matter. */
  lemma {:induction false} LineEnds(s: Settings, name: string, before: seq<string>, token: string, rest: seq<string>)
    requires forall i :: 0 <= i < |before| ==> !ParseToken(s, name, before[i]).Bad?
    ensures ParseToken(s, name, token).Bad? ==>
      ParseTokens(s, name, before + [token] + rest) == ParseTokens(s, name, before)
    ensures ParseToken(s, name, token).Skip? ==>
      ParseTokens(s, name, before + [token] + rest) == ParseTokens(s, name, before + rest)
  {
    var all := before + [token] + rest;
    if before == [] {
      assert all[0] == token && all[1..] == rest && before + rest == rest;
    } else {
      assert all[0] == before[0] && all[1..] == before[1..] + [token] + rest;
      assert (before + rest)[0] == before[0] && (before + rest)[1..] == before[1..] + rest;
      forall i | 0 <= i < |before[1..]| ensures !ParseToken(s, name, before[1..][i]).Bad? {
        assert before[1..][i] == before[i + 1];
      }
      LineEnds(s, name, before[1..], token, rest);
    }
  }

  lemma {:induction false} PackedIsRead(s: Settings, name: string, text: real -> string, hist: Hist, keys: seq<real>)
    requires name != "" && name[0] == '@' && ReadsAllBack(s, text, hist) && Within(keys, hist)
    ensures var tokens := Packed(text, hist, keys);
      && |tokens| == |keys| && AllWords(tokens)
      && (forall i, c :: 0 <= i < |tokens| && c in SEPARATORS ==> c !in tokens[i])
      && |ParseTokens(s, name, tokens)| == |keys|
      && forall i :: 0 <= i < |keys| ==>
          ParseTokens(s, name, tokens)[i] == Sample(key := keys[i], count := hist[keys[i]])
  {
    if keys != [] {
      var k, rest := keys[0], keys[1..];
      PackedIsRead(s, name, text, hist, rest);
      PackedToken(s, text, k, hist[k]);
      TokenReads(s, name, text(k), text(hist[k]));
      var token := text(k) + "@" + text(hist[k]);
      assert Packed(text, hist, keys) == [token] + Packed(text, hist, rest);
      assert ParseTokens(s, name, [token] + Packed(text, hist, rest))
        == [Sample(k, hist[k])] + ParseTokens(s, name, Packed(text, hist, rest));
    }
  }

  lemma PackedToken(s: Settings, text: real -> string, k: real, n: real)
    requires ReadsBack(s, text, k) && ReadsBack(s, text, n)
    ensures var token := text(k) + "@" + text(n);
      token != "" && Solid(token) && forall c :: c in SEPARATORS ==> c !in token
  {
    var token := text(k) + "@" + text(n);
    forall i | 0 <= i < |token| ensures !IsSpace(token[i]) && token[i] !in SEPARATORS {
      assert token[i] in text(k) || token[i] == '@' || token[i] in text(n);
    }
  }

  /** Samples with the keys of a histogram, each with its count, add up to the histogram. */
  lemma {:induction false} SamplesOfHist(samples: seq<Sample>, hist: Hist, keys: seq<real>, key: real)
    requires Distinct(keys) && |samples| == |keys| && Within(keys, hist)
    requires forall i :: 0 <= i < |keys| ==> samples[i] == Sample(keys[i], hist[keys[i]])
    ensures SampleCount(samples, key) == if key in keys then hist[key] else 0.0
  {
    if keys != [] {
      assert keys == [keys[0]] + keys[1..];
      forall i | 0 <= i < |keys[1..]| ensures samples[1..][i] == Sample(keys[1..][i], hist[keys[1..][i]]) {
        assert samples[1..][i] == samples[i + 1];
      }
      SamplesOfHist(samples[1..], hist, keys[1..], key);
      assert keys[0] !in keys[1..];
    }
  }

  lemma KeysOfSamples(samples: seq<Sample>, hist: Hist, keys: seq<real>)
    requires Listing(keys, hist.Keys) && |samples| == |keys|
    requires forall i :: 0 <= i < |keys| ==> samples[i].key == keys[i]
    ensures SampleKeys(samples) == hist.Keys && Within(keys, hist)
    ensures forall k :: k in keys <==> k in hist
  {
    forall k ensures k in keys <==> k in hist { assert k in Elements(keys) <==> k in hist.Keys; }
    forall i | 0 <= i < |keys| ensures keys[i] in hist { assert keys[i] in keys; }
    forall k ensures k in SampleKeys(samples) <==> k in hist {
      if k in hist {
        var i :| 0 <= i < |keys| && keys[i] == k;
        assert samples[i].key == k;
      }
    }
  }

  lemma HistOfSamples(samples: seq<Sample>, hist: Hist, keys: seq<real>)
    requires Listing(keys, hist.Keys) && |samples| == |keys| && Within(keys, hist)
    requires forall i :: 0 <= i < |keys| ==> samples[i] == Sample(keys[i], hist[keys[i]])
    ensures AddedSamples(map[], samples) == hist
  {
    KeysOfSamples(samples, hist, keys);
    AddedSamplesCount(map[], samples, 0.0);
    forall k | k in hist ensures CountAt(AddedSamples(map[], samples), k) == CountAt(hist, k) {
      AddedSamplesCount(map[], samples, k);
      SamplesOfHist(samples, hist, keys, k);
    }
    SameHist(AddedSamples(map[], samples), hist);
  }

  /** A line of timings, alone, is a host's result of one histogram. */
  lemma TimingsRoundTrip(s: Settings, delta: real, name: string, tokens: seq<string>, hist: Hist)
    requires delta != 0.0 && GoodName(name) && tokens != [] && AllWords(tokens) && IsTimings(s, name)
    requires forall i, c :: 0 <= i < |tokens| && c in SEPARATORS ==> c !in tokens[i]
    requires AddedSamples(map[], ParseTokens(s, name, tokens)) == hist
    ensures HostResult(s, LineReader(s, delta), [Line(name, tokens)]) == map[name := Timings(hist)]
  {
    TimingsLine(s, delta, name, tokens);
    SingleTimed(s, delta, Line(name, tokens), name, ParseTokens(s, name, tokens));
  }

  /**
   Round trip: a histogram written as `key@count` for each key, in any order, under a name with an at
   sign, is the host's result for that line.
   */
  lemma PackedRoundTrip(s: Settings, delta: real, name: string, text: real -> string, hist: Hist, keys: seq<real>)
    requires delta != 0.0 && GoodName(name) && name[0] == '@' && ReadsAllBack(s, text, hist)
    requires hist != map[] && Listing(keys, hist.Keys) && Within(keys, hist)
    ensures HostResult(s, LineReader(s, delta), [Line(name, Packed(text, hist, keys))]) == map[name := Timings(hist)]
  {
    var tokens := Packed(text, hist, keys);
    PackedIsRead(s, name, text, hist, keys);
    KeysGiven(hist, keys);
    HistOfSamples(ParseTokens(s, name, tokens), hist, keys);
    TimingsRoundTrip(s, delta, name, tokens, hist);
  }

  lemma KeysGiven(hist: Hist, keys: seq<real>)
    requires hist != map[] && Elements(keys) == hist.Keys
    ensures keys != []
  {
    assert hist.Keys != {};
    var k := SomeMember(hist.Keys);
    assert k in Elements(keys);
  }

  // ----- plain timings and sums

  /** The values as texts, in order. */
  function Written(text: real -> string, values: seq<real>): seq<string> {
    seq(|values|, i requires 0 <= i < |values| => text(values[i]))
  }

  lemma WrittenIsClean(s: Settings, text: real -> string, values: seq<real>)
    requires forall x :: x in values ==> ReadsBack(s, text, x)
    ensures AllWords(Written(text, values))
    ensures forall i, c :: 0 <= i < |values| && c in SEPARATORS ==> c !in Written(text, values)[i]
  {
    forall i | 0 <= i < |values|
      ensures var w := Written(text, values)[i]; w != "" && Solid(w) && forall c :: c in SEPARATORS ==> c !in w
    {
      assert values[i] in values && ReadsBack(s, text, values[i]);
    }
  }

  lemma {:induction false} PlainIsRead(s: Settings, name: string, text: real -> string, values: seq<real>, key: real)
    requires (name == "" || name[0] != '@') && forall x :: x in values ==> ReadsBack(s, text, x)
    ensures var samples := ParseTokens(s, name, Written(text, values));
      && SampleCount(samples, key) == multiset(values)[key] as real
      && (key in SampleKeys(samples) <==> key in values)
  {
    if values != [] {
      var x, rest := values[0], values[1..];
      assert values == [x] + rest && x in values && ReadsBack(s, text, x);
      assert Written(text, values) == [text(x)] + Written(text, rest);
      TokenPlain(s, name, text(x));
      PlainIsRead(s, name, text, rest, key);
      var samples, more := ParseTokens(s, name, Written(text, rest)), ParseTokens(s, name, Written(text, values));
      assert more == [Sample(x, 1.0)] + samples;
      OneMoreSample(Sample(x, 1.0), samples, key);
    }
  }

  lemma OneMoreSample(x: Sample, samples: seq<Sample>, key: real)
    ensures SampleCount([x] + samples, key) == (if x.key == key then x.count else 0.0) + SampleCount(samples, key)
    ensures key in SampleKeys([x] + samples) <==> x.key == key || key in SampleKeys(samples)
  {
    var more := [x] + samples;
    assert more[1..] == samples && more[0] == x;
    if key in SampleKeys(samples) {
      var i :| 0 <= i < |samples| && samples[i].key == key;
      assert more[i + 1].key == key;
    }
    if key in SampleKeys(more) && x.key != key {
      var i :| 0 <= i < |more| && more[i].key == key;
      assert samples[i - 1].key == key;
    }
  }

  /** Each value, as often as it occurs. */
  function Occurrences(values: seq<real>): Hist {
    map x | x in values :: multiset(values)[x] as real
  }

  lemma HistOfValues(s: Settings, name: string, text: real -> string, values: seq<real>)
    requires (name == "" || name[0] != '@') && forall x :: x in values ==> ReadsBack(s, text, x)
    ensures AddedSamples(map[], ParseTokens(s, name, Written(text, values))) == Occurrences(values)
  {
    var samples := ParseTokens(s, name, Written(text, values));
    forall x ensures x in SampleKeys(samples) <==> x in values { PlainIsRead(s, name, text, values, x); }
    AddedSamplesCount(map[], samples, 0.0);
    forall x | x in Occurrences(values)
      ensures CountAt(AddedSamples(map[], samples), x) == CountAt(Occurrences(values), x)
    {
      AddedSamplesCount(map[], samples, x);
      PlainIsRead(s, name, text, values, x);
    }
    SameHist(AddedSamples(map[], samples), Occurrences(values));
  }

  /** Plain timings are counted: each value as often as it was written. */
  lemma PlainRoundTrip(s: Settings, delta: real, name: string, text: real -> string, values: seq<real>)
    requires delta != 0.0 && GoodName(name) && name[0] != '@' && IsTimings(s, name)
    requires values != [] && forall x :: x in values ==> ReadsBack(s, text, x)
    ensures HostResult(s, LineReader(s, delta), [Line(name, Written(text, values))])
      == map[name := Timings(map x | x in values :: multiset(values)[x] as real)]
  {
    WrittenIsClean(s, text, values);
    HistOfValues(s, name, text, values);
    TimingsRoundTrip(s, delta, name, Written(text, values), Occurrences(values));
  }

  /** As for timings, but a number may hold separators: a minus sign, say. */
  predicate ReadsNumber(s: Settings, text: real -> string, x: real) {
    text(x) != "" && Solid(text(x)) && s.number(text(x)) == Some(x)
  }

  lemma {:induction false} SumIsRead(s: Settings, text: real -> string, values: seq<real>)
    requires forall i :: 0 <= i < |values| ==> ReadsNumber(s, text, values[i])
    ensures SumTokens(s, Written(text, values)) == Some(Total(x => x, values)) && AllWords(Written(text, values))
  {
    if values != [] {
      var n := |values| - 1;
      var init, tokens := values[..n], Written(text, values);
      assert ReadsNumber(s, text, values[n]);
      SumIsRead(s, text, init);
      assert tokens[..n] == Written(text, init) && tokens[n] == text(values[n]);
    }
  }

  /** Numbers are added up, and divided by the time that passed if rates are wanted. */
  lemma SumRoundTrip(s: Settings, delta: real, name: string, text: real -> string, values: seq<real>)
    requires delta != 0.0 && GoodName(name) && !IsTimings(s, name)
    requires values != [] && forall i :: 0 <= i < |values| ==> ReadsNumber(s, text, values[i])
    ensures var sum := Total(x => x, values);
      HostResult(s, LineReader(s, delta), [Line(name, Written(text, values))])
        == map[name := Scalar(if s.rps then sum / delta else sum)]
  {
    SumIsRead(s, text, values);
    NumbersLine(s, delta, name, Written(text, values));
    SingleLine(s, delta, Line(name, Written(text, values)));
  }

  // ----- other lines

  /** A name with nothing behind it stands for a sum of no numbers; timings need some text. */
  lemma NameAlone(s: Settings, delta: real, name: string)
    requires delta != 0.0 && GoodName(name)
    ensures HostResult(s, LineReader(s, delta), [name])
      == if IsTimings(s, name) then map[] else map[name := Scalar(0.0)]
  {
    StripKeeps(name);
    ReplaceKeeps(name, {'\t'}, ' ');
    FindNothing(name, ' ');
    assert name[..|name|] == name && name[|name|..] == "";
    SingleLine(s, delta, name);
  }

  /** One malformed number voids its line of numbers. */
  lemma MalformedSum(s: Settings, delta: real, name: string, tokens: seq<string>, i: nat)
    requires delta != 0.0 && GoodName(name) && AllWords(tokens) && !IsTimings(s, name)
    requires i < |tokens| && s.number(tokens[i]).None?
    ensures HostResult(s, LineReader(s, delta), [Line(name, tokens)]) == map[]
  {
    SpacedIsBody(tokens);
    LineParts(name, Spaced(tokens));
    WordsOfSpaced(tokens);
    OneBadToken(s, tokens, i);
    SingleLine(s, delta, Line(name, tokens));
  }

  function Untabbed(s: string): string { Replace(s, {'\t'}, ' ') }

  lemma {:induction false} UntabbedLeft(s: string)
    ensures StripLeft(Untabbed(s)) == Untabbed(StripLeft(s))
  {
    if s != "" && IsSpace(s[0]) {
      assert Untabbed(s)[1..] == Untabbed(s[1..]);
      UntabbedLeft(s[1..]);
    }
  }

  lemma {:induction false} UntabbedRight(s: string)
    ensures StripRight(Untabbed(s)) == Untabbed(StripRight(s))
  {
    if s != "" && IsSpace(s[|s| - 1]) {
      assert Untabbed(s)[..|s| - 1] == Untabbed(s[..|s| - 1]);
      UntabbedRight(s[..|s| - 1]);
    }
  }

  /** A tab is as good as a blank anywhere on a line. */
  lemma TabsAreBlanks(s: Settings, delta: real, line: string)
    requires delta != 0.0
    ensures ParseLine(s, delta, line) == ParseLine(s, delta, Replace(line, {'\t'}, ' '))
  {
    UntabbedRight(line);
    UntabbedLeft(StripRight(line));
    assert Strip(Untabbed(line)) == Untabbed(Strip(line));
    assert Untabbed(Untabbed(Strip(line))) == Untabbed(Strip(line));
  }

  lemma {:induction false} PaddedLeft(pad: string, s: string)
    requires forall i :: 0 <= i < |pad| ==> IsSpace(pad[i])
    ensures StripLeft(pad + s) == StripLeft(s)
  {
    if pad == "" {
      assert pad + s == s;
    } else {
      assert (pad + s)[0] == pad[0] && (pad + s)[1..] == pad[1..] + s;
      PaddedLeft(pad[1..], s);
    }
  }

  lemma {:induction false} PaddedRight(s: string, pad: string)
    requires forall i :: 0 <= i < |pad| ==> IsSpace(pad[i])
    ensures StripRight(s + pad) == StripRight(s)
  {
    if pad == "" {
      assert s + pad == s;
    } else {
      var n := |pad| - 1;
      assert (s + pad)[|s| + n] == pad[n] && (s + pad)[..|s| + n] == s + pad[..n];
      PaddedRight(s, pad[..n]);
    }
  }

  /** Blanks around a line do not matter, and a line of blanks says nothing. */
  lemma BlanksAround(s: Settings, delta: real, left: string, line: string, right: string)
    requires delta != 0.0 && line != "" && !IsSpace(line[0])
    requires forall i :: 0 <= i < |left| ==> IsSpace(left[i])
    requires forall i :: 0 <= i < |right| ==> IsSpace(right[i])
    ensures ParseLine(s, delta, left + line + right) == ParseLine(s, delta, line)
    ensures ParseLine(s, delta, left) == Nothing
  {
    PaddedRight(left + line, right);
    StripKeepsFront(left, line);
    PaddedRight("", left);
    assert "" + left == left;
  }

  /** Stripping from the right does not reach past a character that is not blank. */
  lemma StripKeepsFront(left: string, line: string)
    requires line != "" && !IsSpace(line[0])
    requires forall i :: 0 <= i < |left| ==> IsSpace(left[i])
    ensures Strip(left + line) == Strip(line)
  {
    StripRightBehind(left, line);
    PaddedLeft(left, StripRight(line));
  }

  lemma {:induction false} StripRightBehind(left: string, line: string)
    requires line != "" && !IsSpace(line[0])
    ensures StripRight(left + line) == left + StripRight(line)
  {
    var n := |line| - 1;
    assert (left + line)[|left| + n] == line[n];
    if IsSpace(line[n]) {
      assert (left + line)[..|left| + n] == left + line[..n];
      StripRightBehind(left, line[..n]);
    }
  }
}
