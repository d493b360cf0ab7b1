/**
 `shQuote` of packages/coding-agent/extensions/hummin-hooks.ts and the tokens of `tokenize` in
 packages/coding-agent/extensions/hummin-bashguard.ts. Written apart, they still agree.
 */
module ShellQuote {

  const SINGLE: char := '\''
  const DOUBLE: char := '\"'
  const BACKSLASH: char := '\\'

  /** A single quote closes, is escaped, and opens again. */
  const ESCAPED: string := [SINGLE, BACKSLASH, SINGLE, SINGLE]

  /** `replaceAll` of the single quotes. */
  function Escape(value: string): string {
    if value == "" then "" else (if value[0] == SINGLE then ESCAPED else [value[0]]) + Escape(value[1..])
  }

  function ShQuote(value: string): string {
    [SINGLE] + (Escape(value) + [SINGLE])
  }

  function QuoteAll(words: seq<string>): string {
    if words == [] then ""
    else if |words| == 1 then ShQuote(words[0])
    else ShQuote(words[0]) + ([' '] + QuoteAll(words[1..]))
  }

  datatype Quote = Unquoted | Quoted(mark: char)

  datatype Scan = Scan(tokens: seq<string>, current: string, quote: Quote)

  function Flush(s: Scan): Scan {
    s.(tokens := if s.current != "" then s.tokens + [s.current] else s.tokens, current := "")
  }

  predicate IsSpace(c: char) {
    c == ' ' || c == '\t' || c == '\n'
  }

  /** What the scan makes of one character, or of two after a backslash. */
  function Step(s: Scan, text: string): (Scan, nat)
    requires text != ""
    ensures 1 <= Step(s, text).1 <= |text|
  {
    var ch := text[0];
    if s.quote.Quoted? then
      (if ch == s.quote.mark then s.(quote := Unquoted) else s.(current := s.current + [ch]), 1)
    else if ch == DOUBLE || ch == SINGLE then (s.(quote := Quoted(ch)), 1)
    else if ch == BACKSLASH && |text| > 1 then (s.(current := s.current + [text[1]]), 2)
    else if IsSpace(ch) then (Flush(s), 1)
    else (s.(current := s.current + [ch]), 1)
  }

  function Rest(s: Scan, text: string): seq<string>
    decreases |text|
  {
    if text == "" then Flush(s).tokens
    else
      var (t, n) := Step(s, text);
      Rest(t, text[n..])
  }

  const FRESH: Scan := Scan([], "", Unquoted)

  /** The loop of `tokenize`, with its `current` and `quote`. */
  method Tokenize(raw: string) returns (tokens: seq<string>)
    ensures tokens == Rest(FRESH, raw)
  {
    tokens := [];
    var current, quote, i := "", Unquoted, 0;
    while i < |raw|
      invariant i <= |raw| && Rest(Scan(tokens, current, quote), raw[i..]) == Rest(FRESH, raw)
    {
      var ch := raw[i];
      ghost var s := Scan(tokens, current, quote);
      assert raw[i..][Step(s, raw[i..]).1..] == raw[i + Step(s, raw[i..]).1..];
      if quote.Quoted? {
        if ch == quote.mark {
          quote := Unquoted;
        } else {
          current := current + [ch];
        }
        i := i + 1;
        continue;
      }
      if ch == DOUBLE || ch == SINGLE {
        quote, i := Quoted(ch), i + 1;
        continue;
      }
      if ch == BACKSLASH && i + 1 < |raw| {
        current, i := current + [raw[i + 1]], i + 2;
        continue;
      }
      if IsSpace(ch) {
        if current != "" {
          tokens := tokens + [current];
        }
        current, i := "", i + 1;
        continue;
      }
      current, i := current + [ch], i + 1;
    }
    assert raw[i..] == "";
    if current != "" {
      tokens := tokens + [current];
    }
  }

  lemma OneStep(s: Scan, head: string, tail: string)
    requires |head| > 0 && Step(s, head + tail).1 == |head|
    ensures Rest(s, head + tail) == Rest(Step(s, head + tail).0, tail)
  {
    assert (head + tail)[|head|..] == tail;
  }

  lemma Associative(a: string, b: string, c: string)
    ensures (a + b) + c == a + (b + c)
  {
  }

  // ----- What separates words -----

  predicate Blank(text: string) {
    forall i :: 0 <= i < |text| ==> text[i] == ' ' || text[i] == '\t' || text[i] == '\n'
  }

  /** Text without a blank, a quote or a backslash. */
  predicate Plain(text: string) {
    forall i :: 0 <= i < |text| ==> text[i] !in " \t\n'\"\\"
  }

  /** Plain text goes on with the current word. */
  lemma {:induction false} PlainAdds(s: Scan, text: string, rest: string)
    requires s.quote.Unquoted? && Plain(text)
    ensures Rest(s, text + rest) == Rest(s.(current := s.current + text), rest)
    decreases |text|
  {
    if text == "" {
      assert text + rest == rest && s.current + text == s.current;
    } else {
      var t := s.(current := s.current + [text[0]]);
      assert text + rest == [text[0]] + (text[1..] + rest);
      OneStep(s, [text[0]], text[1..] + rest);
      PlainAdds(t, text[1..], rest);
      assert t.current + text[1..] == s.current + text;
    }
  }

  /** A space, tab or newline ends it, and further ones change nothing. */
  lemma {:induction false} BlankEnds(s: Scan, text: string, rest: string)
    requires s.quote.Unquoted? && Blank(text) && text != ""
    ensures Rest(s, text + rest)
            == Rest(Scan(if s.current == "" then s.tokens else s.tokens + [s.current], "", Unquoted), rest)
    decreases |text|
  {
    assert text + rest == [text[0]] + (text[1..] + rest);
    OneStep(s, [text[0]], text[1..] + rest);
    if |text| > 1 {
      BlankEnds(Flush(s), text[1..], rest);
    } else {
      assert text[1..] + rest == rest;
    }
  }

  /** Between quotes of one kind, every other character goes on with the current word; the same quote closes them. */
  lemma QuotesHold(s: Scan, mark: char, text: string, rest: string)
    requires s.quote.Unquoted? && (mark == '\'' || mark == '\"') && mark !in text
    ensures Rest(s, [mark] + (text + ([mark] + rest))) == Rest(s.(current := s.current + text), rest)
  {
    OneStep(s, [mark], text + ([mark] + rest));
    Within(s.(quote := Quoted(mark)), mark, text, rest);
  }

  lemma {:induction false} Within(s: Scan, mark: char, text: string, rest: string)
    requires s.quote == Quoted(mark) && mark !in text
    ensures Rest(s, text + ([mark] + rest)) == Rest(s.(current := s.current + text, quote := Unquoted), rest)
    decreases |text|
  {
    if text == "" {
      assert text + ([mark] + rest) == [mark] + rest && s.current + text == s.current;
      OneStep(s, [mark], rest);
    } else {
      var t := s.(current := s.current + [text[0]]);
      assert text + ([mark] + rest) == [text[0]] + (text[1..] + ([mark] + rest));
      OneStep(s, [text[0]], text[1..] + ([mark] + rest));
      Within(t, mark, text[1..], rest);
      assert t.current + text[1..] == s.current + text;
    }
  }

  /** Outside quotes a backslash takes the next character as it is; at the end it stands for itself. */
  lemma BackslashTakes(s: Scan, c: char, rest: string)
    requires s.quote.Unquoted?
    ensures Rest(s, ['\\', c] + rest) == Rest(s.(current := s.current + [c]), rest)
    ensures Rest(s, "\\") == s.tokens + [s.current + "\\"]
  {
    OneStep(s, ['\\', c], rest);
    assert "\\" + "" == "\\";
    OneStep(s, "\\", "");
  }

  /** Words with what stands between them. */
  function Spread(words: seq<string>, gaps: seq<string>): string
    requires |gaps| == |words|
  {
    if words == [] then "" else words[0] + (gaps[0] + Spread(words[1..], gaps[1..]))
  }

  lemma WordEnds(tokens: seq<string>, word: string, gap: string, rest: string)
    requires Plain(word) && word != "" && Blank(gap) && gap != ""
    ensures Rest(Scan(tokens, "", Unquoted), word + (gap + rest)) == Rest(Scan(tokens + [word], "", Unquoted), rest)
  {
    PlainAdds(Scan(tokens, "", Unquoted), word, gap + rest);
    assert "" + word == word;
    BlankEnds(Scan(tokens, word, Unquoted), gap, rest);
  }

  /** Plain words apart by blanks are the tokens, whatever the blanks are. */
  lemma {:induction false} BlanksSeparate(tokens: seq<string>, words: seq<string>, gaps: seq<string>)
    requires |gaps| == |words|
    requires forall i :: 0 <= i < |words| ==> Plain(words[i]) && words[i] != ""
    requires forall i :: 0 <= i < |words| ==> Blank(gaps[i]) && gaps[i] != ""
    ensures Rest(Scan(tokens, "", Unquoted), Spread(words, gaps)) == tokens + words
    decreases |words|
  {
    if words != [] {
      var more := Spread(words[1..], gaps[1..]);
      WordEnds(tokens, words[0], gaps[0], more);
      BlanksSeparate(tokens + [words[0]], words[1..], gaps[1..]);
      assert tokens + [words[0]] + words[1..] == tokens + words;
    }
  }

  /** Inside single quotes, the escaped form of a value adds the value. */
  lemma {:induction false} EscapedAdds(s: Scan, value: string, rest: string)
    requires s.quote == Quoted(SINGLE)
    ensures Rest(s, Escape(value) + ([SINGLE] + rest)) == Rest(s.(current := s.current + value, quote := Unquoted), rest)
    decreases |value|
  {
    var after := [SINGLE] + rest;
    if value == "" {
      assert Escape(value) + after == after && s.current + value == s.current;
      OneStep(s, [SINGLE], rest);
    } else {
      var c := value[0];
      var more := Escape(value[1..]) + after;
      var t := s.(current := s.current + [c]);
      EscapedAdds(t, value[1..], rest);
      assert t.current + value[1..] == s.current + value;
      if c == SINGLE {
        Associative(ESCAPED, Escape(value[1..]), after);
        QuoteEscaped(s, more);
      } else {
        Associative([c], Escape(value[1..]), after);
        OneStep(s, [c], more);
      }
    }
  }

  /** The escaped single quote: close, backslash, open. */
  lemma QuoteEscaped(s: Scan, more: string)
    requires s.quote == Quoted(SINGLE)
    ensures Rest(s, ESCAPED + more) == Rest(s.(current := s.current + [SINGLE]), more)
  {
    var a := [SINGLE] + more;
    var b := [BACKSLASH, SINGLE] + a;
    assert ESCAPED + more == [SINGLE] + b;
    OneStep(s, [SINGLE], b);
    var t := s.(quote := Unquoted);
    assert b[1] == SINGLE;
    OneStep(t, [BACKSLASH, SINGLE], a);
    OneStep(t.(current := t.current + [SINGLE]), [SINGLE], more);
  }

  lemma QuotedWord(tokens: seq<string>, word: string, rest: string)
    ensures Rest(Scan(tokens, "", Unquoted), ShQuote(word) + rest) == Rest(Scan(tokens, word, Unquoted), rest)
  {
    var inner := Escape(word) + ([SINGLE] + rest);
    assert ShQuote(word) + rest == [SINGLE] + inner;
    OneStep(Scan(tokens, "", Unquoted), [SINGLE], inner);
    EscapedAdds(Scan(tokens, "", Quoted(SINGLE)), word, rest);
    assert "" + word == word;
  }

  function NonEmpty(words: seq<string>): seq<string> {
    if words == [] then [] else (if words[0] != "" then [words[0]] else []) + NonEmpty(words[1..])
  }

  lemma {:induction false} QuotedWords(tokens: seq<string>, words: seq<string>)
    ensures Rest(Scan(tokens, "", Unquoted), QuoteAll(words)) == tokens + NonEmpty(words)
    decreases |words|
  {
    if words == [] {
    } else if |words| == 1 {
      QuotedWord(tokens, words[0], "");
      assert ShQuote(words[0]) + "" == ShQuote(words[0]);
      assert NonEmpty(words[1..]) == [];
    } else {
      var more := QuoteAll(words[1..]);
      QuotedWord(tokens, words[0], [' '] + more);
      OneStep(Scan(tokens, words[0], Unquoted), [' '], more);
      var flushed := Flush(Scan(tokens, words[0], Unquoted)).tokens;
      QuotedWords(flushed, words[1..]);
      assert flushed + NonEmpty(words[1..]) == tokens + NonEmpty(words);
    }
  }

  /**
   Tokenizing quoted words joined by spaces gives back the words that are not empty, whatever quotes, backslashes, spaces
   or newlines they hold.
   */
  lemma QuoteTokenize(words: seq<string>)
    ensures Rest(FRESH, QuoteAll(words)) == NonEmpty(words)
  {
    QuotedWords([], words);
    assert [] + NonEmpty(words) == NonEmpty(words);
  }

  lemma {:induction false} NonEmptyShorter(words: seq<string>)
    ensures |NonEmpty(words)| <= |words|
    ensures NonEmpty(words) == words <==> forall i :: 0 <= i < |words| ==> words[i] != ""
    decreases |words|
  {
    if words != [] {
      NonEmptyShorter(words[1..]);
      assert words == [words[0]] + words[1..];
    }
  }

  /** The round trip is exact precisely for lists without empty words. */
  lemma RoundTripIff(words: seq<string>)
    ensures Rest(FRESH, QuoteAll(words)) == words <==> forall i :: 0 <= i < |words| ==> words[i] != ""
  {
    QuoteTokenize(words);
    NonEmptyShorter(words);
  }

  /** So no two lists of words that are not empty have the same quoted form. */
  lemma QuotingInjective(a: seq<string>, b: seq<string>)
    requires QuoteAll(a) == QuoteAll(b)
    requires (forall i :: 0 <= i < |a| ==> a[i] != "") && forall i :: 0 <= i < |b| ==> b[i] != ""
    ensures a == b
  {
    RoundTripIff(a);
    RoundTripIff(b);
  }
}
