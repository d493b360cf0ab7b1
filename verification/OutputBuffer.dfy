/**
 `OutputBuffer` of packages/chord/src/output.ts: a running window of a stream that stores only a fragment of it.
 The ghost field `stream` is everything accepted or skipped so far; a snapshot is what `BoundOutput` would say of it.
 Chunks arrive decoded: what the incremental byte decoder yields is an input.
 */
module OutputBuffers {
  import opened Utf8
  import opened OutputBounds

  datatype Chunk = Chunk(text: string, bytes: nat, newlines: nat)

  /** Counts of output a producer omitted. */
  datatype Skip = Skip(bytes: nat, newlines: nat, endsWithNewline: bool)

  datatype Option<T> = None | Some(value: T)

  // ----- Why a fragment is enough -----

  /** More than a tail window by a byte or a newline. */
  predicate Exceeds(bs: seq<Byte>, limits: Limits) {
    |bs| > limits.maxBytes || Newlines(bs) > limits.maxLines
  }

  lemma ExceedsSuffix(p: seq<Byte>, s: seq<Byte>, q: seq<Byte>, limits: Limits)
    requires Exceeds(s, limits)
    ensures Exceeds(p + s + q, limits)
  {
    NewlinesConcat(p, s);
    NewlinesConcat(p + s, q);
  }

  /** Inside a suffix, the lines that fit do not depend on what precedes it. */
  lemma TailFitsSuffix(p: seq<Byte>, s: seq<Byte>, limits: Limits, i: int)
    requires 0 < i <= |s|
    ensures TailFits(p + s, limits, |p| + i) <==> TailFits(s, limits, i)
  {
    assert (p + s)[|p| + i..] == s[i..];
  }

  /** Nothing that reaches back to the start of a suffix that exceeds the window fits. */
  lemma TailFitsInside(p: seq<Byte>, s: seq<Byte>, limits: Limits, i: int)
    requires Exceeds(s, limits) && 0 <= i <= |p|
    ensures !TailFits(p + s, limits, i)
  {
    assert (p + s)[i..] == p[i..] + s;
    NewlinesConcat(p[i..], s);
  }

  /** With more newlines than lines allowed, some line inside fits if the bytes do. */
  lemma ManyLinesFit(s: seq<Byte>, limits: Limits)
    requires limits.maxLines > 0 && |s| <= limits.maxBytes && Newlines(s) > 1
    ensures exists i :: TailFits(s, limits, i)
  {
    if i :| 0 <= i < |s| - 1 && s[i] == NEWLINE {
      LastLineFits(s, limits, i + 1);
    } else {
      LastLine(s, 0);
    }
  }

  /** The lines that fit are the same, shifted by what precedes the suffix. */
  lemma TailFitsShift(p: seq<Byte>, s: seq<Byte>, limits: Limits, i: int)
    requires Exceeds(s, limits)
    ensures TailFits(p + s, limits, i) <==> TailFits(s, limits, i - |p|)
  {
    if 0 <= i <= |p| {
      TailFitsInside(p, s, limits, i);
    }
    if i == |p| {
      TailFitsInside([], s, limits, 0);
      assert [] + s == s;
    } else if |p| < i <= |p| + |s| {
      TailFitsSuffix(p, s, limits, i - |p|);
    }
  }

  /** The cut of the last line is the same. */
  lemma CutOfSuffix(p: seq<Byte>, s: seq<Byte>, limits: Limits, start: int)
    requires |s| > limits.maxBytes && FirstBoundary(s, |s| - limits.maxBytes, start)
    ensures FirstBoundary(p + s, |p + s| - limits.maxBytes, |p| + start)
  {
    forall j | |p + s| - limits.maxBytes <= j < |p| + start ensures !Boundary(p + s, j) {
      assert !Boundary(s, j - |p|);
    }
  }

  /** The tail window of a text is that of any suffix which exceeds the window. */
  lemma TailWindowOfSuffix(p: seq<Byte>, s: seq<Byte>, limits: Limits, start: int)
    requires Exceeds(s, limits) && IsTailStart(s, limits, start)
    ensures IsTailStart(p + s, limits, |p| + start)
  {
    if limits.maxLines > 0 && limits.maxBytes > 0 {
      if exists i :: TailFits(s, limits, i) {
        TailFitsShift(p, s, limits, |p| + start);
        forall i | TailFits(p + s, limits, i) ensures |p| + start <= i {
          TailFitsShift(p, s, limits, i);
        }
      } else {
        if |s| <= limits.maxBytes {
          ManyLinesFit(s, limits);
        }
        CutOfSuffix(p, s, limits, start);
        forall i ensures !TailFits(p + s, limits, i) {
          TailFitsShift(p, s, limits, i);
        }
      }
    }
  }

  /** A head window needs nothing past this. */
  predicate Fills(bs: seq<Byte>, limits: Limits) {
    |bs| > limits.maxBytes || Newlines(bs) >= limits.maxLines
  }

  lemma HeadFitsPrefix(s: seq<Byte>, q: seq<Byte>, limits: Limits, i: int)
    requires 0 <= i < |s|
    ensures HeadFits(s + q, limits, i) <==> HeadFits(s, limits, i)
  {
    assert (s + q)[..i] == s[..i];
  }

  lemma HeadFitsOutside(s: seq<Byte>, q: seq<Byte>, limits: Limits, i: int)
    requires Fills(s, limits) && |s| < i <= |s + q|
    ensures !HeadFits(s + q, limits, i)
  {
    var bs := (s + q)[..i];
    assert bs == s + q[..i - |s|];
    NewlinesConcat(s, q[..i - |s|]);
    if Terminated(bs) {
      assert q[..i - |s|] == q[..i - |s| - 1] + [NEWLINE];
      NewlinesConcat(q[..i - |s| - 1], [NEWLINE]);
      assert [NEWLINE][1..] == [];
    }
  }

  /** A filled prefix ends with its own last fitting line, which ends a line of the whole text too. */
  lemma HeadFitsWhole(s: seq<Byte>, q: seq<Byte>, limits: Limits)
    requires Fills(s, limits) && s != [] && q != []
    ensures HeadFits(s, limits, |s|) <==> HeadFits(s + q, limits, |s|)
  {
    assert s[..|s|] == s && (s + q)[..|s|] == s;
  }

  /** The head window of a text is that of any prefix which fills the window. */
  lemma HeadWindowOfPrefix(s: seq<Byte>, q: seq<Byte>, limits: Limits, end: int)
    requires Fills(s, limits) && IsHeadEnd(s, limits, end)
    ensures IsHeadEnd(s + q, limits, end)
  {
    var all := s + q;
    if limits.maxLines > 0 && limits.maxBytes > 0 && q != [] {
      forall i | HeadFits(all, limits, i) ensures 0 <= i <= |s| && HeadFits(s, limits, i) {
        if i > |s| {
          HeadFitsOutside(s, q, limits, i);
        } else if i == |s| {
          HeadFitsWhole(s, q, limits);
        } else {
          HeadFitsPrefix(s, q, limits, i);
        }
      }
      if exists i :: HeadFits(s, limits, i) {
        if end == |s| {
          HeadFitsWhole(s, q, limits);
        } else {
          HeadFitsPrefix(s, q, limits, end);
        }
      } else {
        assert forall j :: 0 <= j <= limits.maxBytes ==> (Boundary(all, j) <==> Boundary(s, j));
      }
    } else if q == [] {
      assert all == s;
    }
  }

  // ----- Refinement of slices -----

  ghost predicate HasSuffix(text: string, s: string) {
    |s| <= |text| && text[|text| - |s|..] == s
  }

  lemma SuffixEncodes(text: string, s: string)
    requires HasSuffix(text, s)
    ensures Encode(text) == Encode(text[..|text| - |s|]) + Encode(s)
  {
    EncodeSplit(text, text[..|text| - |s|], s);
  }

  lemma PrefixEncodes(text: string, s: string)
    requires s <= text
    ensures Encode(text) == Encode(s) + Encode(text[|s|..])
  {
    EncodeSplit(text, s, text[|s|..]);
  }

  /** `slice` of the stored bytes `s`, with what is dropped counted on the whole stream. */
  function OnStream(slice: Slice, s: seq<Byte>, all: seq<Byte>): Slice {
    slice.(droppedBytes := |all| - slice.bytes, droppedLines := Lines(all) - (Lines(s) - slice.droppedLines))
  }

  /** The stored fragment decides the window, now and whatever follows. */
  ghost predicate Suffices(limits: Limits, stored: string, stream: string, full: bool) {
    match limits.retain
    case Head => stored <= stream && if full then Fills(Encode(stored), limits) else stored == stream
    case Tail => !full && HasSuffix(stream, stored) && (stored == stream || Exceeds(Encode(stored), limits))
  }

  /** Bounding a suffix that exceeds the window bounds the whole. */
  lemma TailRefines(limits: Limits, p: seq<Byte>, s: seq<Byte>, slice: Slice)
    requires limits.retain.Tail? && Exceeds(s, limits) && IsBoundedBytes(s, limits, slice)
    ensures IsBoundedBytes(p + s, limits, OnStream(slice, s, p + s))
  {
    var from, to :| IsWindow(s, limits, from, to) && IsSlice(s, from, to, slice);
    TailWindowOfSuffix(p, s, limits, from);
    ShiftedSlice(p, s, from, to, slice);
    assert IsWindow(p + s, limits, |p| + from, |p| + to);
  }

  lemma ShiftedSlice(p: seq<Byte>, s: seq<Byte>, from: nat, to: nat, slice: Slice)
    requires from <= to <= |s| && IsSlice(s, from, to, slice)
    ensures IsSlice(p + s, |p| + from, |p| + to, OnStream(slice, s, p + s))
  {
    assert (p + s)[|p| + from..|p| + to] == s[from..to];
  }

  /** Bounding a prefix that fills the window bounds the whole. */
  lemma HeadRefines(limits: Limits, s: seq<Byte>, q: seq<Byte>, slice: Slice)
    requires limits.retain.Head? && Fills(s, limits) && IsBoundedBytes(s, limits, slice)
    ensures IsBoundedBytes(s + q, limits, OnStream(slice, s, s + q))
  {
    var from, to :| IsWindow(s, limits, from, to) && IsSlice(s, from, to, slice);
    HeadWindowOfPrefix(s, q, limits, to);
    assert (s + q)[from..to] == s[from..to];
    assert IsWindow(s + q, limits, from, to);
  }

  /** Bounding a sufficient fragment bounds the stream. */
  lemma FragmentRefines(limits: Limits, stored: string, stream: string, full: bool, slice: Slice)
    requires Suffices(limits, stored, stream, full) && IsBounded(stored, limits, slice)
    ensures IsBoundedBytes(Encode(stream), limits, OnStream(slice, Encode(stored), Encode(stream)))
  {
    if stored == stream {
      assert OnStream(slice, Encode(stored), Encode(stream)) == slice;
    } else if limits.retain.Head? {
      PrefixEncodes(stream, stored);
      HeadRefines(limits, Encode(stored), Encode(stream[|stored|..]), slice);
    } else {
      SuffixEncodes(stream, stored);
      TailRefines(limits, Encode(stream[..|stream| - |stored|]), Encode(stored), slice);
    }
  }

  /** More output keeps a fragment sufficient. */
  lemma SufficesAppend(limits: Limits, stored: string, stream: string, text: string)
    requires Suffices(limits, stored, stream, false)
    ensures limits.retain.Tail? ==> Suffices(limits, stored + text, stream + text, false)
    ensures limits.retain.Head? ==> stored + text == stream + text
  {
    if limits.retain.Tail? {
      if stored != stream {
        EncodeConcat(stored, text);
        ExceedsSuffix([], Encode(stored), Encode(text), limits);
        assert [] + Encode(stored) + Encode(text) == Encode(stored + text);
      }
      assert (stream + text)[|stream| - |stored|..] == stream[|stream| - |stored|..] + text;
    }
  }

  /** A suffix of a sufficient fragment that still exceeds the window is sufficient. */
  lemma SufficesSuffix(limits: Limits, stored: string, stream: string, rest: string)
    requires limits.retain.Tail? && Suffices(limits, stored, stream, false) && HasSuffix(stored, rest)
    requires rest == stored || Exceeds(Encode(rest), limits)
    ensures Suffices(limits, rest, stream, false)
  {
    assert stream[|stream| - |rest|..] == stored[|stored| - |rest|..];
  }

  // ----- Margins -----

  /** The byte position of a character is a boundary. */
  lemma IndexBoundary(text: string, k: nat)
    requires k <= |text|
    ensures Encode(text) == Encode(text[..k]) + Encode(text[k..])
    ensures Boundary(Encode(text), |Encode(text[..k])|)
  {
    EncodeSplit(text, text[..k], text[k..]);
    if k < |text| {
      assert Encode(text[k..]) == EncodeChar(text[k]) + Encode(text[k..][1..]);
    }
  }

  /** The position of the `maxLines + 1`-th newline from the end, or the start. */
  method MarginLines(bs: seq<Byte>, limits: Limits) returns (lineStart: nat)
    ensures lineStart <= |bs|
    ensures lineStart > 0 ==> Newlines(bs[lineStart..]) > limits.maxLines
    ensures forall i :: lineStart < i <= |bs| ==> Newlines(bs[i..]) <= limits.maxLines
  {
    lineStart := 0;
    var newlines := 0;
    var index := LastIndexOf(bs, |bs|);
    ghost var seen: int := |bs|;
    while index != -1
      invariant 0 <= seen <= |bs| && newlines == Newlines(bs[seen..]) <= limits.maxLines
      invariant index == -1 ==> Clear(bs, 0, seen)
      invariant index != -1 ==> 0 <= index < seen && bs[index] == NEWLINE && Clear(bs, index + 1, seen)
      invariant lineStart == 0
      decreases seen, index != -1
    {
      ClearSuffix(bs, index + 1, seen);
      NewlineAt(bs, index);
      newlines := newlines + 1;
      if newlines > limits.maxLines {
        return index;
      }
      seen := index;
      if index == 0 {
        break;
      }
      index := LastIndexOf(bs, index);
    }
    ClearSuffix(bs, 0, seen);
  }

  /** Suffixes that start in a stretch without newlines count the same. */
  lemma ClearSuffix(bs: seq<Byte>, from: nat, seen: nat)
    requires from <= seen <= |bs| && Clear(bs, from, seen)
    ensures forall i :: from <= i <= seen ==> Newlines(bs[i..]) == Newlines(bs[seen..])
    ensures forall i :: seen <= i <= |bs| ==> Newlines(bs[i..]) <= Newlines(bs[seen..])
  {
    forall i | from <= i <= seen ensures Newlines(bs[i..]) == Newlines(bs[seen..]) {
      NewlinesSplit(bs[i..], seen - i);
      assert bs[i..][..seen - i] == bs[i..seen] && bs[i..][seen - i..] == bs[seen..];
      ClearCount(bs, i, seen);
    }
    forall i | seen <= i <= |bs| ensures Newlines(bs[i..]) <= Newlines(bs[seen..]) {
      NewlinesSplit(bs[seen..], i - seen);
      assert bs[seen..][i - seen..] == bs[i..];
    }
  }

  /** `tailMargin`: the shortest suffix that exceeds the window, or everything. */
  method TailMargin(text: string, limits: Limits) returns (margin: string)
    ensures IsMargin(text, limits, margin)
    ensures |Encode(margin)| <= limits.maxBytes + 4
  {
    var bs := Encode(text);
    var start := MarginStart(text, limits);
    ghost var k := BoundarySplits(text, start);
    MarginText(text, limits, start, k);
    margin := if start == 0 then text else Decode(bs[start..]);
    EncodeInjective(margin, text[k..]);
  }

  ghost predicate IsMargin(text: string, limits: Limits, margin: string) {
    && HasSuffix(text, margin)
    && (margin == text || Exceeds(Encode(margin), limits))
    && forall k :: |text| - |margin| < k <= |text| ==> !Exceeds(Encode(text[k..]), limits)
  }

  /** The shortest suffix that exceeds the window, or everything. */
  ghost function Margin(text: string, limits: Limits): string {
    if text != "" && Exceeds(Encode(text[1..]), limits) then Margin(text[1..], limits) else text
  }

  lemma {:induction false} MarginUnique(text: string, limits: Limits, margin: string)
    requires IsMargin(text, limits, margin)
    ensures margin == Margin(text, limits)
  {
    var k := |text| - |margin|;
    if k == 0 {
      assert margin == text;
    } else {
      MarginShorter(text, limits, margin);
      forall j | |text[1..]| - |margin| < j <= |text[1..]| ensures !Exceeds(Encode(text[1..][j..]), limits) {
        assert text[1..][j..] == text[j + 1..];
      }
      assert text[1..][|text[1..]| - |margin|..] == margin;
      MarginUnique(text[1..], limits, margin);
    }
  }

  lemma MarginShorter(text: string, limits: Limits, margin: string)
    requires IsMargin(text, limits, margin) && margin != text
    ensures text != "" && Exceeds(Encode(text[1..]), limits)
  {
    var k := |text| - |margin|;
    var between := text[1..][..k - 1];
    EncodeSplit(text[1..], between, margin);
    ExceedsSuffix(Encode(between), Encode(margin), [], limits);
    assert Encode(between) + Encode(margin) + [] == Encode(text[1..]);
  }

  method MarginStart(text: string, limits: Limits) returns (start: nat)
    ensures Boundary(Encode(text), start)
    ensures start == 0 || Exceeds(Encode(text)[start..], limits)
    ensures forall i :: start < i <= |Encode(text)| && Boundary(Encode(text), i) ==> !Exceeds(Encode(text)[i..], limits)
    ensures |Encode(text)| - start <= limits.maxBytes + 4
  {
    var bs := Encode(text);
    var byteStart := 0;
    if |bs| > limits.maxBytes {
      byteStart := CharacterEnd(bs, |bs| - limits.maxBytes - 1);
      BoundaryNear(text, |bs| - limits.maxBytes - 1);
    }
    var lineStart := MarginLines(bs, limits);
    if lineStart > 0 {
      NewlineOrEnd(text, limits, lineStart);
    }
    start := if byteStart > lineStart then byteStart else lineStart;
  }

  /** Suffixes of the bytes on boundaries are the suffixes of the text. */
  lemma MarginText(text: string, limits: Limits, start: nat, k: nat)
    requires k <= |text| && start == |Encode(text[..k])| <= |Encode(text)| && Encode(text)[start..] == Encode(text[k..])
    requires start == 0 || Exceeds(Encode(text)[start..], limits)
    requires forall i :: start < i <= |Encode(text)| && Boundary(Encode(text), i) ==> !Exceeds(Encode(text)[i..], limits)
    ensures IsMargin(text, limits, text[k..])
    ensures start == 0 ==> k == 0
  {
    assert start == 0 ==> text[..k] == "";
    assert k == 0 ==> text[k..] == text;
    forall j | k < j <= |text| ensures !Exceeds(Encode(text[j..]), limits) {
      var i := MarginLater(text, k, j);
    }
  }

  lemma MarginLater(text: string, k: nat, j: nat) returns (i: nat)
    requires k < j <= |text|
    ensures |Encode(text[..k])| < i <= |Encode(text)| && Boundary(Encode(text), i)
    ensures Encode(text)[i..] == Encode(text[j..])
  {
    i := |Encode(text[..j])|;
    IndexBoundary(text, j);
    EncodeSplit(text[..j], text[..k], text[k..j]);
    assert Encode(text[k..j]) != [];
  }

  /** Where the newline count of the suffixes changes is a newline, so a boundary. */
  lemma NewlineOrEnd(text: string, limits: Limits, i: nat)
    requires 0 < i <= |Encode(text)| && Newlines(Encode(text)[i..]) > limits.maxLines
    requires forall j :: i < j <= |Encode(text)| ==> Newlines(Encode(text)[j..]) <= limits.maxLines
    ensures Boundary(Encode(text), i)
  {
    var bs := Encode(text);
    if i < |bs| {
      assert bs[i..][1..] == bs[i + 1..];
      NewlineIsWhole(text, i);
    }
  }

  // ----- The buffer -----

  function Concat(chunks: seq<Chunk>): string {
    if chunks == [] then "" else chunks[0].text + Concat(chunks[1..])
  }

  lemma {:induction false} ConcatAppend(chunks: seq<Chunk>, c: Chunk)
    ensures Concat(chunks + [c]) == Concat(chunks) + c.text
  {
    if chunks == [] {
      assert chunks + [c] == [c] && [c][1..] == [];
    } else {
      ConcatAppend(chunks[1..], c);
      assert (chunks + [c])[1..] == chunks[1..] + [c];
    }
  }

  predicate Measured(c: Chunk) {
    c.bytes == |Encode(c.text)| && c.newlines == Newlines(Encode(c.text))
  }

  /** Measured chunks that make up `text`, with the sums of their counts. */
  ghost predicate Holds(chunks: seq<Chunk>, text: string, bytes: int, newlines: int) {
    if chunks == [] then text == "" && bytes == 0 && newlines == 0
    else
      var c := chunks[0];
      && Measured(c) && c.text <= text
      && Holds(chunks[1..], text[|c.text|..], bytes - c.bytes, newlines - c.newlines)
  }

  lemma SizesAdd(a: string, b: string)
    ensures |Encode(a + b)| == |Encode(a)| + |Encode(b)|
    ensures Newlines(Encode(a + b)) == Newlines(Encode(a)) + Newlines(Encode(b))
  {
    EncodeConcat(a, b);
    NewlinesConcat(Encode(a), Encode(b));
  }

  /** The sums are the counts of the whole. */
  lemma {:induction false} HoldsCounts(chunks: seq<Chunk>, text: string, bytes: int, newlines: int)
    requires Holds(chunks, text, bytes, newlines)
    ensures bytes == |Encode(text)| && newlines == Newlines(Encode(text)) && text == Concat(chunks)
  {
    if chunks != [] {
      var c := chunks[0];
      var rest := text[|c.text|..];
      HoldsCounts(chunks[1..], rest, bytes - c.bytes, newlines - c.newlines);
      assert text == c.text + rest;
      SizesAdd(c.text, rest);
    }
  }

  lemma {:induction false} HoldsAppend(chunks: seq<Chunk>, text: string, bytes: int, newlines: int, c: Chunk)
    requires Holds(chunks, text, bytes, newlines) && Measured(c)
    ensures Holds(chunks + [c], text + c.text, bytes + c.bytes, newlines + c.newlines)
  {
    if chunks == [] {
      HoldsOne(c);
      assert chunks + [c] == [c] && text + c.text == c.text;
    } else {
      var d := chunks[0];
      HoldsAppend(chunks[1..], text[|d.text|..], bytes - d.bytes, newlines - d.newlines, c);
      assert (chunks + [c])[1..] == chunks[1..] + [c];
      assert (text + c.text)[|d.text|..] == text[|d.text|..] + c.text;
    }
  }

  lemma HoldsOne(c: Chunk)
    requires Measured(c)
    ensures Holds([c], c.text, c.bytes, c.newlines)
  {
    assert [c][1..] == [] && c.text[|c.text|..] == "";
  }

  function Max(a: nat, b: nat): nat {
    if a < b then b else a
  }

  method CountNewlines(text: string) returns (count: nat)
    ensures count == Newlines(Encode(text))
  {
    count := 0;
    for i := 0 to |text|
      invariant count == Newlines(Encode(text[..i]))
    {
      EncodeSplit(text[..i + 1], text[..i], [text[i]]);
      EncodeOne(text[i]);
      NewlinesConcat(Encode(text[..i]), EncodeChar(text[i]));
      CharNewlines(text[i]);
      if text[i] == '\n' {
        count := count + 1;
      }
    }
    assert text[..|text|] == text;
  }

  lemma CharNewlines(c: char)
    ensures Newlines(EncodeChar(c)) == if c == '\n' then 1 else 0
    ensures EncodeChar(c)[|EncodeChar(c)| - 1] == NEWLINE <==> c == '\n'
  {
    var bs := EncodeChar(c);
    ClearCount(bs, 1, |bs|);
    assert bs[1..|bs|] == bs[1..];
  }

  lemma EncodeOne(c: char)
    ensures Encode([c]) == EncodeChar(c)
  {
    assert [c][1..] == "";
  }

  lemma EncodeLast(text: string)
    requires text != ""
    ensures Encode(text) == Encode(text[..|text| - 1]) + EncodeChar(text[|text| - 1])
  {
    EncodeOne(text[|text| - 1]);
    EncodeSplit(text, text[..|text| - 1], [text[|text| - 1]]);
  }

  lemma EndsWithNewline(text: string)
    requires text != ""
    ensures Terminated(Encode(text)) <==> text[|text| - 1] == '\n'
  {
    EncodeLast(text);
    CharNewlines(text[|text| - 1]);
  }

  // ----- The buffer's state as a value -----

  /** The fields of the buffer, with the text they stand for: what the chunks hold, and the whole stream. */
  datatype State = State(limits: Limits, chunks: seq<Chunk>, storedBytes: int, storedNewlines: int, full: bool,
                         totalBytes: int, totalNewlines: int, endsWithNewline: bool,
                         stored: string, stream: string, largest: nat)

  function Measure(text: string): Chunk {
    Chunk(text, |Encode(text)|, Newlines(Encode(text)))
  }

  ghost predicate Counted(s: State) {
    && Holds(s.chunks, s.stored, s.storedBytes, s.storedNewlines)
    && s.totalBytes == |Encode(s.stream)| && s.totalNewlines == Newlines(Encode(s.stream))
    && s.endsWithNewline == Terminated(Encode(s.stream))
  }

  ghost function ChunkBound(s: State): nat {
    Max(s.largest, s.limits.maxBytes + 4)
  }

  ghost predicate SmallChunks(s: State) {
    forall i :: 0 <= i < |s.chunks| ==> s.chunks[i].bytes <= ChunkBound(s)
  }

  /** What is stored stays small, however long the stream. */
  ghost predicate Bounded(s: State) {
    match s.limits.retain
    case Head => s.storedBytes <= s.limits.maxBytes + (if s.full then s.largest else 0)
    case Tail => SmallChunks(s) && s.storedBytes <= s.limits.maxBytes + 1 + ChunkBound(s)
  }

  ghost predicate Inv(s: State) {
    Counted(s) && Suffices(s.limits, s.stored, s.stream, s.full) && Bounded(s)
  }

  ghost function Initial(limits: Limits): State {
    State(limits, [], 0, 0, false, 0, 0, true, "", "", 0)
  }

  /** Count a chunk in the totals. */
  ghost function Count(s: State, text: string): State {
    s.(totalBytes := s.totalBytes + |Encode(text)|, totalNewlines := s.totalNewlines + Newlines(Encode(text)),
    endsWithNewline := Terminated(Encode(text)), stream := s.stream + text, largest := Max(s.largest, |Encode(text)|))
  }

  lemma CountCounted(s: State, text: string)
    requires Counted(s) && text != ""
    ensures Counted(Count(s, text))
  {
    EncodeConcat(s.stream, text);
    NewlinesConcat(Encode(s.stream), Encode(text));
  }

  /** Store a chunk at the end. */
  ghost function Append(s: State, text: string): State {
    s.(chunks := s.chunks + [Measure(text)], storedBytes := s.storedBytes + |Encode(text)|,
    storedNewlines := s.storedNewlines + Newlines(Encode(text)), stored := s.stored + text)
  }

  lemma AppendCounted(s: State, text: string)
    requires Counted(s)
    ensures Counted(Append(s, text))
  {
    HoldsAppend(s.chunks, s.stored, s.storedBytes, s.storedNewlines, Measure(text));
  }

  predicate KeepsFirst(s: State)
    requires s.chunks != []
  {
    && s.storedBytes - s.chunks[0].bytes <= s.limits.maxBytes + 1
    && s.storedNewlines - s.chunks[0].newlines <= s.limits.maxLines + 1
  }

  ghost function DropFirst(s: State): State
    requires s.chunks != []
  {
    var c := s.chunks[0];
    s.(chunks := s.chunks[1..], storedBytes := s.storedBytes - c.bytes,
    storedNewlines := s.storedNewlines - c.newlines,
    stored := if |c.text| <= |s.stored| then s.stored[|c.text|..] else "")
  }

  /** `#accept`'s loop: the first chunk goes as long as what remains without it still exceeds the window. */
  ghost function Drop(s: State): State
    decreases |s.chunks|
  {
    if |s.chunks| <= 1 || KeepsFirst(s) then s else Drop(DropFirst(s))
  }

  lemma DropFirstCounted(s: State)
    requires s.chunks != [] && Counted(s)
    ensures Counted(DropFirst(s))
    ensures HasSuffix(s.stored, DropFirst(s).stored)
  {
  }

  lemma DropFirstSuffices(s: State)
    requires s.limits.retain.Tail? && |s.chunks| > 1 && !KeepsFirst(s)
    requires Suffices(s.limits, s.stored, s.stream, s.full)
    requires Holds(DropFirst(s).chunks, DropFirst(s).stored, DropFirst(s).storedBytes, DropFirst(s).storedNewlines)
    requires HasSuffix(s.stored, DropFirst(s).stored)
    ensures Suffices(s.limits, DropFirst(s).stored, s.stream, s.full)
  {
    var t := DropFirst(s);
    HoldsCounts(t.chunks, t.stored, t.storedBytes, t.storedNewlines);
    SufficesSuffix(s.limits, s.stored, s.stream, t.stored);
  }

  lemma DropFirstSmall(s: State)
    requires s.chunks != [] && SmallChunks(s)
    ensures SmallChunks(DropFirst(s))
  {
  }

  lemma DropStops(s: State)
    requires s.limits.retain.Tail? && s.chunks != [] && (|s.chunks| <= 1 || KeepsFirst(s))
    requires Counted(s) && SmallChunks(s)
    ensures Bounded(s)
  {
    var c := s.chunks[0];
    assert c.bytes <= ChunkBound(s);
    assert |s.chunks| == 1 ==> s.chunks[1..] == [];
    assert Holds(s.chunks[1..], s.stored[|c.text|..], s.storedBytes - c.bytes, s.storedNewlines - c.newlines);
  }

  lemma {:induction false} DropInv(s: State)
    requires s.limits.retain.Tail? && s.chunks != []
    requires Counted(s) && Suffices(s.limits, s.stored, s.stream, s.full) && SmallChunks(s)
    ensures Inv(Drop(s)) && Drop(s).stream == s.stream && Drop(s).limits == s.limits
    decreases |s.chunks|
  {
    if |s.chunks| <= 1 || KeepsFirst(s) {
      DropStops(s);
    } else {
      DropFirstCounted(s);
      DropFirstSuffices(s);
      DropFirstSmall(s);
      DropInv(DropFirst(s));
    }
  }

  /** `#accept`. */
  ghost function Accept(s: State, text: string): State {
    if text == "" then s
    else if s.full then Count(s, text)
    else
      var t := Append(Count(s, text), text);
      if t.limits.retain.Head? then
        t.(full := t.storedBytes > t.limits.maxBytes || t.storedNewlines >= t.limits.maxLines)
      else Drop(t)
  }

  lemma AcceptFull(s: State, text: string)
    requires Inv(s) && s.full && text != ""
    ensures Inv(Accept(s, text))
  {
    CountCounted(s, text);
    assert s.stored <= s.stream + text;
  }

  lemma AcceptHead(s: State, text: string)
    requires Inv(s) && !s.full && text != "" && s.limits.retain.Head?
    ensures Inv(Accept(s, text))
  {
    var t := Append(Count(s, text), text);
    CountCounted(s, text);
    AppendCounted(Count(s, text), text);
    HoldsCounts(t.chunks, t.stored, t.storedBytes, t.storedNewlines);
  }

  lemma AcceptTail(s: State, text: string)
    requires Counted(s) && text != "" && s.limits.retain.Tail? && SmallChunks(s) && !s.full
    requires Suffices(s.limits, s.stored + text, s.stream + text, false)
    ensures Inv(Accept(s, text)) && Accept(s, text).stream == s.stream + text
    ensures Accept(s, text).limits == s.limits
  {
    var t := Append(Count(s, text), text);
    CountCounted(s, text);
    AppendCounted(Count(s, text), text);
    assert SmallChunks(t);
    DropInv(t);
  }

  /** Accepting a chunk keeps the invariant and adds it to the stream. */
  lemma AcceptInv(s: State, text: string)
    requires Inv(s)
    ensures Inv(Accept(s, text)) && Accept(s, text).stream == s.stream + text
    ensures Accept(s, text).limits == s.limits
  {
    if text == "" {
      assert s.stream == s.stream + text;
    } else if s.full {
      AcceptFull(s, text);
    } else {
      SufficesAppend(s.limits, s.stored, s.stream, text);
      if s.limits.retain.Head? {
        AcceptHead(s, text);
      } else {
        AcceptTail(s, text);
      }
    }
  }

  /** `#skip`: count omitted output and forget what is stored. */
  ghost function SkipOver(s: State, omitted: string): State {
    if omitted == "" then s
    else Count(s, omitted).(chunks := [], storedBytes := 0, storedNewlines := 0, stored := "", largest := s.largest)
  }

  /** A skip and a chunk that exceeds the window by itself keep the invariant. */
  lemma SkipInv(s: State, omitted: string, text: string)
    requires Inv(s) && s.limits.retain.Tail?
    requires omitted != "" ==> Exceeds(Encode(text), s.limits)
    ensures Inv(Accept(SkipOver(s, omitted), text))
    ensures Accept(SkipOver(s, omitted), text).stream == s.stream + omitted + text
  {
    var t := SkipOver(s, omitted);
    if omitted == "" {
      assert s.stream + omitted == s.stream;
      AcceptInv(s, text);
    } else {
      CountCounted(s, omitted);
      assert text != "";
      assert "" + text == text && HasSuffix(t.stream + text, text);
      AcceptTail(t, text);
    }
  }

  /** Store one chunk instead. */
  ghost function Trim(s: State, text: string): State {
    s.(chunks := if text == "" then [] else [Measure(text)], storedBytes := |Encode(text)|,
    storedNewlines := Newlines(Encode(text)), stored := text)
  }

  lemma TrimCounted(s: State, text: string)
    requires Counted(s)
    ensures Counted(Trim(s, text))
  {
    HoldsOne(Measure(text));
  }

  lemma TrimBounded(s: State, text: string)
    requires Counted(s) && Bounded(s)
    requires s.limits.retain.Head? ==> text == s.stored
    requires s.limits.retain.Tail? ==> |Encode(text)| <= s.limits.maxBytes + 4
    ensures Bounded(Trim(s, text))
  {
    if s.limits.retain.Head? {
      HoldsCounts(s.chunks, s.stored, s.storedBytes, s.storedNewlines);
    }
  }

  lemma TrimInv(s: State, text: string)
    requires Inv(s) && Suffices(s.limits, text, s.stream, s.full)
    requires s.limits.retain.Head? ==> text == s.stored
    requires s.limits.retain.Tail? ==> |Encode(text)| <= s.limits.maxBytes + 4
    ensures Inv(Trim(s, text))
  {
    TrimCounted(s, text);
    TrimBounded(s, text);
  }

  /** `push` of decoded text, without and with a skip. */
  ghost function PushOn(s: State, pending: string, text: string, skipped: Option<string>): State {
    if skipped.None? then Accept(s, pending + text)
    else if s.limits.retain.Head? then s
    else Accept(SkipOver(Accept(s, pending), skipped.value), text)
  }

  /** What `snapshot` leaves stored. */
  ghost function Shot(s: State): State {
    if s.limits.retain.Tail? then Trim(s, Margin(s.stored, s.limits))
    else if |s.chunks| > 1 then Trim(s, s.stored)
    else s
  }

  // ----- The buffer -----

  class OutputBuffer {
    const limits: Limits
    var chunks: seq<Chunk>
    var storedBytes: int
    var storedNewlines: int
    var full: bool
    var totalBytes: int
    var totalNewlines: int
    var endsWithNewline: bool
    /** What the chunks hold. */
    ghost var stored: string
    /** Everything accepted or skipped. */
    ghost var stream: string
    /** Byte length of the largest chunk accepted. */
    ghost var largest: nat

    ghost function View(): State
      reads this
    {
      State(limits, chunks, storedBytes, storedNewlines, full, totalBytes, totalNewlines, endsWithNewline,
            stored, stream, largest)
    }

    ghost predicate Valid()
      reads this
    {
      Inv(View())
    }

    constructor (limits: Limits)
      ensures Valid() && View() == Initial(limits)
    {
      this.limits := limits;
      chunks, storedBytes, storedNewlines, full := [], 0, 0, false;
      totalBytes, totalNewlines, endsWithNewline := 0, 0, true;
      stored, stream, largest := "", "", 0;
    }

    /**
     `push` of decoded text: `pending` completes an earlier byte chunk, `text` is the chunk. `skip` counts `omitted`,
     which its producer dropped between the two; `text` alone then exceeds the window. A skip is for tail retention
     only. For head the source throws: nothing is accepted, not even `pending`, which the decoder has given up by
     then, so that text is lost.
     */
    method Push(pending: string, text: string, skip: Option<Skip>, ghost omitted: string)
      returns (accepted: Option<bool>)
      requires Valid()
      requires skip.None? ==> omitted == ""
      requires skip.Some? ==> Counts(skip.value, omitted) && (omitted != "" ==> Exceeds(Encode(text), limits))
      modifies this
      ensures Valid()
      ensures accepted.None? <==> skip.Some? && limits.retain.Head?
      ensures View() == PushOn(old(View()), pending, text, if skip.None? then None else Some(omitted))
      ensures accepted.Some? ==> stream == old(stream) + pending + omitted + text
      ensures accepted.Some? ==> accepted.value == (skip.Some? || pending + text != "")
    {
      if skip.None? {
        AcceptInv(View(), pending + text);
        var any := AcceptText(pending + text);
        PlainPush(old(stream), pending, text);
        return Some(any);
      }
      if limits.retain.Head? {
        return None;
      }
      PushSkipped(pending, text, skip.value, omitted);
      return Some(true);
    }

    method PushSkipped(pending: string, text: string, skip: Skip, ghost omitted: string)
      requires Valid() && limits.retain.Tail?
      requires Counts(skip, omitted) && (omitted != "" ==> Exceeds(Encode(text), limits))
      modifies this
      ensures Valid() && stream == old(stream) + pending + omitted + text
      ensures View() == PushOn(old(View()), pending, text, Some(omitted))
    {
      AcceptInv(View(), pending);
      var _ := AcceptText(pending);
      SkipInv(View(), omitted, text);
      SkipOutput(skip, omitted);
      var _ := AcceptText(text);
    }

    method SkipOutput(skip: Skip, ghost omitted: string)
      requires Counts(skip, omitted)
      modifies this
      ensures View() == SkipOver(old(View()), omitted)
    {
      if skip.bytes == 0 {
        return;
      }
      totalBytes := totalBytes + skip.bytes;
      totalNewlines := totalNewlines + skip.newlines;
      endsWithNewline := skip.endsWithNewline;
      chunks, storedBytes, storedNewlines := [], 0, 0;
      stream, stored := stream + omitted, "";
    }

    method AcceptText(text: string) returns (any: bool)
      modifies this
      ensures View() == Accept(old(View()), text) && any == (text != "")
    {
      if |text| == 0 {
        return false;
      }
      var c := CountChunk(text);
      if full {
        return true;
      }
      AppendChunk(c);
      if limits.retain.Head? {
        full := storedBytes > limits.maxBytes || storedNewlines >= limits.maxLines;
        return true;
      }
      DropLeading();
      return true;
    }

    method CountChunk(text: string) returns (c: Chunk)
      requires text != ""
      modifies this
      ensures c == Measure(text) && View() == Count(old(View()), text)
    {
      var newlines := CountNewlines(text);
      c := Chunk(text, |Encode(text)|, newlines);
      EndsWithNewline(text);
      totalBytes := totalBytes + c.bytes;
      totalNewlines := totalNewlines + c.newlines;
      endsWithNewline := text[|text| - 1] == '\n';
      stream, largest := stream + text, Max(largest, c.bytes);
    }

    method AppendChunk(c: Chunk)
      requires c == Measure(c.text)
      modifies this
      ensures View() == Append(old(View()), c.text)
    {
      chunks := chunks + [c];
      storedBytes := storedBytes + c.bytes;
      storedNewlines := storedNewlines + c.newlines;
      stored := stored + c.text;
    }

    method DropLeading()
      modifies this
      ensures View() == Drop(old(View()))
    {
      while |chunks| > 1
        invariant Drop(View()) == Drop(old(View()))
        decreases |chunks|
      {
        var first := chunks[0];
        var bytesAfter := storedBytes - first.bytes;
        var newlinesAfter := storedNewlines - first.newlines;
        if bytesAfter <= limits.maxBytes + 1 && newlinesAfter <= limits.maxLines + 1 {
          break;
        }
        ghost var next := DropFirst(View());
        chunks := chunks[1..];
        storedBytes := bytesAfter;
        storedNewlines := newlinesAfter;
        stored := next.stored;
        assert View() == next;
      }
    }

    /**
     `snapshot`, before sanitizing: exactly what bounding the whole stream yields, although only a fragment is
     stored and the snapshot trims it further.
     */
    method Snapshot() returns (slice: Slice)
      requires Valid()
      modifies this
      ensures Valid() && stream == old(stream)
      ensures IsBounded(stream, limits, slice)
      ensures View() == Shot(old(View()))
      ensures limits.retain.Tail? ==> storedBytes <= limits.maxBytes + 4
    {
      var text := Join();
      SnapshotCounts(View());
      slice := Kept(text);
      if limits.retain.Tail? {
        var margin := TailMargin(text, limits);
        MarginUnique(text, limits, margin);
        SufficesSuffix(limits, stored, stream, margin);
        TrimInv(View(), margin);
        StoreOnly(margin);
      } else if |chunks| > 1 {
        TrimInv(View(), text);
        StoreOnly(text);
      }
    }

    /** The window of the stored text, with what is dropped counted on the whole stream. */
    method Kept(text: string) returns (slice: Slice)
      requires Valid() && text == stored
      ensures IsBounded(stream, limits, slice)
    {
      var kept := BoundOutput(text, limits);
      var storedLines := LinesOf(storedNewlines, text == "" || text[|text| - 1] == '\n');
      var keptLines := storedLines - kept.droppedLines;
      slice := Slice(kept.text, kept.bytes, totalBytes - kept.bytes,
                     LinesOf(totalNewlines, endsWithNewline) - keptLines);
      KeptOfStream(View(), kept, slice);
    }

    /** The stored chunks as one text. */
    method Join() returns (text: string)
      ensures text == Concat(chunks)
    {
      text := "";
      for i := 0 to |chunks|
        invariant text == Concat(chunks[..i])
      {
        assert chunks[..i + 1] == chunks[..i] + [chunks[i]];
        ConcatAppend(chunks[..i], chunks[i]);
        text := text + chunks[i].text;
      }
      assert chunks[..|chunks|] == chunks;
    }

    method StoreOnly(text: string)
      modifies this
      ensures View() == Trim(old(View()), text)
    {
      var newlines := CountNewlines(text);
      var bytes := |Encode(text)|;
      chunks := if text == "" then [] else [Chunk(text, bytes, newlines)];
      storedBytes := bytes;
      storedNewlines := newlines;
      stored := text;
    }
  }

  lemma PlainPush(stream: string, pending: string, text: string)
    ensures stream + (pending + text) == stream + pending + "" + text
  {
  }

  /** `skip` measures `omitted`. */
  ghost predicate Counts(skip: Skip, omitted: string) {
    && skip.bytes == |Encode(omitted)| && skip.newlines == Newlines(Encode(omitted))
    && (omitted != "" ==> skip.endsWithNewline == Terminated(Encode(omitted)))
  }

  function LinesOf(newlines: int, terminated: bool): int {
    newlines + (if terminated then 0 else 1)
  }

  lemma SnapshotCounts(s: State)
    requires Inv(s)
    ensures s.stored == Concat(s.chunks)
    ensures LinesOf(s.storedNewlines, s.stored == "" || s.stored[|s.stored| - 1] == '\n') == Lines(Encode(s.stored))
    ensures s.totalBytes == |Encode(s.stream)|
    ensures LinesOf(s.totalNewlines, s.endsWithNewline) == Lines(Encode(s.stream))
  {
    HoldsCounts(s.chunks, s.stored, s.storedBytes, s.storedNewlines);
    if s.stored != "" {
      EndsWithNewline(s.stored);
    }
  }

  /** The snapshot's arithmetic: the slice of what is stored becomes a slice of the stream. */
  lemma KeptOfStream(s: State, kept: Slice, slice: Slice)
    requires Inv(s) && IsBounded(s.stored, s.limits, kept)
    requires slice.text == kept.text && slice.bytes == kept.bytes
    requires slice.droppedBytes == s.totalBytes - kept.bytes
    requires slice.droppedLines ==
               LinesOf(s.totalNewlines, s.endsWithNewline)
               - (LinesOf(s.storedNewlines, s.stored == "" || s.stored[|s.stored| - 1] == '\n') - kept.droppedLines)
    ensures IsBounded(s.stream, s.limits, slice)
  {
    SnapshotCounts(s);
    FragmentRefines(s.limits, s.stored, s.stream, s.full, kept);
    assert slice == OnStream(kept, Encode(s.stored), Encode(s.stream));
  }
}
