/**
 `boundOutput` of packages/chord/src/output.ts: a head or tail window of encoded text. The windows are specified
 by what they are (`IsHeadEnd`, `IsTailStart`); the range methods compute them with the source's scans.
 */
module OutputBounds {
  import opened Utf8

  datatype Retain = Head | Tail

  datatype Limits = Limits(maxBytes: nat, maxLines: nat, retain: Retain)

  datatype Slice = Slice(text: string, bytes: nat, droppedBytes: int, droppedLines: int)

  // ----- Lines -----

  function Newlines(bs: seq<Byte>): nat {
    if bs == [] then 0 else (if bs[0] == NEWLINE then 1 else 0) + Newlines(bs[1..])
  }

  predicate Terminated(bs: seq<Byte>) {
    bs == [] || bs[|bs| - 1] == NEWLINE
  }

  /** Newlines, and one more for text after the last of them. */
  function Lines(bs: seq<Byte>): nat {
    Newlines(bs) + (if Terminated(bs) then 0 else 1)
  }

  lemma {:induction false} NewlinesConcat(a: seq<Byte>, b: seq<Byte>)
    ensures Newlines(a + b) == Newlines(a) + Newlines(b)
  {
    if a == [] {
      assert a + b == b;
    } else {
      NewlinesConcat(a[1..], b);
      assert (a + b)[1..] == a[1..] + b;
    }
  }

  lemma NewlinesSplit(bs: seq<Byte>, i: nat)
    requires i <= |bs|
    ensures Newlines(bs) == Newlines(bs[..i]) + Newlines(bs[i..])
  {
    NewlinesConcat(bs[..i], bs[i..]);
    assert bs == bs[..i] + bs[i..];
  }

  /** No newline from `i` up to `j`. */
  ghost predicate Clear(bs: seq<Byte>, i: int, j: int)
    requires 0 <= i && j <= |bs|
  {
    forall k :: i <= k < j ==> bs[k] != NEWLINE
  }

  lemma {:induction false} ClearCount(bs: seq<Byte>, i: nat, j: nat)
    requires i <= j <= |bs| && Clear(bs, i, j)
    ensures Newlines(bs[i..j]) == 0
    decreases j - i
  {
    if i < j {
      ClearCount(bs, i + 1, j);
      assert bs[i..j][1..] == bs[i + 1..j];
    }
  }

  /** A newline at `i` is counted between its two sides. */
  lemma NewlineAt(bs: seq<Byte>, i: nat)
    requires i < |bs| && bs[i] == NEWLINE
    ensures Newlines(bs[i..]) == 1 + Newlines(bs[i + 1..])
    ensures Newlines(bs[..i + 1]) == Newlines(bs[..i]) + 1
  {
    assert bs[i..][1..] == bs[i + 1..];
    NewlinesConcat(bs[..i], [NEWLINE]);
    assert bs[..i + 1] == bs[..i] + [NEWLINE];
  }

  /** A suffix has no more lines than a longer one, and a newline between their starts makes it fewer. */
  lemma SuffixLines(bs: seq<Byte>, i: nat, j: nat)
    requires i <= j < |bs|
    ensures Lines(bs[j..]) <= Lines(bs[i..])
    ensures !Clear(bs, i, j) ==> Lines(bs[j..]) < Lines(bs[i..])
  {
    NewlinesSplit(bs[i..], j - i);
    assert bs[i..][j - i..] == bs[j..];
    if k :| i <= k < j && bs[k] == NEWLINE {
      assert bs[i..][..j - i] == bs[i..j];
      NewlineAt(bs[i..j], k - i);
      NewlinesSplit(bs[i..j], k - i);
    }
  }

  // ----- Tail windows -----

  ghost predicate LineStart(bs: seq<Byte>, i: int) {
    i == 0 || (0 < i < |bs| && bs[i - 1] == NEWLINE)
  }

  /** The whole lines from `i` on are within the limits. */
  ghost predicate TailFits(bs: seq<Byte>, limits: Limits, i: int) {
    LineStart(bs, i) && |bs| - i <= limits.maxBytes && Lines(bs[i..]) <= limits.maxLines
  }

  ghost predicate FirstBoundary(bs: seq<Byte>, from: int, i: int) {
    from <= i && Boundary(bs, i) && forall j :: from <= j < i ==> !Boundary(bs, j)
  }

  /**
   The tail window starts at the first line from which everything fits; when not even the last line fits, at the
   first character inside the byte limit.
   */
  ghost predicate IsTailStart(bs: seq<Byte>, limits: Limits, start: int) {
    if limits.maxLines == 0 || limits.maxBytes == 0 then start == |bs|
    else if exists i :: TailFits(bs, limits, i) then
      TailFits(bs, limits, start) && forall i :: TailFits(bs, limits, i) ==> start <= i
    else |bs| > limits.maxBytes && FirstBoundary(bs, |bs| - limits.maxBytes, start)
  }

  // ----- Head windows -----

  ghost predicate LineEnd(bs: seq<Byte>, i: int) {
    i == |bs| || (0 < i < |bs| && bs[i - 1] == NEWLINE)
  }

  /** The whole lines before `i` are within the limits. */
  ghost predicate HeadFits(bs: seq<Byte>, limits: Limits, i: int) {
    LineEnd(bs, i) && i <= limits.maxBytes && Lines(bs[..i]) <= limits.maxLines
  }

  ghost predicate LastBoundary(bs: seq<Byte>, to: int, i: int) {
    i <= to && Boundary(bs, i) && forall j :: i < j <= to ==> !Boundary(bs, j)
  }

  ghost predicate IsHeadEnd(bs: seq<Byte>, limits: Limits, end: int) {
    if limits.maxLines == 0 || limits.maxBytes == 0 then end == 0
    else if exists i :: HeadFits(bs, limits, i) then
      HeadFits(bs, limits, end) && forall i :: HeadFits(bs, limits, i) ==> i <= end
    else |bs| > limits.maxBytes && LastBoundary(bs, limits.maxBytes, end)
  }

  // ----- Bounded output -----

  ghost predicate IsWindow(bs: seq<Byte>, limits: Limits, from: int, to: int) {
    0 <= from <= to <= |bs| &&
    match limits.retain
    case Head => from == 0 && IsHeadEnd(bs, limits, to)
    case Tail => to == |bs| && IsTailStart(bs, limits, from)
  }

  /** What bounding the whole of `text` must yield; at most one slice satisfies it. */
  ghost predicate IsBounded(text: string, limits: Limits, slice: Slice) {
    IsBoundedBytes(Encode(text), limits, slice)
  }

  ghost predicate IsBoundedBytes(bs: seq<Byte>, limits: Limits, slice: Slice) {
    exists from, to :: IsWindow(bs, limits, from, to) && IsSlice(bs, from, to, slice)
  }

  ghost predicate IsSlice(bs: seq<Byte>, from: int, to: int, slice: Slice)
    requires 0 <= from <= to <= |bs|
  {
    var kept := bs[from..to];
    && Encode(slice.text) == kept
    && slice.bytes == |kept|
    && slice.droppedBytes == |bs| - |kept|
    && slice.droppedLines == Lines(bs) - Lines(kept)
  }

  lemma WindowUnique(bs: seq<Byte>, limits: Limits, f1: int, t1: int, f2: int, t2: int)
    requires IsWindow(bs, limits, f1, t1) && IsWindow(bs, limits, f2, t2)
    ensures f1 == f2 && t1 == t2
  {
    if limits.maxLines > 0 && limits.maxBytes > 0 {
      if limits.retain.Tail? {
        assert (exists i :: TailFits(bs, limits, i)) || (Boundary(bs, f1) && Boundary(bs, f2));
      } else {
        assert (exists i :: HeadFits(bs, limits, i)) || (Boundary(bs, t1) && Boundary(bs, t2));
      }
    }
  }

  lemma BoundedUnique(text: string, limits: Limits, a: Slice, b: Slice)
    requires IsBounded(text, limits, a) && IsBounded(text, limits, b)
    ensures a == b
  {
    var bs := Encode(text);
    var f1, t1 :| IsWindow(bs, limits, f1, t1) && IsSlice(bs, f1, t1, a);
    var f2, t2 :| IsWindow(bs, limits, f2, t2) && IsSlice(bs, f2, t2, b);
    WindowUnique(bs, limits, f1, t1, f2, t2);
    EncodeInjective(a.text, b.text);
  }

  /** Windows lie on character boundaries. */
  lemma WindowOnBoundaries(text: string, limits: Limits, from: int, to: int)
    requires IsWindow(Encode(text), limits, from, to)
    ensures Boundary(Encode(text), from) && Boundary(Encode(text), to)
  {
    var bs := Encode(text);
    if 0 < from < |bs| && bs[from - 1] == NEWLINE {
      NewlineIsWhole(text, from - 1);
    }
    if 0 < to < |bs| && bs[to - 1] == NEWLINE {
      NewlineIsWhole(text, to - 1);
    }
  }

  lemma LastLine(bs: seq<Byte>, i: nat)
    requires i < |bs| && Clear(bs, i, |bs| - 1)
    ensures Lines(bs[i..]) == 1
  {
    assert bs[i..] == bs[i..|bs| - 1] + [bs[|bs| - 1]];
    NewlinesConcat(bs[i..|bs| - 1], [bs[|bs| - 1]]);
    ClearCount(bs, i, |bs| - 1);
  }

  /** A cut last line has no newline but a final one. */
  lemma CutLastLine(bs: seq<Byte>, limits: Limits, start: nat)
    requires limits.maxLines > 0 && limits.maxBytes > 0
    requires |bs| > limits.maxBytes && |bs| - limits.maxBytes <= start <= |bs|
    requires !exists i :: TailFits(bs, limits, i)
    ensures Lines(bs[start..]) <= 1
  {
    if i :| start <= i < |bs| - 1 && bs[i] == NEWLINE {
      LastLineFits(bs, limits, i + 1);
      assert false;
    }
    if start < |bs| {
      LastLine(bs, start);
    }
  }

  /** From any line start inside the byte limit, some line start fits. */
  lemma LastLineFits(bs: seq<Byte>, limits: Limits, i: nat)
    requires limits.maxLines > 0
    requires 0 < i < |bs| && bs[i - 1] == NEWLINE && |bs| - i <= limits.maxBytes
    ensures exists j :: i <= j && TailFits(bs, limits, j)
    decreases |bs| - i
  {
    if k :| i <= k < |bs| - 1 && bs[k] == NEWLINE {
      LastLineFits(bs, limits, k + 1);
    } else {
      LastLine(bs, i);
      assert TailFits(bs, limits, i);
    }
  }

  /** A cut first line has no newline at all. */
  lemma CutFirstLine(bs: seq<Byte>, limits: Limits, end: nat)
    requires limits.maxLines > 0 && end <= limits.maxBytes < |bs|
    requires !exists i :: HeadFits(bs, limits, i)
    ensures Clear(bs, 0, end)
  {
    if i :| 0 <= i < end && bs[i] == NEWLINE && Clear(bs, 0, i) {
      ClearCount(bs, 0, i);
      assert bs[0..i] == bs[..i];
      NewlineAt(bs, i);
      assert HeadFits(bs, limits, i + 1);
      assert false;
    }
    assert forall i :: 0 <= i <= end ==> Clear(bs, 0, i) by {
      var i := 0;
      while i < end
        invariant i <= end && forall j :: 0 <= j <= i ==> Clear(bs, 0, j)
      {
        i := i + 1;
      }
    }
  }

  /**
   Every window is within both limits, and it cuts inside a line only when no whole line at that end of the text
   fits.
   */
  lemma WindowQuality(bs: seq<Byte>, limits: Limits, from: int, to: int)
    requires IsWindow(bs, limits, from, to)
    ensures to - from <= limits.maxBytes
    ensures Lines(bs[from..to]) <= limits.maxLines
    ensures limits.retain.Tail? && limits.maxLines > 0 && limits.maxBytes > 0 && !LineStart(bs, from) ==>
              forall i :: !TailFits(bs, limits, i)
    ensures limits.retain.Head? && limits.maxLines > 0 && limits.maxBytes > 0 && !LineEnd(bs, to) ==>
              forall i :: !HeadFits(bs, limits, i)
  {
    if limits.maxLines == 0 || limits.maxBytes == 0 {
      assert bs[from..to] == [];
    } else if limits.retain.Tail? {
      assert bs[from..to] == bs[from..];
      if !exists i :: TailFits(bs, limits, i) {
        CutLastLine(bs, limits, from);
      }
    } else {
      assert bs[from..to] == bs[..to];
      if !exists i :: HeadFits(bs, limits, i) {
        CutFirstLine(bs, limits, to);
        ClearCount(bs, 0, to);
        assert bs[0..to] == bs[..to];
      }
    }
  }

  /** Lines are newlines, the byte 10, and one more for text after the last of them. */
  lemma {:induction false} LinesAre(bs: seq<Byte>)
    ensures Newlines(bs) == multiset(bs)[10]
    ensures Lines(bs) == multiset(bs)[10] + (if bs == [] || bs[|bs| - 1] == 10 then 0 else 1)
  {
    if bs != [] {
      LinesAre(bs[1..]);
      assert bs == [bs[0]] + bs[1..];
    }
  }

  /** The bytes from `i` on, or up to `i`, are whole lines within the limits. */
  ghost predicate LinesWithin(bs: seq<Byte>, limits: Limits, i: nat)
    requires i <= |bs|
  {
    match limits.retain
    case Tail =>
      && (i == 0 || (i < |bs| && bs[i - 1] == 10)) && |bs| - i <= limits.maxBytes
      && multiset(bs[i..])[10] + (if i == |bs| || bs[|bs| - 1] == 10 then 0 else 1) <= limits.maxLines
    case Head =>
      && (i == |bs| || (i > 0 && bs[i - 1] == 10)) && i <= limits.maxBytes
      && multiset(bs[..i])[10] + (if i == 0 || bs[i - 1] == 10 then 0 else 1) <= limits.maxLines
  }

  lemma LinesWithinFits(bs: seq<Byte>, limits: Limits, i: nat)
    requires i <= |bs|
    ensures LinesWithin(bs, limits, i) <==> if limits.retain.Tail? then TailFits(bs, limits, i) else HeadFits(bs, limits, i)
  {
    LinesAre(bs[i..]);
    LinesAre(bs[..i]);
  }

  /** A window that cuts inside a line falls short of the byte limit by less than a character. */
  lemma CutIsNear(text: string, limits: Limits, from: int, to: int)
    requires IsWindow(Encode(text), limits, from, to) && limits.maxLines > 0 && limits.maxBytes > 0
    requires if limits.retain.Tail? then forall k :: !TailFits(Encode(text), limits, k)
             else forall k :: !HeadFits(Encode(text), limits, k)
    ensures limits.maxBytes - 4 < to - from <= limits.maxBytes < |Encode(text)|
  {
    var bs := Encode(text);
    if limits.retain.Tail? {
      var cut := |bs| - limits.maxBytes;
      BoundaryNear(text, if cut + 3 <= |bs| then cut + 3 else |bs|);
    } else {
      BoundaryNear(text, limits.maxBytes);
    }
  }

  /**
   A window is the longest there is: of all stretches of whole lines within the limits, at the end of the text that is
   kept, none is longer; and where none fits, the window falls short of the byte limit by less than a character.
   */
  lemma WindowLongest(text: string, limits: Limits, from: int, to: int, i: nat)
    requires IsWindow(Encode(text), limits, from, to) && limits.maxLines > 0 && limits.maxBytes > 0
    requires i <= |Encode(text)|
    ensures if limits.retain.Tail? then to == |Encode(text)| else from == 0
    ensures LinesWithin(Encode(text), limits, i) ==>
              && LinesWithin(Encode(text), limits, if limits.retain.Tail? then from else to)
              && if limits.retain.Tail? then from <= i else i <= to
    ensures (forall k: nat :: k <= |Encode(text)| ==> !LinesWithin(Encode(text), limits, k)) ==>
              limits.maxBytes - 4 < to - from <= limits.maxBytes < |Encode(text)|
  {
    var bs := Encode(text);
    LinesWithinFits(bs, limits, i);
    LinesWithinFits(bs, limits, if limits.retain.Tail? then from else to);
    if forall k: nat :: k <= |bs| ==> !LinesWithin(bs, limits, k) {
      forall k | 0 <= k <= |bs|
        ensures if limits.retain.Tail? then !TailFits(bs, limits, k) else !HeadFits(bs, limits, k)
      {
        LinesWithinFits(bs, limits, k);
      }
      CutIsNear(text, limits, from, to);
    }
  }

  // ----- Scans -----

  /** `bytes.indexOf(NEWLINE, from)` */
  method IndexOf(bs: seq<Byte>, from: nat) returns (i: int)
    requires from <= |bs|
    ensures i == -1 ==> Clear(bs, from, |bs|)
    ensures i != -1 ==> from <= i < |bs| && bs[i] == NEWLINE && Clear(bs, from, i)
  {
    i := from;
    while i < |bs|
      invariant from <= i <= |bs|
      invariant Clear(bs, from, i)
    {
      if bs[i] == NEWLINE {
        return;
      }
      i := i + 1;
    }
    i := -1;
  }

  /** `bytes.lastIndexOf(NEWLINE, end - 1)` */
  method LastIndexOf(bs: seq<Byte>, end: nat) returns (i: int)
    requires end <= |bs|
    ensures i == -1 ==> Clear(bs, 0, end)
    ensures i != -1 ==> 0 <= i < end && bs[i] == NEWLINE && Clear(bs, i + 1, end)
  {
    i := end - 1;
    while i >= 0
      invariant -1 <= i < end
      invariant Clear(bs, i + 1, end)
    {
      if bs[i] == NEWLINE {
        return;
      }
      i := i - 1;
    }
  }

  /** `characterEnd`: no boundary lies between the result and `index`. */
  method CharacterEnd(bs: seq<Byte>, index: nat) returns (end: nat)
    requires index < |bs|
    ensures LastBoundary(bs, index, end)
  {
    end := index;
    while end > 0 && IsContinuation(bs[end])
      invariant end <= index
      invariant forall j :: end < j <= index ==> !Boundary(bs, j)
    {
      end := end - 1;
    }
  }

  /** `characterStart`: no boundary lies between `index` and the result. */
  method CharacterStart(bs: seq<Byte>, index: nat) returns (start: nat)
    requires 0 < index <= |bs|
    ensures FirstBoundary(bs, index, start)
  {
    start := index;
    while start < |bs| && IsContinuation(bs[start])
      invariant index <= start <= |bs|
      invariant forall j :: index <= j < start ==> !Boundary(bs, j)
    {
      start := start + 1;
    }
  }

  /** The first newline after `seen` adds one to the count. */
  lemma NextNewline(bs: seq<Byte>, seen: nat, index: nat)
    requires seen <= index < |bs| && bs[index] == NEWLINE && Clear(bs, seen, index)
    ensures Newlines(bs[..index + 1]) == Newlines(bs[..seen]) + 1
  {
    NewlinesSplit(bs[..index], seen);
    assert bs[..index][..seen] == bs[..seen] && bs[..index][seen..] == bs[seen..index];
    ClearCount(bs, seen, index);
    NewlineAt(bs, index);
  }

  method LineCount(bs: seq<Byte>) returns (count: nat)
    ensures count == Lines(bs)
  {
    if bs == [] {
      return 0;
    }
    var newlines := 0;
    var index := IndexOf(bs, 0);
    ghost var seen: nat := 0;
    while index != -1
      invariant seen <= |bs| && newlines == Newlines(bs[..seen])
      invariant index == -1 ==> Clear(bs, seen, |bs|)
      invariant index != -1 ==> seen <= index < |bs| && bs[index] == NEWLINE && Clear(bs, seen, index)
      decreases |bs| - seen, index != -1
    {
      NextNewline(bs, seen, index);
      newlines := newlines + 1;
      seen := index + 1;
      index := IndexOf(bs, index + 1);
    }
    NewlinesSplit(bs, seen);
    ClearCount(bs, seen, |bs|);
    assert bs[seen..|bs|] == bs[seen..];
    return newlines + if bs[|bs| - 1] == NEWLINE then 0 else 1;
  }

  // ----- Ranges -----

  /** The end of the `maxLines`-th line, or of everything. */
  method HeadLines(bs: seq<Byte>, limits: Limits) returns (end: nat)
    requires limits.maxLines > 0
    ensures LineEnd(bs, end) && Lines(bs[..end]) <= limits.maxLines
    ensures end < |bs| ==> Newlines(bs[..end]) == limits.maxLines
  {
    end := |bs|;
    var lines := 0;
    var index := IndexOf(bs, 0);
    ghost var seen: nat := 0;
    while index != -1
      invariant seen <= |bs| && lines == Newlines(bs[..seen]) < limits.maxLines
      invariant end == |bs|
      invariant index == -1 ==> Clear(bs, seen, |bs|)
      invariant index != -1 ==> seen <= index < |bs| && bs[index] == NEWLINE && Clear(bs, seen, index)
      decreases |bs| - seen, index != -1
    {
      NextNewline(bs, seen, index);
      lines := lines + 1;
      if lines == limits.maxLines {
        end := index + 1;
        return;
      }
      seen := index + 1;
      index := IndexOf(bs, index + 1);
    }
    NewlinesSplit(bs, seen);
    ClearCount(bs, seen, |bs|);
    assert bs[seen..|bs|] == bs[seen..];
    assert bs[..end] == bs;
  }

  method HeadRange(bs: seq<Byte>, limits: Limits) returns (from: nat, to: nat)
    requires limits.retain.Head?
    ensures IsWindow(bs, limits, from, to)
  {
    if limits.maxLines == 0 || limits.maxBytes == 0 {
      return 0, 0;
    }
    var end := HeadLines(bs, limits);
    if end > limits.maxBytes {
      var newline := LastIndexOf(bs, limits.maxBytes);
      if newline == -1 {
        end := CharacterEnd(bs, limits.maxBytes);
        assert forall i :: !HeadFits(bs, limits, i);
      } else {
        HeadCut(bs, limits, end, newline + 1);
        end := newline + 1;
        assert HeadFits(bs, limits, end);
      }
    } else {
      forall i | HeadFits(bs, limits, i) ensures i <= end {
        if end < i {
          HeadLonger(bs, limits, end, i);
        }
      }
      assert HeadFits(bs, limits, end);
    }
    return 0, end;
  }

  /** Past `maxLines` newlines, nothing longer fits. */
  lemma HeadLonger(bs: seq<Byte>, limits: Limits, end: nat, i: nat)
    requires end < i <= |bs| && Newlines(bs[..end]) == limits.maxLines
    ensures Lines(bs[..i]) > limits.maxLines
  {
    NewlinesSplit(bs[..i], end);
    assert bs[..i][..end] == bs[..end];
    if Terminated(bs[..i]) {
      NewlineAt(bs, i - 1);
      NewlinesSplit(bs[..i - 1], end);
      assert bs[..i - 1][..end] == bs[..end];
    }
  }

  /** The last newline inside the byte limit ends the longest whole lines that fit. */
  lemma HeadCut(bs: seq<Byte>, limits: Limits, end: nat, cut: nat)
    requires end <= |bs| && 0 < cut <= limits.maxBytes < end && bs[cut - 1] == NEWLINE
    requires Clear(bs, cut, limits.maxBytes)
    requires Lines(bs[..end]) <= limits.maxLines
    ensures HeadFits(bs, limits, cut)
    ensures forall i :: HeadFits(bs, limits, i) ==> i <= cut
  {
    NewlinesSplit(bs[..end], cut);
    assert bs[..end][..cut] == bs[..cut];
  }

  /** Lines of the suffix from `i`, where the end of the text counts as inside it. */
  ghost function LinesFrom(bs: seq<Byte>, i: nat): nat
    requires i <= |bs|
  {
    Newlines(bs[i..]) + (if Terminated(bs) then 0 else 1)
  }

  /** Scanning back from `seen` to the newline at `index`. */
  lemma PreviousNewline(bs: seq<Byte>, seen: nat, index: nat)
    requires index < seen <= |bs| && index + 1 < |bs|
    requires bs[index] == NEWLINE && Clear(bs, index + 1, seen)
    ensures Lines(bs[index + 1..]) == LinesFrom(bs, seen)
    ensures LinesFrom(bs, index) == LinesFrom(bs, seen) + 1
    ensures forall i :: 0 <= i <= index ==> Lines(bs[i..]) > LinesFrom(bs, seen)
  {
    var rest := bs[index + 1..];
    NewlinesSplit(rest, seen - (index + 1));
    assert rest[..seen - (index + 1)] == bs[index + 1..seen] && rest[seen - (index + 1)..] == bs[seen..];
    ClearCount(bs, index + 1, seen);
    NewlineAt(bs, index);
    forall i | 0 <= i <= index ensures Lines(bs[i..]) > LinesFrom(bs, seen) {
      SuffixLines(bs, i, index + 1);
    }
  }

  /** Everything past `last` is the end of one line. */
  lemma OneLine(bs: seq<Byte>, last: nat)
    requires last < |bs|
    requires last == if bs[|bs| - 1] == NEWLINE then |bs| - 2 else |bs| - 1
    ensures LinesFrom(bs, last + 1) == 1
  {
    if bs[|bs| - 1] == NEWLINE {
      assert bs[last + 1..] == [NEWLINE] && bs[last + 1..][1..] == [];
    } else {
      assert bs[last + 1..] == [];
    }
  }

  /** The start of the `maxLines`-th line from the end, or of everything. */
  method TailLines(bs: seq<Byte>, limits: Limits) returns (start: nat)
    requires limits.maxLines > 0
    ensures LineStart(bs, start) && Lines(bs[start..]) <= limits.maxLines
    ensures forall i :: 0 <= i < start ==> Lines(bs[i..]) > limits.maxLines
  {
    // `Lines` ignores a final newline, so the search for line starts begins before it.
    var last := if |bs| > 0 && bs[|bs| - 1] == NEWLINE then |bs| - 2 else |bs| - 1;
    if last < 0 {
      if bs != [] {
        LastLine(bs, 0);
      }
      return 0;
    }
    var lines := 1;
    var index := LastIndexOf(bs, last + 1);
    ghost var seen: int := last + 1;
    OneLine(bs, last);
    while index != -1
      invariant 0 <= seen <= last + 1 && 1 <= lines <= limits.maxLines
      invariant lines == LinesFrom(bs, seen)
      invariant index == -1 ==> Clear(bs, 0, seen)
      invariant index != -1 ==> 0 <= index < seen && bs[index] == NEWLINE && Clear(bs, index + 1, seen)
      decreases seen, index != -1
    {
      PreviousNewline(bs, seen, index);
      if lines == limits.maxLines {
        return index + 1;
      }
      lines := lines + 1;
      seen := index;
      index := LastIndexOf(bs, index);
    }
    NewlinesSplit(bs, seen);
    ClearCount(bs, 0, seen);
    assert bs[0..seen] == bs[..seen] && bs[0..] == bs;
    return 0;
  }

  method TailRange(bs: seq<Byte>, limits: Limits) returns (from: nat, to: nat)
    requires limits.retain.Tail?
    ensures IsWindow(bs, limits, from, to)
  {
    if limits.maxLines == 0 || limits.maxBytes == 0 {
      return |bs|, |bs|;
    }
    var start := TailLines(bs, limits);
    if |bs| - start > limits.maxBytes {
      var from := |bs| - limits.maxBytes;
      var newline := IndexOf(bs, from - 1);
      ghost var lines := start;
      // Only a line start past `from` can fit the bytes; without one the last line is cut.
      if newline != -1 && newline + 1 < |bs| {
        start := newline + 1;
        TailCut(bs, limits, lines, start);
      } else {
        start := CharacterStart(bs, from);
        assert forall i :: !TailFits(bs, limits, i);
      }
    } else {
      assert TailFits(bs, limits, start);
    }
    return start, |bs|;
  }

  lemma TailCut(bs: seq<Byte>, limits: Limits, lines: nat, cut: nat)
    requires 0 < |bs| - limits.maxBytes <= cut < |bs| && bs[cut - 1] == NEWLINE
    requires Clear(bs, |bs| - limits.maxBytes - 1, cut - 1)
    requires lines < |bs| - limits.maxBytes && Lines(bs[lines..]) <= limits.maxLines
    ensures TailFits(bs, limits, cut)
    ensures forall i :: TailFits(bs, limits, i) ==> cut <= i
  {
    SuffixLines(bs, lines, cut);
  }

  /** `boundOutput`. */
  method BoundOutput(text: string, limits: Limits) returns (slice: Slice)
    ensures IsBounded(text, limits, slice)
  {
    var bs := Encode(text);
    var from, to;
    if limits.retain.Head? {
      from, to := HeadRange(bs, limits);
    } else {
      from, to := TailRange(bs, limits);
    }
    var kept := bs[from..to];
    WindowOnBoundaries(text, limits, from, to);
    SliceIsText(text, from, to);
    var keptText := if |kept| == |bs| then text else Decode(kept);
    var allLines: int := LineCount(bs);
    var keptLines: int := LineCount(kept);
    slice := Slice(keptText, |kept|, |bs| - |kept|, allLines - keptLines);
    assert IsSlice(bs, from, to, slice);
  }

  lemma SliceIsText(text: string, from: nat, to: nat)
    requires from <= to && Boundary(Encode(text), from) && Boundary(Encode(text), to)
    ensures WellFormed(Encode(text)[from..to])
  {
    var k := BoundarySplits(text, to);
    var prefix := text[..k];
    var bs := Encode(text);
    assert Encode(prefix) == bs[..to];
    var m := BoundarySplits(prefix, from);
    assert bs[..to][from..] == bs[from..to];
  }
}
