/**
 The byte encoding of text: section 3 of RFC 3629. A `char` is a Unicode scalar value, so a `string` is
 well-formed text. Continuation bytes are the ones the source recognises with `(byte & 0xc0) === 0x80`.
 */
module Utf8 {

  type Byte = b: int | 0 <= b < 256

  const NEWLINE: Byte := 0x0a

  predicate IsContinuation(b: Byte) {
    0x80 <= b < 0xc0
  }

  /** The lowest `n` groups of six bits as continuation bytes, highest first. */
  function Trail(x: nat, n: nat): (bs: seq<Byte>)
    ensures |bs| == n && forall i :: 0 <= i < n ==> IsContinuation(bs[i])
  {
    if n == 0 then [] else Trail(x / 64, n - 1) + [0x80 + x % 64]
  }

  /** What is left of `x` above its lowest `n` groups of six bits. */
  function High(x: nat, n: nat): nat {
    if n == 0 then x else High(x / 64, n - 1)
  }

  /** Continuation bytes a scalar value needs. */
  function TrailLength(c: char): (n: nat)
    ensures n <= 3
  {
    if c < 0x80 as char then 0 else if c < 0x800 as char then 1 else if c < 0x1_0000 as char then 2 else 3
  }

  /** The lead byte carries the highest bits and says how many bytes follow. */
  function Lead(high: nat, n: nat): (b: int) {
    match n
    case 0 => high
    case 1 => 0xc0 + high
    case 2 => 0xe0 + high
    case _ => 0xf0 + high
  }

  lemma LeadByte(c: char)
    ensures 0 <= Lead(High(c as int, TrailLength(c)), TrailLength(c)) < 256
    ensures Width(Lead(High(c as int, TrailLength(c)), TrailLength(c))) == 1 + TrailLength(c)
    ensures !IsContinuation(Lead(High(c as int, TrailLength(c)), TrailLength(c)))
    ensures c == '\n' <==> Lead(High(c as int, TrailLength(c)), TrailLength(c)) == NEWLINE
  {
    var x := c as int;
    assert High(x, 1) == x / 64;
    assert High(x, 2) == High(x / 64, 1) == x / 64 / 64;
    assert High(x, 3) == High(x / 64, 2) == High(x / 64 / 64, 1) == x / 64 / 64 / 64;
  }

  /** One lead byte followed by continuation bytes; only U+000A contains the newline byte. */
  function EncodeChar(c: char): (bs: seq<Byte>)
    ensures 1 <= |bs| <= 4 && |bs| == Width(bs[0])
    ensures !IsContinuation(bs[0])
    ensures forall i :: 1 <= i < |bs| ==> IsContinuation(bs[i])
    ensures c == '\n' <==> bs[0] == NEWLINE
  {
    LeadByte(c);
    [Lead(High(c as int, TrailLength(c)), TrailLength(c))] + Trail(c as int, TrailLength(c))
  }

  /** Length of the sequence a lead byte starts. */
  function Width(lead: int): nat {
    if lead < 0x80 then 1 else if lead < 0xe0 then 2 else if lead < 0xf0 then 3 else 4
  }

  /** `high` followed by the bits of continuation bytes. */
  function Join(high: int, trail: seq<Byte>): int {
    if trail == [] then high
    else Join(high, trail[..|trail| - 1]) * 64 + (trail[|trail| - 1] as int - 0x80)
  }

  /** The number a sequence of bytes carries. */
  function CodePoint(bs: seq<Byte>): int
    requires bs != []
  {
    var lead: int := bs[0];
    Join(lead - Lead(0, Width(lead) - 1), bs[1..])
  }

  lemma {:induction false} JoinTrail(x: nat, n: nat)
    ensures Join(High(x, n), Trail(x, n)) == x
  {
    if n > 0 {
      JoinTrail(x / 64, n - 1);
      assert Trail(x, n)[..n - 1] == Trail(x / 64, n - 1);
    }
  }

  lemma CharRoundTrip(c: char)
    ensures CodePoint(EncodeChar(c)) == c as int
  {
    LeadByte(c);
    JoinTrail(c as int, TrailLength(c));
    assert EncodeChar(c)[1..] == Trail(c as int, TrailLength(c));
  }

  /** The bytes of every character, from the table of section 3 of RFC 3629. */
  lemma EncodingTable(c: char)
    ensures var x := c as int;
            EncodeChar(c) == if x < 0x80 then [x]
                             else if x < 0x800 then [0xc0 + x / 0x40, 0x80 + x % 0x40]
                             else if x < 0x1_0000 then [0xe0 + x / 0x1000, 0x80 + x / 0x40 % 0x40, 0x80 + x % 0x40]
                             else [0xf0 + x / 0x4_0000, 0x80 + x / 0x1000 % 0x40, 0x80 + x / 0x40 % 0x40, 0x80 + x % 0x40]
  {
    var x := c as int;
    LeadByte(c);
    HighTrail(x, 1);
    HighTrail(x, 2);
    HighTrail(x, 3);
  }

  lemma HighTrail(x: nat, n: nat)
    ensures n == 1 ==> High(x, n) == x / 0x40 && Trail(x, n) == [0x80 + x % 0x40]
    ensures n == 2 ==> High(x, n) == x / 0x1000 && Trail(x, n) == [0x80 + x / 0x40 % 0x40, 0x80 + x % 0x40]
    ensures n == 3 ==> High(x, n) == x / 0x4_0000
                       && Trail(x, n) == [0x80 + x / 0x1000 % 0x40, 0x80 + x / 0x40 % 0x40, 0x80 + x % 0x40]
  {
    if 1 < n <= 3 {
      HighTrail(x / 0x40, n - 1);
      assert High(x, n) == High(x / 0x40, n - 1) && Trail(x, n) == Trail(x / 0x40, n - 1) + [0x80 + x % 0x40];
      assert x / 0x40 / 0x40 == x / 0x1000 && x / 0x40 / 0x1000 == x / 0x4_0000;
    } else if n == 1 {
      assert Trail(x / 0x40, 0) == [] && High(x / 0x40, 0) == x / 0x40;
    }
  }

  /** No shorter sequence carries the same number: the encoding is the shortest of its form. */
  lemma ShortestForm(c: char, bs: seq<Byte>)
    requires 1 <= |bs| <= 4 && |bs| == Width(bs[0])
    requires !IsContinuation(bs[0]) && forall i :: 1 <= i < |bs| ==> IsContinuation(bs[i])
    requires CodePoint(bs) == c as int
    ensures |EncodeChar(c)| <= |bs|
  {
    EncodingTable(c);
    CarriesLess(bs);
  }

  /** What `n` bytes can carry. */
  lemma CarriesLess(bs: seq<Byte>)
    requires 1 <= |bs| <= 4 && |bs| == Width(bs[0])
    requires forall i :: 1 <= i < |bs| ==> IsContinuation(bs[i])
    ensures CodePoint(bs) < match |bs| case 1 => 0x80 case 2 => 0x800 case 3 => 0x1_0000 case _ => 0x40_0000
  {
    var t := bs[1..];
    var lead: int := bs[0];
    JoinBound(lead - Lead(0, |bs| - 1), t);
  }

  lemma JoinBound(high: int, trail: seq<Byte>)
    requires |trail| <= 3 && forall i :: 0 <= i < |trail| ==> IsContinuation(trail[i])
    ensures |trail| == 0 ==> Join(high, trail) == high
    ensures |trail| == 1 ==> Join(high, trail) <= high * 0x40 + 0x3f
    ensures |trail| == 2 ==> Join(high, trail) <= high * 0x1000 + 0xfff
    ensures |trail| == 3 ==> Join(high, trail) <= high * 0x4_0000 + 0x3_ffff
  {
    if trail != [] {
      JoinBound(high, trail[..|trail| - 1]);
    }
  }

  function Encode(text: string): (bs: seq<Byte>)
    ensures text == "" <==> bs == []
  {
    if text == "" then [] else EncodeChar(text[0]) + Encode(text[1..])
  }

  ghost predicate WellFormed(bs: seq<Byte>) {
    exists text :: Encode(text) == bs
  }

  lemma WellFormedStep(bs: seq<Byte>)
    requires WellFormed(bs) && bs != []
    ensures Width(bs[0]) <= |bs|
    ensures exists c: char :: bs[..Width(bs[0])] == EncodeChar(c) && CodePoint(EncodeChar(c)) == c as int
    ensures WellFormed(bs[Width(bs[0])..])
  {
    var text :| Encode(text) == bs;
    var head := EncodeChar(text[0]);
    assert bs == head + Encode(text[1..]);
    assert bs[..|head|] == head && bs[|head|..] == Encode(text[1..]);
    CharRoundTrip(text[0]);
  }

  /** Decoding of bytes cut on character boundaries, as every slice of the source is. */
  function Decode(bs: seq<Byte>): (text: string)
    requires WellFormed(bs)
    ensures Encode(text) == bs
  {
    if bs == [] then ""
    else
      WellFormedStep(bs);
      var n := Width(bs[0]);
      var text := [CodePoint(bs[..n]) as char] + Decode(bs[n..]);
      assert text[1..] == Decode(bs[n..]);
      text
  }

  lemma {:induction false} EncodeInjective(a: string, b: string)
    requires Encode(a) == Encode(b)
    ensures a == b
  {
    if a != "" && b != "" {
      var x, y := EncodeChar(a[0]), EncodeChar(b[0]);
      var bs := Encode(a);
      assert bs[0] == x[0] == y[0];
      assert bs[..|x|] == x && bs[..|y|] == y;
      CharRoundTrip(a[0]);
      CharRoundTrip(b[0]);
      assert bs[|x|..] == Encode(a[1..]) == Encode(b[1..]);
      EncodeInjective(a[1..], b[1..]);
      assert a == [a[0]] + a[1..] && b == [b[0]] + b[1..];
    }
  }

  /** Decoding undoes encoding. */
  lemma DecodeEncode(text: string)
    ensures WellFormed(Encode(text)) && Decode(Encode(text)) == text
  {
    EncodeInjective(Decode(Encode(text)), text);
  }

  lemma {:induction false} EncodeConcat(a: string, b: string)
    ensures Encode(a + b) == Encode(a) + Encode(b)
  {
    if a == "" {
      assert a + b == b;
    } else {
      EncodeConcat(a[1..], b);
      assert (a + b)[1..] == a[1..] + b;
      Associative(EncodeChar(a[0]), Encode(a[1..]), Encode(b));
    }
  }

  lemma EncodeSplit(text: string, a: string, b: string)
    requires text == a + b
    ensures Encode(text) == Encode(a) + Encode(b)
  {
    EncodeConcat(a, b);
  }

  lemma Associative(a: seq<Byte>, b: seq<Byte>, c: seq<Byte>)
    ensures a + (b + c) == (a + b) + c
  {
  }

  /** A position no character spans. */
  ghost predicate Boundary(bs: seq<Byte>, i: int) {
    0 <= i <= |bs| && (i == 0 || i == |bs| || !IsContinuation(bs[i]))
  }

  lemma SplitConcat(a: seq<Byte>, b: seq<Byte>, i: int)
    requires |a| <= i <= |a| + |b|
    ensures (a + b)[..i] == a + b[..i - |a|] && (a + b)[i..] == b[i - |a|..]
  {
  }

  lemma SplitStep(text: string, m: nat)
    requires m < |text|
    ensures Encode(text[..m + 1]) == EncodeChar(text[0]) + Encode(text[1..][..m])
    ensures text[m + 1..] == text[1..][m..]
  {
    assert text[..m + 1][1..] == text[1..][..m];
  }

  /** A byte boundary of encoded text is a position between two of its characters. */
  lemma {:induction false} BoundarySplits(text: string, i: int) returns (k: nat)
    requires Boundary(Encode(text), i)
    ensures k <= |text|
    ensures Encode(text)[..i] == Encode(text[..k]) && Encode(text)[i..] == Encode(text[k..])
  {
    var bs := Encode(text);
    if i == 0 {
      k := 0;
      assert text[0..] == text && bs[0..] == bs;
    } else {
      var head := EncodeChar(text[0]);
      assert bs == head + Encode(text[1..]);
      assert forall j :: 1 <= j < |head| ==> bs[j] == head[j];
      var m := BoundarySplits(text[1..], i - |head|);
      k := m + 1;
      SplitStep(text, m);
      SplitConcat(head, Encode(text[1..]), i);
    }
  }

  /** Every position has a boundary at most three bytes before it. */
  lemma {:induction false} BoundaryNear(text: string, i: int)
    requires 0 <= i <= |Encode(text)|
    ensures exists j :: i - 3 <= j <= i && Boundary(Encode(text), j)
  {
    var bs := Encode(text);
    if text == "" {
      assert Boundary(bs, 0);
    } else {
      var head := EncodeChar(text[0]);
      assert bs == head + Encode(text[1..]);
      if i < |head| {
        assert Boundary(bs, 0);
      } else {
        BoundaryNear(text[1..], i - |head|);
        var rest := Encode(text[1..]);
        var j :| i - |head| - 3 <= j <= i - |head| && Boundary(rest, j);
        if j == 0 && rest != [] {
          assert rest == EncodeChar(text[1]) + Encode(text[1..][1..]);
        }
        assert Boundary(bs, |head| + j);
      }
    }
  }

  /** A newline byte is a whole character, so the position after it is a boundary. */
  lemma {:induction false} NewlineIsWhole(text: string, i: int)
    requires 0 <= i < |Encode(text)| && Encode(text)[i] == NEWLINE
    ensures Boundary(Encode(text), i) && Boundary(Encode(text), i + 1)
  {
    var bs := Encode(text);
    var head := EncodeChar(text[0]);
    var rest := Encode(text[1..]);
    assert bs == head + rest;
    if i < |head| {
      assert bs[i] == head[i];
      assert i == 0 && |head| == 1;
      if rest != [] {
        assert rest == EncodeChar(text[1]) + Encode(text[1..][1..]);
      }
    } else {
      NewlineIsWhole(text[1..], i - |head|);
    }
  }
}
