/**
 Version precedence and catalog selection of scripts/model-catalog-protocol.ts, compared with section 11 of Semantic
 Versioning 2.0.0. Parsing a version is a parameter, and so are `Number` and `localeCompare`.
 */
module CatalogVersions {

  datatype Option<T> = None | Some(value: T)

  datatype Version = Version(major: nat, minor: nat, patch: nat, prerelease: string)

  /** What `Number` makes of a natural number written in digits. */
  datatype Double = Finite(value: int) | Infinity

  /** The sign of a comparison's result; `Unordered` is `NaN`, the difference of two infinities. */
  datatype Order = Less | Equal | Greater | Unordered

  datatype Runtime = Runtime(parse: string -> Option<Version>, number: nat -> Double, locale: (string, string) -> int)

  const MAX_SAFE_INTEGER: nat := 0x1F_FFFF_FFFF_FFFF

  predicate AtMost(x: Double, y: Double) {
    y.Infinity? || (x.Finite? && x.value <= y.value)
  }

  ghost predicate Monotone(number: nat -> Double) {
    && (forall n: nat, m: nat :: n <= m ==> AtMost(number(n), number(m)))
    && forall n: nat :: n <= MAX_SAFE_INTEGER ==> number(n) == Finite(n)
  }

  /** `localeCompare` is a total preorder. */
  ghost predicate Ordering(locale: (string, string) -> int) {
    && (forall a, b :: locale(a, b) < 0 <==> locale(b, a) > 0)
    && (forall a, b, c :: locale(a, b) <= 0 && locale(b, c) <= 0 ==> locale(a, c) <= 0)
  }

  ghost predicate Sane(rt: Runtime) {
    Monotone(rt.number) && Ordering(rt.locale)
  }

  function Sign(n: int): Order {
    if n < 0 then Less else if n == 0 then Equal else Greater
  }

  function Opposite(o: Order): Order {
    match o
    case Less => Greater
    case Greater => Less
    case _ => o
  }

  /** `x - y` */
  function Difference(x: Double, y: Double): Order {
    if x.Finite? && y.Finite? then Sign(x.value - y.value)
    else if x.Finite? then Less
    else if y.Finite? then Greater
    else Unordered
  }

  /** `<= 0` */
  predicate NotAfter(o: Order) {
    o.Less? || o.Equal?
  }

  // ----- Identifiers -----

  predicate IsDigit(c: char) {
    '0' <= c <= '9'
  }

  /** `/^\d+$/` */
  predicate Numeric(part: string) {
    part != "" && forall i :: 0 <= i < |part| ==> IsDigit(part[i])
  }

  function DigitValue(c: char): (d: nat)
    requires IsDigit(c)
    ensures d < 10
  {
    c as int - '0' as int
  }

  function Value(part: string): nat
    requires forall i :: 0 <= i < |part| ==> IsDigit(part[i])
  {
    if part == "" then 0 else 10 * Value(part[..|part| - 1]) + DigitValue(part[|part| - 1])
  }

  /** Two identifiers that differ. */
  function ComparePart(rt: Runtime, a: string, b: string): Order {
    if Numeric(a) && Numeric(b) then Difference(rt.number(Value(a)), rt.number(Value(b)))
    else if Numeric(a) then Less
    else if Numeric(b) then Greater
    else Sign(rt.locale(a, b))
  }

  function CompareParts(rt: Runtime, l: seq<string>, r: seq<string>): Order
    decreases |l|
  {
    if l == [] && r == [] then Equal
    else if l == [] then Less
    else if r == [] then Greater
    else if l[0] == r[0] then CompareParts(rt, l[1..], r[1..])
    else ComparePart(rt, l[0], r[0])
  }

  function Split(s: string): (parts: seq<string>)
    ensures parts != []
  {
    if s == "" then [""]
    else
      var before := Split(s[..|s| - 1]);
      var c := s[|s| - 1];
      if c == '.' then before + [""] else before[|before| - 1 := before[|before| - 1] + [c]]
  }

  /** No prerelease comes after any. */
  function ComparePrereleases(rt: Runtime, l: string, r: string): Order {
    if l == r then Equal
    else if l == "" then Greater
    else if r == "" then Less
    else CompareParts(rt, Split(l), Split(r))
  }

  function Compare(rt: Runtime, l: Version, r: Version): Order {
    if l.major != r.major then Sign(l.major - r.major)
    else if l.minor != r.minor then Sign(l.minor - r.minor)
    else if l.patch != r.patch then Sign(l.patch - r.patch)
    else ComparePrereleases(rt, l.prerelease, r.prerelease)
  }

  method ComparePiVersions(rt: Runtime, left: Version, right: Version) returns (r: Order)
    ensures r == Compare(rt, left, right)
  {
    var ls: seq<int>, rs: seq<int> := [left.major, left.minor, left.patch], [right.major, right.minor, right.patch];
    for index := 0 to 3
      invariant index > 0 ==> ls[0] == rs[0]
      invariant index > 1 ==> ls[1] == rs[1]
      invariant index > 2 ==> ls[2] == rs[2]
    {
      var difference: int := ls[index] - rs[index];
      if difference != 0 {
        return Sign(difference);
      }
    }
    if left.prerelease == right.prerelease {
      return Equal;
    }
    if left.prerelease == "" {
      return Greater;
    }
    if right.prerelease == "" {
      return Less;
    }
    r := CompareIdentifiers(rt, Split(left.prerelease), Split(right.prerelease));
  }

  method CompareIdentifiers(rt: Runtime, leftParts: seq<string>, rightParts: seq<string>) returns (r: Order)
    ensures r == CompareParts(rt, leftParts, rightParts)
  {
    var n := if |leftParts| > |rightParts| then |leftParts| else |rightParts|;
    for index := 0 to n
      invariant index <= |leftParts| && index <= |rightParts|
      invariant CompareParts(rt, leftParts, rightParts) == CompareParts(rt, leftParts[index..], rightParts[index..])
    {
      if index == |leftParts| {
        return Less;
      }
      if index == |rightParts| {
        return Greater;
      }
      assert leftParts[index..][1..] == leftParts[index + 1..] && rightParts[index..][1..] == rightParts[index + 1..];
      if leftParts[index] == rightParts[index] {
        continue;
      }
      return ComparePart(rt, leftParts[index], rightParts[index]);
    }
    r := Equal;
  }

  // ----- Laws -----

  /** Section 11.4: the first identifiers that differ decide; if none does, the longer list comes after. */
  lemma {:induction false} FirstDifferenceDecides(rt: Runtime, l: seq<string>, r: seq<string>, i: nat)
    requires i <= |l| && i <= |r| && l[..i] == r[..i]
    ensures i == |l| && i < |r| ==> CompareParts(rt, l, r) == Less
    ensures i == |r| && i < |l| ==> CompareParts(rt, l, r) == Greater
    ensures i == |l| == |r| ==> CompareParts(rt, l, r) == Equal
    ensures i < |l| && i < |r| && l[i] != r[i] ==> CompareParts(rt, l, r) == ComparePart(rt, l[i], r[i])
    decreases i
  {
    if i > 0 {
      assert l[0] == l[..i][0] == r[0];
      assert l[1..][..i - 1] == l[..i][1..] && r[1..][..i - 1] == r[..i][1..];
      FirstDifferenceDecides(rt, l[1..], r[1..], i - 1);
    }
  }

  /** A number comes before what is none, whatever the two are; two that are none compare as text. */
  lemma KindsDecide(rt: Runtime, a: string, b: string)
    ensures var number := (s: string) => s != "" && forall i :: 0 <= i < |s| ==> '0' <= s[i] <= '9';
            && (number(a) && !number(b) ==> ComparePart(rt, a, b) == Less)
            && (!number(a) && number(b) ==> ComparePart(rt, a, b) == Greater)
            && (!number(a) && !number(b) ==>
                  && (ComparePart(rt, a, b) == Less <==> rt.locale(a, b) < 0)
                  && (ComparePart(rt, a, b) == Greater <==> rt.locale(a, b) > 0)
                  && (ComparePart(rt, a, b) == Equal <==> rt.locale(a, b) == 0))
  {
  }

  /** Of two numerals of one length, the first digits that differ decide. */
  lemma {:induction false} DigitsDecide(a: string, b: string, i: nat)
    requires Numeric(a) && Numeric(b) && i < |a| == |b| && a[..i] == b[..i] && a[i] < b[i]
    ensures Value(a) < Value(b)
    decreases |a|
  {
    var m := |a| - 1;
    if i < m {
      assert a[..m][..i] == a[..i] && b[..m][..i] == b[..i];
      DigitsDecide(a[..m], b[..m], i);
    }
  }

  /** Without leading zeros, the longer numeral is the greater. */
  lemma {:induction false} LengthDecides(a: string, b: string)
    requires (forall i :: 0 <= i < |a| ==> IsDigit(a[i])) && Numeric(b) && b[0] != '0' && |a| < |b|
    ensures Value(a) < Value(b)
    decreases |a|
  {
    if a == "" {
      PositiveNumeral(b);
    } else {
      LengthDecides(a[..|a| - 1], b[..|b| - 1]);
    }
  }

  /** Numerals of up to 15 digits are safe integers. */
  lemma FifteenDigits(a: string)
    requires |a| <= 15 && forall i :: 0 <= i < |a| ==> IsDigit(a[i])
    ensures Value(a) <= MAX_SAFE_INTEGER
  {
    Bounded(a, 15);
    assert PowerOfTen(15) == 1_000_000_000_000_000;
  }

  function PowerOfTen(n: nat): (r: nat)
    ensures r > 0
  {
    if n == 0 then 1 else 10 * PowerOfTen(n - 1)
  }

  lemma {:induction false} Bounded(a: string, n: nat)
    requires |a| <= n && forall i :: 0 <= i < |a| ==> IsDigit(a[i])
    ensures Value(a) < PowerOfTen(n)
  {
    if a != "" {
      Bounded(a[..|a| - 1], n - 1);
    }
  }

  /**
   Numeric identifiers compare by their value: without leading zeros, the shorter comes first, and of two of one length
   the one with the smaller digit where they first differ.
   */
  lemma NumbersByValue(rt: Runtime, a: string, b: string, i: nat)
    requires Sane(rt) && |a| <= 15 && |b| <= 15
    requires a != "" && forall k :: 0 <= k < |a| ==> '0' <= a[k] <= '9'
    requires b != "" && forall k :: 0 <= k < |b| ==> '0' <= b[k] <= '9'
    requires (a == "0" || a[0] != '0') && (b == "0" || b[0] != '0')
    ensures |a| < |b| ==> ComparePart(rt, a, b) == Less
    ensures |a| > |b| ==> ComparePart(rt, a, b) == Greater
    ensures i < |a| == |b| && a[..i] == b[..i] && a[i] != b[i] ==>
              ComparePart(rt, a, b) == if a[i] < b[i] then Less else Greater
  {
    FifteenDigits(a);
    FifteenDigits(b);
    if |a| < |b| {
      LengthDecides(a, b);
    } else if |a| > |b| {
      LengthDecides(b, a);
    } else if i < |a| && a[..i] == b[..i] && a[i] != b[i] {
      if a[i] < b[i] {
        DigitsDecide(a, b, i);
      } else {
        DigitsDecide(b, a, i);
      }
    }
  }

  /** Identifiers with dots between them. */
  function Joined(ids: seq<string>): string
    requires ids != []
  {
    if |ids| == 1 then ids[0] else Joined(ids[..|ids| - 1]) + "." + ids[|ids| - 1]
  }

  lemma {:induction false} SplitMore(s: string, d: string)
    requires Identifier(d)
    ensures Split(s + "." + d) == Split(s) + [d]
    decreases |d|
  {
    var all := s + "." + d;
    if d == "" {
      assert all[..|all| - 1] == s;
    } else {
      var init := d[..|d| - 1];
      SplitMore(s, init);
      assert all[..|all| - 1] == s + "." + init;
      assert d == init + [d[|d| - 1]];
    }
  }

  lemma {:induction false} SplitJoined(ids: seq<string>)
    requires ids != [] && forall i :: 0 <= i < |ids| ==> Identifier(ids[i])
    ensures Split(Joined(ids)) == ids
  {
    if |ids| == 1 {
      SplitOne(ids[0]);
    } else {
      SplitJoined(ids[..|ids| - 1]);
      SplitMore(Joined(ids[..|ids| - 1]), ids[|ids| - 1]);
    }
  }

  /**
   Section 11 of Semantic Versioning: major, minor and patch decide in this order, then a release comes after its
   prereleases, and then the identifiers between the dots decide.
   */
  lemma Precedence(rt: Runtime, l: Version, r: Version, ls: seq<string>, rs: seq<string>)
    requires ls != [] && rs != [] && (forall d :: d in ls ==> Identifier(d)) && forall d :: d in rs ==> Identifier(d)
    ensures l.major < r.major ==> Compare(rt, l, r) == Less
    ensures l.major > r.major ==> Compare(rt, l, r) == Greater
    ensures l.major == r.major && l.minor < r.minor ==> Compare(rt, l, r) == Less
    ensures l.major == r.major && l.minor > r.minor ==> Compare(rt, l, r) == Greater
    ensures (l.major, l.minor) == (r.major, r.minor) && l.patch < r.patch ==> Compare(rt, l, r) == Less
    ensures (l.major, l.minor) == (r.major, r.minor) && l.patch > r.patch ==> Compare(rt, l, r) == Greater
    ensures (l.major, l.minor, l.patch) == (r.major, r.minor, r.patch) ==>
              && (l.prerelease == r.prerelease ==> Compare(rt, l, r) == Equal)
              && (l.prerelease == "" && r.prerelease != "" ==> Compare(rt, l, r) == Greater)
              && (l.prerelease != "" && r.prerelease == "" ==> Compare(rt, l, r) == Less)
              && (l.prerelease == Joined(ls) != "" && r.prerelease == Joined(rs) != "" ==>
                    Compare(rt, l, r) == CompareParts(rt, ls, rs))
  {
    SplitJoined(ls);
    SplitJoined(rs);
    SameList(rt, ls);
  }

  lemma PartsOpposed(rt: Runtime, a: string, b: string)
    requires Sane(rt)
    ensures ComparePart(rt, b, a) == Opposite(ComparePart(rt, a, b))
  {
  }

  lemma {:induction false} ListsOpposed(rt: Runtime, l: seq<string>, r: seq<string>)
    requires Sane(rt)
    ensures CompareParts(rt, r, l) == Opposite(CompareParts(rt, l, r))
    decreases |l|
  {
    if l != [] && r != [] {
      if l[0] == r[0] {
        ListsOpposed(rt, l[1..], r[1..]);
      } else {
        PartsOpposed(rt, l[0], r[0]);
      }
    }
  }

  /** Swapping the versions swaps the answer. */
  lemma Opposed(rt: Runtime, l: Version, r: Version)
    requires Sane(rt)
    ensures Compare(rt, r, l) == Opposite(Compare(rt, l, r))
  {
    ListsOpposed(rt, Split(l.prerelease), Split(r.prerelease));
  }

  lemma PartsAfter(rt: Runtime, a: string, b: string, c: string)
    requires Sane(rt) && ComparePart(rt, a, b).Greater? && ComparePart(rt, b, c).Greater?
    ensures ComparePart(rt, a, c).Greater?
  {
    if !Numeric(a) && !Numeric(b) && !Numeric(c) {
      assert rt.locale(c, b) <= 0 && rt.locale(b, a) <= 0;
    }
  }

  /** Coming strictly after is transitive, for any identifiers at all. */
  lemma {:induction false} ListsAfter(rt: Runtime, a: seq<string>, b: seq<string>, c: seq<string>)
    requires Sane(rt) && CompareParts(rt, a, b).Greater? && CompareParts(rt, b, c).Greater?
    ensures CompareParts(rt, a, c).Greater?
    decreases |a|
  {
    if c != [] {
      if a[0] == b[0] && b[0] == c[0] {
        ListsAfter(rt, a[1..], b[1..], c[1..]);
      } else if a[0] != b[0] && b[0] != c[0] {
        PartsAfter(rt, a[0], b[0], c[0]);
        PartsOpposed(rt, a[0], b[0]);
      }
    }
  }

  lemma After(rt: Runtime, a: Version, b: Version, c: Version)
    requires Sane(rt) && Compare(rt, a, b).Greater? && Compare(rt, b, c).Greater?
    ensures Compare(rt, a, c).Greater?
  {
    if
      && (a.major, a.minor, a.patch) == (b.major, b.minor, b.patch) == (c.major, c.minor, c.patch)
      && c.prerelease != "" && a.prerelease != ""
    {
      ListsAfter(rt, Split(a.prerelease), Split(b.prerelease), Split(c.prerelease));
      SameList(rt, Split(a.prerelease));
    }
  }

  lemma {:induction false} SameList(rt: Runtime, l: seq<string>)
    ensures CompareParts(rt, l, l) == Equal
  {
    if l != [] {
      SameList(rt, l[1..]);
    }
  }

  // ----- When precedence is a total preorder -----

  /** No two different identifiers compare equal, or not at all: then no comparison ends before it should. */
  ghost predicate Distinguished(rt: Runtime, ids: set<string>) {
    forall d, e :: d in ids && e in ids && d != e ==> ComparePart(rt, d, e).Less? || ComparePart(rt, d, e).Greater?
  }

  /** The identifiers of a version are of `ids`. */
  ghost predicate Over(ids: set<string>, v: Version) {
    v.prerelease != "" ==> From(ids, Split(v.prerelease))
  }

  ghost predicate From(ids: set<string>, l: seq<string>) {
    forall i :: 0 <= i < |l| ==> l[i] in ids
  }

  /** On the versions with identifiers of `ids`, being not after is transitive, and total. */
  ghost predicate TotalPreorder(rt: Runtime, ids: set<string>) {
    && (forall a, b, c ::
          (Over(ids, a) && Over(ids, b) && Over(ids, c) && NotAfter(Compare(rt, a, b)) && NotAfter(Compare(rt, b, c)))
          ==> NotAfter(Compare(rt, a, c)))
    && (forall a, b :: Over(ids, a) && Over(ids, b) ==> NotAfter(Compare(rt, a, b)) || NotAfter(Compare(rt, b, a)))
  }

  lemma FromTail(ids: set<string>, l: seq<string>)
    requires l != [] && From(ids, l)
    ensures l[0] in ids && From(ids, l[1..])
  {
  }

  lemma {:induction false} ListsChain(rt: Runtime, ids: set<string>, a: seq<string>, b: seq<string>, c: seq<string>)
    requires Sane(rt) && Distinguished(rt, ids) && From(ids, a) && From(ids, b) && From(ids, c)
    requires NotAfter(CompareParts(rt, a, b)) && NotAfter(CompareParts(rt, b, c))
    ensures NotAfter(CompareParts(rt, a, c))
    decreases |a|
  {
    if a != [] && b != [] && c != [] {
      FromTail(ids, a);
      FromTail(ids, b);
      FromTail(ids, c);
      if a[0] == b[0] == c[0] {
        ListsChain(rt, ids, a[1..], b[1..], c[1..]);
      } else if a[0] != b[0] && b[0] != c[0] {
        PartsOpposed(rt, a[0], b[0]);
        PartsOpposed(rt, b[0], c[0]);
        PartsAfter(rt, c[0], b[0], a[0]);
        PartsOpposed(rt, c[0], a[0]);
      }
    }
  }

  lemma {:induction false} ListsComparable(rt: Runtime, ids: set<string>, a: seq<string>, b: seq<string>)
    requires Sane(rt) && Distinguished(rt, ids) && From(ids, a) && From(ids, b)
    ensures !CompareParts(rt, a, b).Unordered?
    decreases |a|
  {
    if a != [] && b != [] {
      FromTail(ids, a);
      FromTail(ids, b);
      if a[0] == b[0] {
        ListsComparable(rt, ids, a[1..], b[1..]);
      }
    }
  }

  lemma VersionsChain(rt: Runtime, ids: set<string>, a: Version, b: Version, c: Version)
    requires Sane(rt) && Distinguished(rt, ids) && Over(ids, a) && Over(ids, b) && Over(ids, c)
    requires NotAfter(Compare(rt, a, b)) && NotAfter(Compare(rt, b, c))
    ensures NotAfter(Compare(rt, a, c))
  {
    if
      && (a.major, a.minor, a.patch) == (b.major, b.minor, b.patch) == (c.major, c.minor, c.patch)
      && a.prerelease != "" && b.prerelease != "" && c.prerelease != ""
    {
      SameList(rt, Split(a.prerelease));
      SameList(rt, Split(b.prerelease));
      ListsChain(rt, ids, Split(a.prerelease), Split(b.prerelease), Split(c.prerelease));
    }
  }

  /** An identifier stands between dots. */
  predicate Identifier(d: string) {
    '.' !in d
  }

  lemma {:induction false} SplitOne(d: string)
    requires Identifier(d)
    ensures Split(d) == [d]
  {
    if d != "" {
      SplitOne(d[..|d| - 1]);
      assert d == d[..|d| - 1] + [d[|d| - 1]];
    }
  }

  lemma {:induction false} SplitTwo(d: string, e: string)
    requires Identifier(d) && Identifier(e)
    ensures Split(d + "." + e) == [d, e]
    decreases |e|
  {
    var s := d + "." + e;
    var m := |s| - 1;
    if e == "" {
      assert s[..m] == d;
      SplitOne(d);
    } else {
      var init := e[..|e| - 1];
      SplitTwo(d, init);
      assert s[..m] == d + "." + init;
      assert e == init + [e[|e| - 1]];
    }
  }

  function Pre(prerelease: string): Version {
    Version(0, 0, 0, prerelease)
  }

  lemma ComparePre(rt: Runtime, p: string, q: string, l: seq<string>, r: seq<string>)
    requires p != "" && q != "" && Split(p) == l && Split(q) == r && l != r
    ensures Compare(rt, Pre(p), Pre(q)) == CompareParts(rt, l, r)
  {
  }

  lemma ConfusedTriple(rt: Runtime, d: string, e: string)
    requires d != e && Identifier(d) && Identifier(e) && d != ""
    ensures Compare(rt, Pre(d + "." + d), Pre(e + "." + d)) == ComparePart(rt, d, e)
    ensures Compare(rt, Pre(e + "." + d), Pre(d)) == ComparePart(rt, e, d)
    ensures Compare(rt, Pre(d + "." + d), Pre(d)) == Greater
    ensures Split(d + "." + d) == [d, d] && Split(e + "." + d) == [e, d] && Split(d) == [d]
  {
    SplitTwo(d, d);
    SplitTwo(e, d);
    SplitOne(d);
    assert [d, d][0] != [e, d][0] && |[e, d]| != |[d]|;
    FirstDifferenceDecides(rt, [d, d], [e, d], 0);
    FirstDifferenceDecides(rt, [e, d], [d], 0);
    FirstDifferenceDecides(rt, [d, d], [d], 1);
    ComparePre(rt, d + "." + d, e + "." + d, [d, d], [e, d]);
    ComparePre(rt, e + "." + d, d, [e, d], [d]);
    ComparePre(rt, d + "." + d, d, [d, d], [d]);
  }

  lemma OverPre(ids: set<string>, p: string, d: string, e: string)
    requires d in ids && e in ids && (Split(p) == [d, e] || Split(p) == [d])
    ensures Over(ids, Pre(p))
  {
  }

  /** Where two identifiers compare equal, or not at all, precedence stops being a total preorder. */
  lemma Confused(rt: Runtime, ids: set<string>, d: string, e: string)
    requires Sane(rt) && d in ids && e in ids && d != e && Identifier(d) && Identifier(e) && d != ""
    requires ComparePart(rt, d, e).Equal? || ComparePart(rt, d, e).Unordered?
    ensures !TotalPreorder(rt, ids)
  {
    var p, q := d + "." + d, e + "." + d;
    ConfusedTriple(rt, d, e);
    PartsOpposed(rt, d, e);
    OverPre(ids, p, d, d);
    OverPre(ids, q, e, d);
    OverPre(ids, d, d, d);
    PairsOpposed(rt, Pre(p), Pre(q));
    assert NotAfter(Compare(rt, Pre(p), Pre(q))) && NotAfter(Compare(rt, Pre(q), Pre(d))) ==> ComparePart(rt, d, e).Equal?;
  }

  lemma PairsOpposed(rt: Runtime, a: Version, b: Version)
    requires Sane(rt)
    ensures NotAfter(Compare(rt, a, b)) || NotAfter(Compare(rt, b, a)) <==> !Compare(rt, a, b).Unordered?
  {
    Opposed(rt, a, b);
  }

  /**
   Precedence is a total preorder on the versions with identifiers of `ids`, however many each has, if and only if no
   two of them compare equal or not at all. `01` and `1` do: then `1.1`, `01.1` and `1` are not after one another in
   that order, while `1.1` comes after `1`.
   */
  lemma PreorderIff(rt: Runtime, ids: set<string>)
    requires Sane(rt) && forall d :: d in ids ==> Identifier(d)
    ensures TotalPreorder(rt, ids) <==> Distinguished(rt, ids)
  {
    if Distinguished(rt, ids) {
      forall a, b, c | Over(ids, a) && Over(ids, b) && Over(ids, c)
                       && NotAfter(Compare(rt, a, b)) && NotAfter(Compare(rt, b, c))
        ensures NotAfter(Compare(rt, a, c))
      {
        VersionsChain(rt, ids, a, b, c);
      }
      forall a, b | Over(ids, a) && Over(ids, b) ensures NotAfter(Compare(rt, a, b)) || NotAfter(Compare(rt, b, a)) {
        PairsOpposed(rt, a, b);
        if a.prerelease != "" && b.prerelease != "" {
          ListsComparable(rt, ids, Split(a.prerelease), Split(b.prerelease));
        }
      }
    } else {
      var d, e :| d in ids && e in ids && d != e && !(ComparePart(rt, d, e).Less? || ComparePart(rt, d, e).Greater?);
      PartsOpposed(rt, d, e);
      if d != "" {
        Confused(rt, ids, d, e);
      } else {
        Confused(rt, ids, e, d);
      }
    }
  }

  /** No leading zeros, and small enough for `Number` to be exact. */
  predicate Canonical(part: string) {
    Numeric(part) ==> (part == "0" || part[0] != '0') && Value(part) <= MAX_SAFE_INTEGER
  }

  /** Identifiers that section 9 of Semantic Versioning allows are told apart, if `localeCompare` does. */
  lemma CanonicalDistinguished(rt: Runtime, ids: set<string>)
    requires Sane(rt) && forall d :: d in ids ==> Canonical(d)
    requires forall d, e :: d in ids && e in ids && d != e && !Numeric(d) && !Numeric(e) ==> rt.locale(d, e) != 0
    ensures Distinguished(rt, ids)
  {
    forall d, e | d in ids && e in ids && d != e ensures ComparePart(rt, d, e).Less? || ComparePart(rt, d, e).Greater? {
      if Numeric(d) && Numeric(e) {
        if Value(d) == Value(e) {
          SameNumeral(d, e);
        }
      }
    }
  }

  lemma {:induction false} SameNumeral(d: string, e: string)
    requires Numeric(d) && Numeric(e) && Value(d) == Value(e)
    requires (d == "0" || d[0] != '0') && (e == "0" || e[0] != '0')
    ensures d == e
    decreases |d|
  {
    var m, n := |d| - 1, |e| - 1;
    assert d == d[..m] + [d[m]] && e == e[..n] + [e[n]];
    LastDigit(Value(d[..m]), DigitValue(d[m]), Value(e[..n]), DigitValue(e[n]));
    if m > 0 && n > 0 {
      SameNumeral(d[..m], e[..n]);
    } else if m > 0 {
      PositiveNumeral(d[..m]);
    } else if n > 0 {
      PositiveNumeral(e[..n]);
    }
  }

  lemma LastDigit(a: nat, x: nat, b: nat, y: nat)
    requires x < 10 && y < 10 && 10 * a + x == 10 * b + y
    ensures a == b && x == y
  {
  }

  lemma {:induction false} PositiveNumeral(d: string)
    requires Numeric(d) && d[0] != '0'
    ensures Value(d) > 0
  {
    if |d| > 1 {
      PositiveNumeral(d[..|d| - 1]);
    }
  }

  lemma LeadingZerosConfuse(rt: Runtime)
    requires Sane(rt)
    ensures ComparePart(rt, "1", "01") == Equal && !TotalPreorder(rt, {"1", "01"})
  {
    assert Value("1") == 1 by {
      assert "1"[..0] == "";
    }
    assert Value("01") == 1 by {
      assert "01"[..1] == "0" && "0"[..0] == "";
    }
    Confused(rt, {"1", "01"}, "1", "01");
  }

  // ----- Selection -----

  datatype IndexEntry = IndexEntry(minimumPiVersion: string, revision: string)

  datatype Index = Index(defaultRevision: string, catalogs: seq<IndexEntry>)

  datatype Selection = Threw | Selected(entry: Option<IndexEntry>)

  predicate Eligible(rt: Runtime, catalog: IndexEntry, requested: Version) {
    var minimum := rt.parse(catalog.minimumPiVersion);
    minimum.Some? && NotAfter(Compare(rt, minimum.value, requested))
  }

  /** `a` asks for a later version than `b`. */
  predicate Exceeds(rt: Runtime, a: IndexEntry, b: IndexEntry) {
    var x, y := rt.parse(a.minimumPiVersion), rt.parse(b.minimumPiVersion);
    x.Some? && y.Some? && Compare(rt, x.value, y.value).Greater?
  }

  /** The first entry with its minimum version, eligible, and exceeded by no eligible entry of the first `n`. */
  ghost predicate Best(rt: Runtime, catalogs: seq<IndexEntry>, n: nat, requested: Version, selected: Option<IndexEntry>)
    requires n <= |catalogs|
  {
    match selected
    case None => forall i :: 0 <= i < n ==> !Eligible(rt, catalogs[i], requested)
    case Some(e) =>
      && FirstAt(rt, catalogs, n, e) && Eligible(rt, e, requested)
      && forall i :: 0 <= i < n && Eligible(rt, catalogs[i], requested) ==> !Exceeds(rt, catalogs[i], e)
  }

  ghost predicate FirstAt(rt: Runtime, catalogs: seq<IndexEntry>, n: nat, e: IndexEntry)
    requires n <= |catalogs|
  {
    exists k :: 0 <= k < n && catalogs[k] == e
                && forall j :: 0 <= j < k ==> rt.parse(catalogs[j].minimumPiVersion) != rt.parse(e.minimumPiVersion)
  }

  lemma BestNext(rt: Runtime, catalogs: seq<IndexEntry>, n: nat, requested: Version, selected: Option<IndexEntry>)
    requires Sane(rt) && n < |catalogs| && Best(rt, catalogs, n, requested, selected)
    ensures Best(rt, catalogs, n + 1, requested,
                 if Eligible(rt, catalogs[n], requested) && (selected.None? || Exceeds(rt, catalogs[n], selected.value))
                 then Some(catalogs[n]) else selected)
  {
    var e := catalogs[n];
    if Eligible(rt, e, requested) && (selected.None? || Exceeds(rt, e, selected.value)) {
      forall j | 0 <= j < n ensures rt.parse(catalogs[j].minimumPiVersion) != rt.parse(e.minimumPiVersion) {
        assert !Eligible(rt, catalogs[j], requested) || (selected.Some? && !Exceeds(rt, catalogs[j], selected.value));
      }
      assert FirstAt(rt, catalogs, n + 1, e);
    }
    forall i | 0 <= i < n + 1 && Eligible(rt, e, requested) && Exceeds(rt, catalogs[i], e)
      ensures selected.Some? ==> !Exceeds(rt, e, selected.value) || Exceeds(rt, catalogs[i], selected.value)
      ensures catalogs[i] != e
    {
      var x, y := rt.parse(catalogs[i].minimumPiVersion).value, rt.parse(e.minimumPiVersion).value;
      Opposed(rt, x, y);
      if selected.Some? && Exceeds(rt, e, selected.value) {
        After(rt, x, y, rt.parse(selected.value.minimumPiVersion).value);
      }
    }
  }

  /** `minimum` does not exceed the version asked for. */
  predicate Reaches(rt: Runtime, minimum: Version, requested: Version) {
    Compare(rt, minimum, requested) == Less || Compare(rt, minimum, requested) == Equal
  }

  /** Some entry is selected if there is one to select, and none that could be has a later minimum version. */
  ghost predicate Highest(rt: Runtime, catalogs: seq<IndexEntry>, requested: Version, selected: Option<IndexEntry>)
    requires forall i :: 0 <= i < |catalogs| ==> rt.parse(catalogs[i].minimumPiVersion).Some?
  {
    match selected
    case None =>
      forall i :: 0 <= i < |catalogs| ==> !Reaches(rt, rt.parse(catalogs[i].minimumPiVersion).value, requested)
    case Some(e) =>
      && e in catalogs && Reaches(rt, rt.parse(e.minimumPiVersion).value, requested)
      && forall i :: 0 <= i < |catalogs| && Reaches(rt, rt.parse(catalogs[i].minimumPiVersion).value, requested) ==>
           Compare(rt, rt.parse(catalogs[i].minimumPiVersion).value, rt.parse(e.minimumPiVersion).value) != Greater
  }

  lemma BestIsHighest(rt: Runtime, catalogs: seq<IndexEntry>, requested: Version, selected: Option<IndexEntry>)
    requires forall i :: 0 <= i < |catalogs| ==> rt.parse(catalogs[i].minimumPiVersion).Some?
    requires Best(rt, catalogs, |catalogs|, requested, selected)
    ensures Highest(rt, catalogs, requested, selected)
  {
    forall i | 0 <= i < |catalogs|
      ensures Reaches(rt, rt.parse(catalogs[i].minimumPiVersion).value, requested) ==> Eligible(rt, catalogs[i], requested)
    {
    }
  }

  /**
   Of the entries whose minimum version the requested one reaches, a greatest: no eligible entry exceeds it,
   whatever identifiers the versions have.
   */
  method SelectModelCatalog(rt: Runtime, index: Index, piVersion: Option<string>) returns (r: Selection)
    requires Sane(rt)
    ensures r.Threw? <==> piVersion.Some? && rt.parse(piVersion.value).Some?
                          && exists i :: 0 <= i < |index.catalogs| && rt.parse(index.catalogs[i].minimumPiVersion).None?
    ensures piVersion.Some? && rt.parse(piVersion.value).None? ==> r == Selected(None)
    ensures piVersion.Some? && rt.parse(piVersion.value).Some? && r.Selected? ==>
              Best(rt, index.catalogs, |index.catalogs|, rt.parse(piVersion.value).value, r.entry)
    ensures piVersion.Some? && rt.parse(piVersion.value).Some? && r.Selected? ==>
              (forall i :: 0 <= i < |index.catalogs| ==> rt.parse(index.catalogs[i].minimumPiVersion).Some?)
              && Highest(rt, index.catalogs, rt.parse(piVersion.value).value, r.entry)
    ensures piVersion.None? ==>
              match r.entry
              case None => forall i :: 0 <= i < |index.catalogs| ==> index.catalogs[i].revision != index.defaultRevision
              case Some(e) => IsFirst(index, e)
  {
    if piVersion.None? {
      var i := 0;
      while i < |index.catalogs| && index.catalogs[i].revision != index.defaultRevision
        invariant i <= |index.catalogs|
        invariant forall j :: 0 <= j < i ==> index.catalogs[j].revision != index.defaultRevision
      {
        i := i + 1;
      }
      if i == |index.catalogs| {
        return Selected(None);
      }
      return Selected(Some(index.catalogs[i]));
    }
    var requested := rt.parse(piVersion.value);
    if requested.None? {
      return Selected(None);
    }
    var selected: Option<IndexEntry>, selectedVersion: Option<Version> := None, None;
    for i := 0 to |index.catalogs|
      invariant Best(rt, index.catalogs, i, requested.value, selected)
      invariant forall j :: 0 <= j < i ==> rt.parse(index.catalogs[j].minimumPiVersion).Some?
      invariant selectedVersion == if selected.None? then None else rt.parse(selected.value.minimumPiVersion)
    {
      var minimum := rt.parse(index.catalogs[i].minimumPiVersion);
      if minimum.None? {
        return Threw;
      }
      BestNext(rt, index.catalogs, i, requested.value, selected);
      var fits := ComparePiVersions(rt, minimum.value, requested.value);
      var better := Greater;
      if selectedVersion.Some? {
        better := ComparePiVersions(rt, minimum.value, selectedVersion.value);
      }
      if NotAfter(fits) && better.Greater? {
        selected, selectedVersion := Some(index.catalogs[i]), minimum;
      }
    }
    BestIsHighest(rt, index.catalogs, requested.value, selected);
    r := Selected(selected);
  }

  predicate IsFirst(index: Index, e: IndexEntry) {
    exists i :: 0 <= i < |index.catalogs| && index.catalogs[i] == e && e.revision == index.defaultRevision
                && forall j :: 0 <= j < i ==> index.catalogs[j].revision != index.defaultRevision
  }
}
