/** The duration parser of the command line (src/cli.rs): a checked 128-bit loop over the characters,
    proved to accept exactly a grammar, at its unbounded value. */
module Durations {
  import opened Base
  import opened Messages
  import opened Utf8
  import opened Decimals

  // ---------------------------------------------------------------- the grammar

  datatype Unit = Nanos | Micros | MicroSign | GreekMu | Millis | Seconds | Minutes | Hours

  /** The last byte of every unit but the hour and the minute is "s"; the two mu are the UTF-8 of
      U+00B5 and U+03BC. */
  function UnitText(u: Unit): (s: seq<byte>)
    ensures 1 <= |s| <= 3
  {
    match u
    case Nanos => [0x6E, 0x73]
    case Micros => [0x75, 0x73]
    case MicroSign => [0xC2, 0xB5, 0x73]
    case GreekMu => [0xCE, 0xBC, 0x73]
    case Millis => [0x6D, 0x73]
    case Seconds => [0x73]
    case Minutes => [0x6D]
    case Hours => [0x68]
  }

  function UnitNanos(u: Unit): (n: nat)
    ensures 1 <= n <= 3_600_000_000_000
  {
    match u
    case Nanos => 1
    case Micros => 1_000
    case MicroSign => 1_000
    case GreekMu => 1_000
    case Millis => 1_000_000
    case Seconds => 1_000_000_000
    case Minutes => 60_000_000_000
    case Hours => 3_600_000_000_000
  }

  function PointText(dotted: bool, fraction: seq<byte>): seq<byte> { if dotted then [0x2E] + fraction else [] }

  /** A number with an optional point: "1", "1.", "1.5" and ".5", but not ".". */
  datatype Number = Number(integer: Digits, dotted: bool, fraction: Digits) {
    predicate Proper() { (integer != [] || fraction != []) && (!dotted ==> fraction == []) }

    function Text(): seq<byte> { integer + PointText(dotted, fraction) }
  }

  datatype Segment = Segment(number: Number, unit: Unit) {
    function Text(): seq<byte> { number.Text() + UnitText(unit) }
  }

  predicate Proper(segments: seq<Segment>) {
    forall k :: 0 <= k < |segments| ==> segments[k].number.Proper()
  }

  function Text(segments: seq<Segment>): seq<byte> {
    if segments == [] then [] else segments[0].Text() + Text(segments[1..])
  }

  /** What the conversion of a fraction through floating point yields: the value and the power of ten
      of its kept digits, and the unit, to whole nanoseconds. */
  type Rounding = (nat, nat, nat) -> u128

  type u128 = x: nat | x < U128

  ghost function Kept(digits: Digits): (kept: nat)
    ensures Longest(digits, kept)
  {
    LongestExists(digits, |digits|);
    var kept :| Longest(digits, kept);
    kept
  }

  lemma {:induction false} LongestExists(digits: Digits, k: nat)
    requires k <= |digits| && (k < |digits| ==> Decimal(digits[..k + 1]) > I64_MAX + 1)
    ensures exists kept: nat :: Longest(digits, kept)
  {
    if Decimal(digits[..k]) <= I64_MAX + 1 { assert Longest(digits, k); } else { LongestExists(digits, k - 1); }
  }

  ghost function Fractional(digits: Digits, unit: nat, rounding: Rounding): nat {
    if digits == [] then 0 else rounding(Decimal(digits[..Kept(digits)]), Kept(digits), unit)
  }

  ghost function Worth(segment: Segment, rounding: Rounding): nat {
    Decimal(segment.number.integer) * UnitNanos(segment.unit)
    + Fractional(segment.number.fraction, UnitNanos(segment.unit), rounding)
  }

  ghost function Total(segments: seq<Segment>, rounding: Rounding): nat {
    if segments == [] then 0 else Worth(segments[0], rounding) + Total(segments[1..], rounding)
  }

  // ---------------------------------------------------------------- reading the grammar

  lemma RegroupText(s: seq<byte>, first: seq<byte>, after: seq<byte>, second: seq<byte>, rest: seq<byte>)
    requires s == first + after && after == second + rest
    ensures s == first + second + rest
  {
  }

  datatype Taken<T> = Taken(value: T, rest: seq<byte>)

  /** The length of the digits `s` begins with. */
  function DigitCount(s: seq<byte>): (n: nat)
    ensures n <= |s| && AllDigits(s[..n]) && (n < |s| ==> !IsDigit(s[n]))
  {
    if s == [] || !IsDigit(s[0]) then 0 else 1 + DigitCount(s[1..])
  }

  datatype Point = Point(dotted: bool, fraction: Digits, rest: seq<byte>)

  /** The point and the digits after it, if `s` begins with a point. */
  function ReadPoint(s: seq<byte>): (p: Point)
    ensures s == PointText(p.dotted, p.fraction) + p.rest && (!p.dotted ==> p.fraction == [])
  {
    if s == [] || s[0] != 0x2E then Point(false, [], s)
    else
      var n := DigitCount(s[1..]);
      Point(true, s[1..][..n], s[1..][n..])
  }

  function ReadDecimal(s: seq<byte>): (r: Option<Taken<Number>>)
    ensures r.Some? ==> r.value.value.Proper() && s == r.value.value.Text() + r.value.rest
  {
    hide DigitCount;
    hide ReadPoint;
    hide PointText;
    var i := DigitCount(s);
    var point := ReadPoint(s[i..]);
    var number := Number(s[..i], point.dotted, point.fraction);
    if !number.Proper() then None
    else
      RegroupText(s, s[..i], s[i..], PointText(point.dotted, point.fraction), point.rest);
      Some(Taken(number, point.rest))
  }

  /** The order in which the units are tried. */
  const UNITS: seq<Unit> := [Nanos, Micros, MicroSign, GreekMu, Millis, Seconds, Minutes, Hours]

  /** The first of `units` that `s` begins with. */
  function FirstUnit(s: seq<byte>, units: seq<Unit>): (r: Option<Unit>)
    ensures r.Some? ==> UnitText(r.value) <= s
  {
    if units == [] then None
    else if UnitText(units[0]) <= s then Some(units[0])
    else FirstUnit(s, units[1..])
  }

  lemma {:induction false} NothingFirst(s: seq<byte>, units: seq<Unit>, k: nat)
    requires k < |units| && UnitText(units[k]) <= s && forall j :: 0 <= j < k ==> !(UnitText(units[j]) <= s)
    ensures FirstUnit(s, units) == Some(units[k])
    decreases k
  {
    hide UnitText;
    if k > 0 { NothingFirst(s, units[1..], k - 1); }
  }

  function ReadSegment(s: seq<byte>): (r: Option<Taken<Segment>>)
    ensures r.Some? ==> r.value.value.number.Proper() && s == r.value.value.Text() + r.value.rest
  {
    hide ReadDecimal;
    hide PointText;
    hide FirstUnit;
    hide UnitText;
    match ReadDecimal(s)
    case None => None
    case Some(number) =>
      match FirstUnit(number.rest, UNITS)
      case None => None
      case Some(unit) =>
        var rest := number.rest[|UnitText(unit)|..];
        RegroupText(s, number.value.Text(), number.rest, UnitText(unit), rest);
        Some(Taken(Segment(number.value, unit), rest))
  }

  lemma TextOfCons(first: Segment, others: seq<Segment>)
    requires first.number.Proper() && Proper(others)
    ensures Text([first] + others) == first.Text() + Text(others) && Proper([first] + others)
  {
    assert ([first] + others)[1..] == others;
  }

  function ReadSegments(s: seq<byte>): (r: Option<seq<Segment>>)
    ensures r.Some? ==> Proper(r.value) && s == Text(r.value)
    decreases |s|
  {
    hide ReadSegment;
    hide Proper;
    hide UnitText;
    hide PointText;
    if s == [] then Some([])
    else
      match ReadSegment(s)
      case None => None
      case Some(first) =>
        match ReadSegments(first.rest)
        case None => None
        case Some(others) =>
          TextOfCons(first.value, others);
          Some([first.value] + others)
  }

  // ---------------------------------------------------------------- the grammar is unambiguous

  predicate Ends(tail: seq<byte>) { tail == [] || (!IsDigit(tail[0]) && tail[0] != 0x2E) }

  /** What may follow a unit. */
  predicate Follows(tail: seq<byte>) { tail == [] || IsDigit(tail[0]) || tail[0] == 0x2E }

  lemma {:induction false} DigitCountRoundTrip(digits: Digits, tail: seq<byte>)
    requires tail == [] || !IsDigit(tail[0])
    ensures DigitCount(digits + tail) == |digits|
  {
    if digits == [] {
      assert digits + tail == tail;
    } else {
      assert (digits + tail)[1..] == digits[1..] + tail;
      DigitCountRoundTrip(digits[1..], tail);
    }
  }

  lemma NumberIsPieces(s: seq<byte>, end: nat)
    requires end == DigitCount(s)
    ensures var point := ReadPoint(s[end..]);
            var number := Number(s[..end], point.dotted, point.fraction);
            ReadDecimal(s) == if number.Proper() then Some(Taken(number, point.rest)) else None
  {
  }

  lemma PointRoundTrip(n: Number, tail: seq<byte>)
    requires Ends(tail) && (!n.dotted ==> n.fraction == [])
    ensures ReadPoint(PointText(n.dotted, n.fraction) + tail) == Point(n.dotted, n.fraction, tail)
  {
    if n.dotted {
      assert ([0x2E] + n.fraction + tail)[1..] == n.fraction + tail;
      DigitCountRoundTrip(n.fraction, tail);
    } else {
      assert [] + tail == tail;
    }
  }

  lemma NumberRoundTrip(n: Number, tail: seq<byte>)
    requires n.Proper() && Ends(tail)
    ensures ReadDecimal(n.Text() + tail) == Some(Taken(n, tail))
  {
    hide ReadDecimal;
    hide ReadPoint;
    hide DigitCount;
    var after := PointText(n.dotted, n.fraction) + tail;
    assert n.Text() + tail == n.integer + after;
    DigitCountRoundTrip(n.integer, after);
    NumberIsPieces(n.integer + after, |n.integer|);
    PointRoundTrip(n, tail);
  }

  /** Only the minute's unit begins another one. */
  lemma UnitsClash(u: Unit, v: Unit, tail: seq<byte>)
    requires UnitText(v) <= UnitText(u) + tail && Follows(tail)
    ensures v == u || (u == Millis && v == Minutes)
  {
    var s := UnitText(u) + tail;
    assert s[0] == UnitText(v)[0];
    assert |UnitText(v)| > 1 ==> s[1] == UnitText(v)[1];
  }

  /** The place of a unit in the order. */
  function PlaceOf(u: Unit): (k: nat)
    ensures k < |UNITS| && UNITS[k] == u
  {
    match u
    case Nanos => 0
    case Micros => 1
    case MicroSign => 2
    case GreekMu => 3
    case Millis => 4
    case Seconds => 5
    case Minutes => 6
    case Hours => 7
  }

  lemma PlaceIsUnique(k: nat)
    requires k < |UNITS|
    ensures PlaceOf(UNITS[k]) == k
  {
  }

  /** Because "ms" is tried before "m", the first match is never a mis-split. */
  lemma UnitRoundTrip(u: Unit, tail: seq<byte>)
    requires Follows(tail)
    ensures FirstUnit(UnitText(u) + tail, UNITS) == Some(u)
  {
    hide UnitText;
    hide UNITS;
    var s := UnitText(u) + tail;
    forall j | 0 <= j < PlaceOf(u) ensures !(UnitText(UNITS[j]) <= s) {
      PlaceIsUnique(j);
      if UnitText(UNITS[j]) <= s { UnitsClash(u, UNITS[j], tail); }
    }
    NothingFirst(s, UNITS, PlaceOf(u));
  }

  lemma SegmentRoundTrip(segment: Segment, tail: seq<byte>)
    requires segment.number.Proper() && Follows(tail)
    ensures ReadSegment(segment.Text() + tail) == Some(Taken(segment, tail))
  {
    hide ReadDecimal;
    hide FirstUnit;
    var unit := UnitText(segment.unit);
    assert segment.Text() + tail == segment.number.Text() + (unit + tail);
    NumberRoundTrip(segment.number, unit + tail);
    UnitRoundTrip(segment.unit, tail);
    assert (unit + tail)[|unit|..] == tail;
  }

  lemma TextFollows(segments: seq<Segment>)
    requires Proper(segments)
    ensures Follows(Text(segments))
  {
  }

  lemma {:induction false} SegmentsRoundTrip(segments: seq<Segment>)
    requires Proper(segments)
    ensures ReadSegments(Text(segments)) == Some(segments)
  {
    hide ReadSegment;
    if segments != [] {
      TextFollows(segments[1..]);
      SegmentRoundTrip(segments[0], Text(segments[1..]));
      SegmentsRoundTrip(segments[1..]);
      assert segments == [segments[0]] + segments[1..];
    }
  }

  /** A text decomposes into segments in at most one way. */
  lemma TextIsUnambiguous(segments: seq<Segment>, others: seq<Segment>)
    requires Proper(segments) && Proper(others) && Text(segments) == Text(others)
    ensures segments == others
  {
    SegmentsRoundTrip(segments);
    SegmentsRoundTrip(others);
  }

  // ---------------------------------------------------------------- parse_duration

  /** The digits from `start` on. */
  method SkipDigits(s: seq<byte>, start: nat) returns (i: nat)
    requires start <= |s|
    ensures start <= i <= |s| && i == start + DigitCount(s[start..]) && AllDigits(s[start..i])
    ensures s[start..][..i - start] == s[start..i] && s[start..][i - start..] == s[i..]
  {
    i := start;
    while i < |s| && IsDigit(s[i])
      invariant start <= i <= |s| && DigitCount(s[start..]) == i - start + DigitCount(s[i..])
    {
      assert s[i..][1..] == s[i + 1..];
      i := i + 1;
    }
    assert s[start..][..i - start] == s[start..i];
  }

  method TakePoint(s: seq<byte>, start: nat) returns (dotted: bool, fraction: Digits, index: nat)
    requires start <= |s|
    ensures start <= index <= |s| && ReadPoint(s[start..]) == Point(dotted, fraction, s[index..])
    ensures start < index ==> IsDigit(s[index - 1]) || s[index - 1] == 0x2E
    ensures start == index ==> fraction == []
  {
    dotted, fraction, index := start < |s| && s[start] == 0x2E, [], start;
    if dotted {
      assert s[start..][1..] == s[start + 1..];
      index := SkipDigits(s, start + 1);
      fraction := s[start + 1..index];
    }
  }

  method TakeNumber(s: seq<byte>, start: nat) returns (r: Option<Number>, index: nat)
    requires start <= |s|
    ensures match ReadDecimal(s[start..])
            case None => r == None
            case Some(got) =>
              && r == Some(got.value) && start < index <= |s| && s[index..] == got.rest
              && (IsDigit(s[index - 1]) || s[index - 1] == 0x2E)
  {
    hide ReadDecimal;
    hide ReadPoint;
    hide DigitCount;
    var end := SkipDigits(s, start);
    NumberIsPieces(s[start..], end - start);
    var integer: Digits := s[start..end];
    var dotted, fraction;
    dotted, fraction, index := TakePoint(s, end);
    if integer == [] && fraction == [] { return None, index; }
    r := Some(Number(integer, dotted, fraction));
  }

  /** The unit at `index`, where the source slices its string: that must be a character boundary. */
  method TakeUnit(s: seq<byte>, index: nat) returns (r: Option<Unit>)
    requires index <= |s| && Boundary(s, index)
    ensures r == FirstUnit(s[index..], UNITS)
  {
    var k := 0;
    while k < |UNITS|
      invariant k <= |UNITS| && FirstUnit(s[index..], UNITS) == FirstUnit(s[index..], UNITS[k..])
    {
      if UnitText(UNITS[k]) <= s[index..] { return Some(UNITS[k]); }
      assert UNITS[k..][1..] == UNITS[k + 1..];
      k := k + 1;
    }
    r := None;
  }

  lemma IntegerTooLarge(integer: nat, unit: nat)
    requires integer >= U128 && unit >= 1
    ensures integer * unit >= U128
  {
  }

  /** Adds one segment's worth, checking every step against 128 bits. */
  method AddSegment(total: u128, segment: Segment, rounding: Rounding) returns (r: Option<u128>)
    ensures var sum := total + Worth(segment, rounding); r == if sum < U128 then Some(sum) else None
  {
    var unit := UnitNanos(segment.unit);
    var integer := ParseInteger(segment.number.integer);
    if integer.None? {
      IntegerTooLarge(Decimal(segment.number.integer), unit);
      return None;
    }
    if integer.value * unit >= U128 { return None; }
    var sum := total + integer.value * unit;
    if sum >= U128 { return None; }
    if segment.number.fraction != [] {
      var value, kept := ParseFraction(segment.number.fraction);
      LongestIsUnique(segment.number.fraction, kept, Kept(segment.number.fraction));
      sum := sum + rounding(value, kept, unit);
      if sum >= U128 { return None; }
    }
    r := Some(sum);
  }

  predicate ValidTimeout(total: nat) { MIN_TIMEOUT <= total <= MAX_TIMEOUT }

  /** `done`, then whatever the rest reads as. */
  ghost function Then(done: seq<Segment>, rest: Option<seq<Segment>>): Option<seq<Segment>> {
    match rest
    case None => None
    case Some(more) => Some(done + more)
  }

  /** What a string of segments is worth, if that is in range. */
  ghost function Evaluate(segments: Option<seq<Segment>>, rounding: Rounding): Option<nat> {
    match segments
    case None => None
    case Some(all) => if all != [] && ValidTimeout(Total(all, rounding)) then Some(Total(all, rounding)) else None
  }

  /** The whole of `s` but a sign. */
  function Unsigned(s: seq<byte>): seq<byte> { if s != [] && s[0] == 0x2B then s[1..] else s }

  ghost function Meaning(s: seq<byte>, rounding: Rounding): Option<nat> {
    Evaluate(ReadSegments(Unsigned(s)), rounding)
  }

  lemma {:induction false} TotalConcat(done: seq<Segment>, more: seq<Segment>, rounding: Rounding)
    ensures Total(done + more, rounding) == Total(done, rounding) + Total(more, rounding)
  {
    if done == [] {
      assert done + more == more;
    } else {
      assert (done + more)[1..] == done[1..] + more;
      TotalConcat(done[1..], more, rounding);
    }
  }

  lemma TotalOfOne(segment: Segment, rounding: Rounding)
    ensures Total([segment], rounding) == Worth(segment, rounding)
  {
    assert [segment][1..] == [];
  }

  /** Reading on: one segment moves from the rest to the part done. */
  lemma ThenNext(done: seq<Segment>, s: seq<byte>)
    requires s != []
    ensures Then(done, ReadSegments(s)) ==
            match ReadSegment(s)
            case None => None
            case Some(first) => Then(done + [first.value], ReadSegments(first.rest))
  {
    hide ReadSegment;
    if ReadSegment(s).Some? && ReadSegments(ReadSegment(s).value.rest).Some? {
      var first := ReadSegment(s).value;
      var others := ReadSegments(first.rest).value;
      assert done + ([first.value] + others) == done + [first.value] + others;
    }
  }

  /** A partial total past 128 bits can only belong to a string that is out of range anyway. */
  lemma OverflowIsOutOfRange(done: seq<Segment>, rest: Option<seq<Segment>>, rounding: Rounding)
    requires Total(done, rounding) >= U128
    ensures Evaluate(Then(done, rest), rounding) == None
  {
    hide Total;
    hide Worth;
    if rest.Some? { TotalConcat(done, rest.value, rounding); }
  }

  lemma MinusIsNoNumber(s: seq<byte>)
    requires s != [] && s[0] == 0x2D
    ensures ReadSegments(s) == None
  {
    assert ReadDecimal(s) == None;
  }

  lemma ThenNothing(rest: Option<seq<Segment>>)
    ensures Then([], rest) == rest
  {
    if rest.Some? { assert [] + rest.value == rest.value; }
  }

  /** One segment, up to where its worth is added. */
  method TakeSegment(s: seq<byte>, start: nat) returns (r: Option<Segment>, index: nat)
    requires IsUtf8(s) && start <= |s|
    ensures match ReadSegment(s[start..])
            case None => r == None
            case Some(got) => r == Some(got.value) && start < index <= |s| && s[index..] == got.rest
  {
    hide ReadDecimal;
    hide FirstUnit;
    hide IsUtf8;
    hide Text;
    var number;
    number, index := TakeNumber(s, start);
    if number.None? { return None, index; }
    ByteAfterAscii(s, index - 1);
    var unit := TakeUnit(s, index);
    if unit.None? { return None, index; }
    var length := |UnitText(unit.value)|;
    assert s[index..][length..] == s[index + length..];
    index := index + length;
    r := Some(Segment(number.value, unit.value));
  }

  /** The loop of `parse_duration`. */
  method SumSegments(s: seq<byte>, start: nat, rounding: Rounding) returns (r: Option<nat>)
    requires IsUtf8(s) && start < |s|
    ensures r == Evaluate(ReadSegments(s[start..]), rounding)
  {
    hide ReadSegment;
    hide ReadSegments;
    hide Total;
    ghost var goal := ReadSegments(s[start..]);
    ghost var done := [];
    var index, total: u128 := start, 0;
    ThenNothing(goal);
    TotalOfNone(rounding);
    while index < |s|
      invariant start <= index <= |s| && goal == Then(done, ReadSegments(s[index..]))
      invariant total == Total(done, rounding)
      invariant index == |s| ==> done != []
    {
      ThenNext(done, s[index..]);
      var segment;
      segment, index := TakeSegment(s, index);
      if segment.None? { return None; }
      TotalConcat(done, [segment.value], rounding);
      TotalOfOne(segment.value, rounding);
      done := done + [segment.value];
      var sum := AddSegment(total, segment.value, rounding);
      if sum.None? {
        OverflowIsOutOfRange(done, ReadSegments(s[index..]), rounding);
        return None;
      }
      total := sum.value;
    }
    ThenEnds(done, s[index..]);
    r := if ValidTimeout(total) then Some(total) else None;
  }

  lemma TotalOfNone(rounding: Rounding)
    ensures Total([], rounding) == 0
  {
  }

  lemma ThenEnds(done: seq<Segment>, s: seq<byte>)
    requires s == []
    ensures Then(done, ReadSegments(s)) == Some(done)
  {
    assert done + [] == done;
  }

  /** `parse_duration`. */
  method ParseDuration(s: seq<byte>, rounding: Rounding) returns (r: Option<nat>)
    requires IsUtf8(s)
    ensures r == Meaning(s, rounding)
  {
    if s != [] && s[0] == 0x2D {
      MinusIsNoNumber(s);
      return None;
    }
    var index := if s != [] && s[0] == 0x2B then 1 else 0;
    assert s[index..] == Unsigned(s);
    if index == |s| { return None; }
    r := SumSegments(s, index, rounding);
  }

  /** The grammar: an optional plus sign and one or more segments. */
  predicate Spells(s: seq<byte>, plus: bool, segments: seq<Segment>) {
    segments != [] && Proper(segments) && s == (if plus then [0x2B] else []) + Text(segments)
  }

  lemma SpellingIsRead(s: seq<byte>, plus: bool, segments: seq<Segment>)
    requires Spells(s, plus, segments)
    ensures ReadSegments(Unsigned(s)) == Some(segments)
  {
    hide ReadSegments;
    SegmentsRoundTrip(segments);
    TextFollows(segments);
    assert if plus then s[1..] == Text(segments) else s == Text(segments);
  }

  /** Exactly the strings of the grammar whose unbounded total is in range are accepted, at that total. */
  lemma MeaningIsGrammar(s: seq<byte>, total: nat, rounding: Rounding)
    ensures Meaning(s, rounding) == Some(total) <==>
            && ValidTimeout(total)
            && exists plus, segments :: Spells(s, plus, segments) && total == Total(segments, rounding)
  {
    hide Total;
    hide ReadSegments;
    hide Text;
    if Meaning(s, rounding) == Some(total) {
      var plus := s != [] && s[0] == 0x2B;
      var segments := ReadSegments(Unsigned(s)).value;
      assert Spells(s, plus, segments);
    }
    forall plus, segments | Spells(s, plus, segments) && total == Total(segments, rounding) && ValidTimeout(total)
      ensures Meaning(s, rounding) == Some(total)
    {
      SpellingIsRead(s, plus, segments);
    }
  }

  // ---------------------------------------------------------------- what texts are worth

  lemma SegmentIsRead(segment: Segment, rounding: Rounding)
    requires segment.number.Proper()
    ensures var total := Worth(segment, rounding);
            Meaning(segment.Text(), rounding) == if ValidTimeout(total) then Some(total) else None
  {
    hide Worth;
    hide ReadSegments;
    var segments := [segment];
    assert Text(segments) == segment.Text() by { assert segments[1..] == []; }
    assert Spells(segment.Text(), false, segments);
    SpellingIsRead(segment.Text(), false, segments);
    TotalOfOne(segment, rounding);
  }

  /** The text of `n` whole units. */
  function Whole(n: nat, unit: seq<byte>): seq<byte> { Numeral(n) + unit }

  lemma WholeIsRead(n: nat, u: Unit, rounding: Rounding)
    ensures var total := n * UnitNanos(u);
            Meaning(Whole(n, UnitText(u)), rounding) == if ValidTimeout(total) then Some(total) else None
  {
    hide Meaning;
    hide Numeral;
    hide UnitText;
    hide UnitNanos;
    hide Decimal;
    var segment := Segment(Number(Numeral(n), false, []), u);
    assert segment.Text() == Whole(n, UnitText(u));
    NumeralRoundTrip(n);
    SegmentIsRead(segment, rounding);
  }

  /** The units are related as everybody expects, the micro in all three spellings, and nanoseconds count
      one each, from one second to ten minutes. */
  lemma UnitsRelate(n: nat, rounding: Rounding)
    ensures Meaning(Whole(n, [0x6E, 0x73]), rounding)
            == if 1_000_000_000 <= n <= 600_000_000_000 then Some(n) else None
    ensures Meaning(Whole(n, [0x75, 0x73]), rounding) == Meaning(Whole(1000 * n, [0x6E, 0x73]), rounding)
    ensures Meaning(Whole(n, [0xC2, 0xB5, 0x73]), rounding) == Meaning(Whole(n, [0x75, 0x73]), rounding)
    ensures Meaning(Whole(n, [0xCE, 0xBC, 0x73]), rounding) == Meaning(Whole(n, [0x75, 0x73]), rounding)
    ensures Meaning(Whole(n, [0x6D, 0x73]), rounding) == Meaning(Whole(1000 * n, [0x75, 0x73]), rounding)
    ensures Meaning(Whole(n, [0x73]), rounding) == Meaning(Whole(1000 * n, [0x6D, 0x73]), rounding)
    ensures Meaning(Whole(n, [0x6D]), rounding) == Meaning(Whole(60 * n, [0x73]), rounding)
    ensures Meaning(Whole(n, [0x68]), rounding) == Meaning(Whole(60 * n, [0x6D]), rounding)
  {
    hide Meaning;
    hide Whole;
    WholeIsRead(n, Nanos, rounding);
    Multiple(n, Micros, 1000, Nanos, rounding);
    Multiple(n, MicroSign, 1, Micros, rounding);
    Multiple(n, GreekMu, 1, Micros, rounding);
    Multiple(n, Millis, 1000, Micros, rounding);
    Multiple(n, Seconds, 1000, Millis, rounding);
    Multiple(n, Minutes, 60, Seconds, rounding);
    Multiple(n, Hours, 60, Minutes, rounding);
  }

  lemma Multiple(n: nat, u: Unit, times: nat, v: Unit, rounding: Rounding)
    requires UnitNanos(u) == times * UnitNanos(v)
    ensures Meaning(Whole(n, UnitText(u)), rounding) == Meaning(Whole(times * n, UnitText(v)), rounding)
  {
    hide Meaning;
    hide Whole;
    hide UnitText;
    WholeIsRead(n, u, rounding);
    WholeIsRead(times * n, v, rounding);
    assert n * (times * UnitNanos(v)) == times * n * UnitNanos(v);
  }

  lemma KeptFits(digits: Digits)
    ensures Kept(digits) <= |digits|
  {
  }

  /** A fraction adds the conversion of its digits, all of them if there are at most eighteen, to the whole. */
  lemma FractionIsRead(n: nat, digits: Digits, u: Unit, rounding: Rounding)
    requires 0 < |digits| <= 18
    ensures var total := n * UnitNanos(u) + rounding(Decimal(digits), |digits|, UnitNanos(u));
            Meaning(Numeral(n) + [0x2E] + digits + UnitText(u), rounding)
            == if ValidTimeout(total) then Some(total) else None
  {
    hide Meaning;
    hide Numeral;
    hide UnitText;
    hide UnitNanos;
    hide Decimal;
    hide Longest;
    var segment := Segment(Number(Numeral(n), true, digits), u);
    assert segment.Text() == Numeral(n) + [0x2E] + digits + UnitText(u);
    NumeralRoundTrip(n);
    var kept := Kept(digits);
    if kept < |digits| { EighteenAreKept(digits, kept); }
    assert kept == |digits| by { KeptFits(digits); }
    assert digits[..|digits|] == digits;
    SegmentIsRead(segment, rounding);
  }
}
