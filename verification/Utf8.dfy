/** Well-formed UTF-8, by the byte grammar of section 4 of RFC 3629. */
module Utf8 {
  import opened Messages

  predicate Tail(b: byte) { 0x80 <= b <= 0xBF }

  /** Length of the well-formed sequence `s` begins with, or 0. */
  function LeadLength(s: seq<byte>): (n: nat)
    ensures n <= |s| && n <= 4
  {
    if |s| >= 1 && s[0] <= 0x7F then 1
    else if |s| >= 2 && 0xC2 <= s[0] <= 0xDF && Tail(s[1]) then 2
    else if |s| >= 3 && Tail(s[2])
            && ((s[0] == 0xE0 && 0xA0 <= s[1] <= 0xBF) || (0xE1 <= s[0] <= 0xEC && Tail(s[1]))
                || (s[0] == 0xED && 0x80 <= s[1] <= 0x9F) || (0xEE <= s[0] <= 0xEF && Tail(s[1]))) then 3
    else if |s| >= 4 && Tail(s[2]) && Tail(s[3])
            && ((s[0] == 0xF0 && 0x90 <= s[1] <= 0xBF) || (0xF1 <= s[0] <= 0xF3 && Tail(s[1]))
                || (s[0] == 0xF4 && 0x80 <= s[1] <= 0x8F)) then 4
    else 0
  }

  predicate IsUtf8(s: seq<byte>) {
    s == [] || (LeadLength(s) > 0 && IsUtf8(s[LeadLength(s)..]))
  }

  /** A character begins at `i`, or the string ends there. */
  predicate Boundary(s: seq<byte>, i: nat) { i == |s| || (i < |s| && !Tail(s[i])) }

  lemma {:induction false} ByteAfterAscii(s: seq<byte>, i: nat)
    requires IsUtf8(s) && i < |s| && s[i] <= 0x7F
    ensures Boundary(s, i + 1)
    decreases |s|
  {
    var n := LeadLength(s);
    if n <= i {
      ByteAfterAscii(s[n..], i - n);
    } else {
      assert n == 1 && i == 0;
      if |s| > 1 { assert LeadLength(s[1..]) > 0; }
    }
  }

  // ---------------------------------------------------------------- scalar values

  /** A Unicode scalar value: any code point but a surrogate. */
  type Scalar = c: nat | c < 0x11_0000 && !(0xD800 <= c < 0xE000)

  /** A tail byte: six bits under the bits 10. */
  function TailByte(bits: nat): (b: byte)
    requires bits < 64
    ensures Tail(b)
  {
    0x80 + bits
  }

  /** The encoding of a scalar value, by section 3 of RFC 3629: its bits in groups of six. */
  function Encoded(c: Scalar): (s: seq<byte>)
    ensures 1 <= |s| <= 4
  {
    var last, high := c % 64, c / 64;
    var middle, higher := high % 64, high / 64;
    if c < 0x80 then
      var first: byte := c;
      [first]
    else if c < 0x800 then
      var first: byte := 0xC0 + high;
      [first, TailByte(last)]
    else if c < 0x1_0000 then
      var first: byte := 0xE0 + higher;
      [first, TailByte(middle), TailByte(last)]
    else
      var first: byte := 0xF0 + higher / 64;
      [first, TailByte(higher % 64), TailByte(middle), TailByte(last)]
  }

  function EncodedAll(cs: seq<Scalar>): seq<byte> {
    if cs == [] then [] else Encoded(cs[0]) + EncodedAll(cs[1..])
  }

  lemma LeadOfEncoded(c: Scalar, tail: seq<byte>)
    ensures LeadLength(Encoded(c) + tail) == |Encoded(c)|
  {
    var code := Encoded(c);
    var s := code + tail;
    assert forall k :: 0 <= k < |code| ==> s[k] == code[k];
  }

  /** `high` groups of six bits, followed by the group in `b`. */
  function Join(high: nat, b: byte): nat
    requires Tail(b)
  {
    64 * high + (b - 0x80)
  }

  lemma JoinSplits(high: nat, b: byte)
    requires Tail(b)
    ensures Join(high, b) / 64 == high && Join(high, b) % 64 == b - 0x80 && TailByte(b - 0x80) == b
  {
  }

  /** Every well-formed sequence encodes a scalar value. */
  lemma LeadIsEncoded(s: seq<byte>) returns (c: Scalar)
    requires LeadLength(s) > 0
    ensures Encoded(c) == s[..LeadLength(s)]
  {
    var n := LeadLength(s);
    if n == 1 {
      c := s[0];
    } else if n == 2 {
      JoinSplits(s[0] - 0xC0, s[1]);
      c := Join(s[0] - 0xC0, s[1]);
    } else if n == 3 {
      JoinSplits(s[0] - 0xE0, s[1]);
      var high := Join(s[0] - 0xE0, s[1]);
      JoinSplits(high, s[2]);
      c := Join(high, s[2]);
    } else {
      JoinSplits(s[0] - 0xF0, s[1]);
      var higher := Join(s[0] - 0xF0, s[1]);
      JoinSplits(higher, s[2]);
      var high := Join(higher, s[2]);
      JoinSplits(high, s[3]);
      c := Join(high, s[3]);
    }
  }

  lemma {:induction false} EncodedIsUtf8(cs: seq<Scalar>)
    ensures IsUtf8(EncodedAll(cs))
  {
    if cs != [] {
      LeadOfEncoded(cs[0], EncodedAll(cs[1..]));
      EncodedIsUtf8(cs[1..]);
    }
  }

  lemma {:induction false} Utf8IsEncoded(s: seq<byte>) returns (cs: seq<Scalar>)
    requires IsUtf8(s)
    ensures s == EncodedAll(cs)
  {
    hide LeadLength;
    cs := [];
    if s != [] {
      var first := LeadIsEncoded(s);
      var others := Utf8IsEncoded(s[LeadLength(s)..]);
      cs := [first] + others;
      assert cs[1..] == others;
    }
  }

  /** The byte grammar accepts exactly the encodings of sequences of scalar values. */
  lemma Utf8ExactlyWhen(s: seq<byte>)
    ensures IsUtf8(s) <==> exists cs :: s == EncodedAll(cs)
  {
    if IsUtf8(s) { var cs := Utf8IsEncoded(s); }
    forall cs | s == EncodedAll(cs) ensures IsUtf8(s) { EncodedIsUtf8(cs); }
  }
}
