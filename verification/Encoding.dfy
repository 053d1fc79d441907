/** The byte encodings of the protocol (src/protocol.rs) as functions, and what makes them readable. */
module Encoding {
  import opened Base
  import opened Messages
  import opened Utf8

  const MAX_PAYLOAD: nat := 2 * 1024 * 1024
  const U32: nat := 0x1_0000_0000
  const MAX_ARGUMENTS: nat := 256
  const MAX_ARGUMENT_BYTES: nat := 65_536

  // ---------------------------------------------------------------- numbers

  function Power(width: nat): (p: nat)
    ensures p > 0
  {
    if width == 0 then 1 else 256 * Power(width - 1)
  }

  /** `n` in `width` bytes, most significant first. */
  function BigEndian(n: nat, width: nat): (s: seq<byte>)
    ensures |s| == width
  {
    if width == 0 then [] else BigEndian(n / 256, width - 1) + [n % 256]
  }

  function Value(s: seq<byte>): nat {
    if s == [] then 0 else 256 * Value(s[..|s| - 1]) + s[|s| - 1]
  }

  lemma {:induction false} ValueOfBigEndian(n: nat, width: nat)
    requires n < Power(width)
    ensures Value(BigEndian(n, width)) == n
  {
    if width > 0 {
      ValueOfBigEndian(n / 256, width - 1);
      assert BigEndian(n, width)[..width - 1] == BigEndian(n / 256, width - 1);
    }
  }

  lemma {:induction false} BigEndianOfValue(s: seq<byte>)
    ensures Value(s) < Power(|s|) && BigEndian(Value(s), |s|) == s
  {
    if s != [] {
      BigEndianOfValue(s[..|s| - 1]);
      assert s == s[..|s| - 1] + [s[|s| - 1]];
    }
  }

  /** Byte `k` of a fixed-width number is the digit of its place to the base 256. */
  lemma {:induction false} BigEndianPlaces(n: nat, width: nat, k: nat)
    requires k < width
    ensures BigEndian(n, width)[k] == n / Power(width - 1 - k) % 256
    decreases width
  {
    var high := BigEndian(n / 256, width - 1);
    assert BigEndian(n, width) == high + [n % 256];
    hide BigEndian;
    if k < width - 1 {
      BigEndianPlaces(n / 256, width - 1, k);
      PlaceAbove(n, Power(width - 2 - k));
      assert Power(width - 1 - k) == 256 * Power(width - 2 - k);
    }
  }

  lemma PlaceAbove(n: nat, p: nat)
    requires p > 0
    ensures n / 256 / p == n / (256 * p)
  {
    var q := n / 256 / p;
    var r, low := n / 256 % p, n % 256;
    assert n == 256 * (q * p + r) + low;
    assert n == q * (256 * p) + (256 * r + low);
    assert 256 * r + low < 256 * p;
    QuotientIs(n, 256 * p, q, 256 * r + low);
  }

  lemma QuotientIs(n: nat, d: nat, q: nat, r: nat)
    requires d > 0 && n == q * d + r && r < d
    ensures n / d == q
  {
    var x: int := n / d - q;
    assert x * d == r - n % d;
    assert (x >= 1 ==> x * d >= d) && (x < 0 ==> x * d + d <= 0);
  }

  lemma Powers()
    ensures Power(1) == 256 && Power(2) == 65_536 && Power(4) == U32 && Power(8) == 0x1_0000_0000_0000_0000
  {
    assert Power(3) == 16_777_216;
    assert Power(5) == 256 * U32;
    assert Power(6) == 65_536 * U32;
    assert Power(7) == 16_777_216 * U32;
  }

  // ---------------------------------------------------------------- fields

  function Field(v: seq<byte>): (s: seq<byte>)
    ensures |s| == 4 + |v|
  {
    BigEndian(|v|, 4) + v
  }

  function AccountBytes(a: Account): seq<byte> {
    match a.selector
    case None => [0]
    case Some(s) => [1] + Field(s)
  }

  function EntryBytes(e: Entry): (s: seq<byte>)
    ensures |s| == 8 + |e.key| + |e.value|
  {
    Field(e.key) + Field(e.value)
  }

  /** One encoding after the other. */
  function Concat<T>(encode: T -> seq<byte>, xs: seq<T>): seq<byte> {
    if xs == [] then [] else encode(xs[0]) + Concat(encode, xs[1..])
  }

  function ContextBytes(c: ClientContext): seq<byte> {
    Field(c.cwd) + (BigEndian(|c.environment|, 4) + Concat(EntryBytes, c.environment))
  }

  function ListBytes(vs: seq<seq<byte>>): seq<byte> { BigEndian(|vs|, 2) + Concat(Field, vs) }

  function Flag(b: bool): byte { if b then 1 else 0 }

  function RequestBytes(r: Request): seq<byte> {
    match r
    case Start(warningShown, account, opPath, context) =>
      [Flag(warningShown)] + (AccountBytes(account) + (Field(opPath) + ContextBytes(context)))
    case Status(account) => AccountBytes(account)
    case Exec(account, timeoutNanos, arguments, context, _) =>
      AccountBytes(account) + (BigEndian(timeoutNanos, 8) + (ListBytes(arguments) + ContextBytes(context)))
  }

  function RequestKind(r: Request): byte {
    match r
    case Start(_, _, _, _) => 1
    case Status(_) => 2
    case Exec(_, _, _, _, _) => 3
  }

  function RequestDescriptors(r: Request): seq<int> { if r.Exec? then r.descriptors else [] }

  // ---------------------------------------------------------------- what the receiver accepts

  predicate Short(v: seq<byte>) { |v| < U32 }

  predicate ShortEntries(es: seq<Entry>) { forall k :: 0 <= k < |es| ==> Short(es[k].key) && Short(es[k].value) }

  predicate ShortAll(vs: seq<seq<byte>>) { forall k :: 0 <= k < |vs| ==> Short(vs[k]) }

  predicate GoodString(v: seq<byte>) { Short(v) && IsUtf8(v) }

  predicate GoodAccount(a: Account) { a.selector.Some? ==> GoodString(a.selector.value) }

  predicate GoodEntry(e: Entry) {
    && Short(e.key) && Short(e.value)
    && e.key != [] && 0 !in e.key && 0x3D !in e.key && 0 !in e.value
  }

  predicate GoodEntries(es: seq<Entry>) { forall k :: 0 <= k < |es| ==> GoodEntry(es[k]) }

  predicate GoodCwd(v: seq<byte>) { Short(v) && v != [] && 0 !in v && v[0] == 0x2F }

  predicate GoodContext(c: ClientContext) {
    GoodCwd(c.cwd) && |c.environment| < U32 && GoodEntries(c.environment)
  }

  function TotalLength(vs: seq<seq<byte>>): nat {
    if vs == [] then 0 else TotalLength(vs[..|vs| - 1]) + |vs[|vs| - 1]|
  }

  predicate NoNul(vs: seq<seq<byte>>) { forall k :: 0 <= k < |vs| ==> 0 !in vs[k] }

  predicate GoodArguments(vs: seq<seq<byte>>) {
    |vs| <= MAX_ARGUMENTS && NoNul(vs) && TotalLength(vs) <= MAX_ARGUMENT_BYTES
  }

  predicate WellFormed(r: Request) {
    match r
    case Start(_, account, opPath, context) => GoodAccount(account) && GoodString(opPath) && GoodContext(context)
    case Status(account) => GoodAccount(account)
    case Exec(account, timeoutNanos, arguments, context, descriptors) =>
      && GoodAccount(account) && MIN_TIMEOUT <= timeoutNanos <= MAX_TIMEOUT
      && GoodArguments(arguments) && GoodContext(context) && |descriptors| == 3
  }

  // ---------------------------------------------------------------- concatenation

  lemma {:induction false} ConcatAppend<T>(encode: T -> seq<byte>, xs: seq<T>, x: T)
    ensures Concat(encode, xs + [x]) == Concat(encode, xs) + encode(x)
  {
    if xs == [] {
      assert Concat(encode, [x]) == encode(x) + Concat(encode, [x][1..]);
    } else {
      ConcatAppend(encode, xs[1..], x);
      assert (xs + [x])[1..] == xs[1..] + [x];
    }
  }

  lemma {:induction false} ConcatFits<T>(encode: T -> seq<byte>, xs: seq<T>, k: nat)
    requires k < |xs|
    ensures |encode(xs[k])| <= |Concat(encode, xs)|
  {
    if k > 0 { ConcatFits(encode, xs[1..], k - 1); }
  }

  /** The total length is what a list takes beside its length prefixes. */
  lemma {:induction false} TotalIsTaken(vs: seq<seq<byte>>)
    ensures |Concat(Field, vs)| == 4 * |vs| + TotalLength(vs)
  {
    hide Field;
    if vs != [] {
      var n := |vs| - 1;
      TotalIsTaken(vs[..n]);
      ConcatAppend(Field, vs[..n], vs[n]);
      assert vs == vs[..n] + [vs[n]];
    }
  }

  /** Why the decoder's guard on the entry count never turns away a valid encoding. */
  lemma {:induction false} EntriesAreLong(es: seq<Entry>)
    ensures |Concat(EntryBytes, es)| >= 8 * |es|
  {
    if es != [] { EntriesAreLong(es[1..]); }
  }

  // ---------------------------------------------------------------- what can be sent

  /** What `send_request` can send: the payload limit, and a 16-bit argument count. */
  predicate Encodable(r: Request) {
    |RequestBytes(r)| <= MAX_PAYLOAD && (r.Exec? ==> |r.arguments| < 65_536)
  }

  lemma ContextFits(c: ClientContext)
    requires |ContextBytes(c)| < U32
    ensures Short(c.cwd) && |c.environment| < U32 && ShortEntries(c.environment)
  {
    EntriesAreLong(c.environment);
    forall k | 0 <= k < |c.environment| ensures Short(c.environment[k].key) && Short(c.environment[k].value) {
      ConcatFits(EntryBytes, c.environment, k);
    }
  }

  /** A field that does not fit its length prefix makes the whole encoding far too long. */
  lemma RequestFits(r: Request)
    requires |RequestBytes(r)| < U32
    ensures r.account.selector.Some? ==> Short(r.account.selector.value)
    ensures r.Start? ==> Short(r.opPath)
    ensures !r.Status? ==> Short(r.context.cwd) && |r.context.environment| < U32 && ShortEntries(r.context.environment)
    ensures r.Exec? ==> ShortAll(r.arguments)
  {
    if !r.Status? { ContextFits(r.context); }
    if r.Exec? {
      forall k | 0 <= k < |r.arguments| ensures Short(r.arguments[k]) { ConcatFits(Field, r.arguments, k); }
    }
  }
}
