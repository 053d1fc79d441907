/** What the decoder reads, as functions from the unread bytes to a value and the bytes left; every
    reader inverts its encoding and accepts nothing else. */
module Parsing {
  import opened Base
  import opened Messages
  import opened Utf8
  import opened Encoding

  datatype Read<T> = Read(value: T, rest: seq<byte>)

  function ReadBytes(s: seq<byte>, length: nat): Result<Read<seq<byte>>> {
    if length > |s| then Invalid else Ok(Read(s[..length], s[length..]))
  }

  function ReadNumber(s: seq<byte>, width: nat): Result<Read<nat>> {
    if width > |s| then Invalid else Ok(Read(Value(s[..width]), s[width..]))
  }

  function ReadField(s: seq<byte>): Result<Read<seq<byte>>> {
    var length :- ReadNumber(s, 4);
    ReadBytes(length.rest, length.value)
  }

  function ReadText(s: seq<byte>): Result<Read<seq<byte>>> {
    var raw :- ReadField(s);
    if IsUtf8(raw.value) then Ok(raw) else Invalid
  }

  function ReadFlag(s: seq<byte>): Result<Read<bool>> {
    var n :- ReadNumber(s, 1);
    if n.value == 0 then Ok(Read(false, n.rest)) else if n.value == 1 then Ok(Read(true, n.rest)) else Invalid
  }

  function ReadAccount(s: seq<byte>): Result<Read<Account>> {
    var present :- ReadFlag(s);
    if !present.value then Ok(Read(Account(None), present.rest))
    else
      var selector :- ReadText(present.rest);
      Ok(Read(Account(Some(selector.value)), selector.rest))
  }

  function ReadEntry(s: seq<byte>): Result<Read<Entry>> {
    var key :- ReadField(s);
    var value :- ReadField(key.rest);
    if key.value == [] || 0 in key.value || 0x3D in key.value || 0 in value.value then Invalid
    else Ok(Read(Entry(key.value, value.value), value.rest))
  }

  function ReadMany<T>(reader: seq<byte> -> Result<Read<T>>, s: seq<byte>, count: nat): Result<Read<seq<T>>>
    decreases count
  {
    if count == 0 then Ok(Read([], s))
    else
      var first :- reader(s);
      var others :- ReadMany(reader, first.rest, count - 1);
      Ok(Read([first.value] + others.value, others.rest))
  }

  function ReadContext(s: seq<byte>): Result<Read<ClientContext>> {
    var cwd :- ReadField(s);
    if cwd.value == [] || 0 in cwd.value || cwd.value[0] != 0x2F then Invalid
    else
      var count :- ReadNumber(cwd.rest, 4);
      if count.value > |count.rest| / 8 then Invalid
      else
        var environment :- ReadMany(ReadEntry, count.rest, count.value);
        Ok(Read(ClientContext(cwd.value, environment.value), environment.rest))
  }

  function ReadArgument(s: seq<byte>): Result<Read<seq<byte>>> {
    var argument :- ReadField(s);
    if 0 in argument.value then Invalid else Ok(argument)
  }

  function ReadList(s: seq<byte>): Result<Read<seq<seq<byte>>>> {
    var count :- ReadNumber(s, 2);
    if count.value > MAX_ARGUMENTS then Invalid
    else
      var arguments :- ReadMany(ReadArgument, count.rest, count.value);
      if TotalLength(arguments.value) > MAX_ARGUMENT_BYTES then Invalid else Ok(arguments)
  }

  function ReadStart(s: seq<byte>): Result<Read<Request>> {
    var warningShown :- ReadFlag(s);
    var account :- ReadAccount(warningShown.rest);
    var opPath :- ReadText(account.rest);
    var context :- ReadContext(opPath.rest);
    Ok(Read(Start(warningShown.value, account.value, opPath.value, context.value), context.rest))
  }

  function ReadStatus(s: seq<byte>): Result<Read<Request>> {
    var account :- ReadAccount(s);
    Ok(Read(Request.Status(account.value), account.rest))
  }

  function ReadExec(s: seq<byte>, descriptors: seq<int>): Result<Read<Request>> {
    var account :- ReadAccount(s);
    var timeoutNanos :- ReadNumber(account.rest, 8);
    if !(MIN_TIMEOUT <= timeoutNanos.value <= MAX_TIMEOUT) then Invalid
    else
      var arguments :- ReadList(timeoutNanos.rest);
      var context :- ReadContext(arguments.rest);
      Ok(Read(Exec(account.value, timeoutNanos.value, arguments.value, context.value, descriptors), context.rest))
  }

  function ReadRequest(kind: byte, s: seq<byte>, descriptors: seq<int>): Result<Read<Request>> {
    if kind == 1 && descriptors == [] then ReadStart(s)
    else if kind == 2 && descriptors == [] then ReadStatus(s)
    else if kind == 3 && |descriptors| == 3 then ReadExec(s, descriptors)
    else Invalid
  }

  /** The whole payload must be one request. */
  function ParseRequest(kind: byte, payload: seq<byte>, descriptors: seq<int>): Result<Request> {
    var request :- ReadRequest(kind, payload, descriptors);
    if request.rest == [] then Ok(request.value) else Invalid
  }

  // ---------------------------------------------------------------- readers invert encodings

  lemma NumberRoundTrip(n: nat, width: nat, tail: seq<byte>)
    requires n < Power(width)
    ensures ReadNumber(BigEndian(n, width) + tail, width) == Ok(Read(n, tail))
  {
    var s := BigEndian(n, width) + tail;
    assert s[..width] == BigEndian(n, width) && s[width..] == tail;
    ValueOfBigEndian(n, width);
  }

  lemma NumberCanonical(s: seq<byte>, width: nat)
    requires ReadNumber(s, width).Ok?
    ensures var got := ReadNumber(s, width).value;
            got.value < Power(width) && s == BigEndian(got.value, width) + got.rest
  {
    BigEndianOfValue(s[..width]);
  }

  lemma FieldRoundTrip(v: seq<byte>, tail: seq<byte>)
    requires Short(v)
    ensures ReadField(Field(v) + tail) == Ok(Read(v, tail))
  {
    Powers();
    NumberRoundTrip(|v|, 4, v + tail);
    assert Field(v) + tail == BigEndian(|v|, 4) + (v + tail);
    assert (v + tail)[..|v|] == v && (v + tail)[|v|..] == tail;
  }

  lemma FieldCanonical(s: seq<byte>)
    requires ReadField(s).Ok?
    ensures var got := ReadField(s).value; Short(got.value) && s == Field(got.value) + got.rest
  {
    Powers();
    NumberCanonical(s, 4);
  }

  lemma FlagRoundTrip(b: bool, tail: seq<byte>)
    ensures ReadFlag([Flag(b)] + tail) == Ok(Read(b, tail))
  {
    Powers();
    NumberRoundTrip(Flag(b), 1, tail);
    assert BigEndian(Flag(b), 1) == [Flag(b)];
  }

  lemma FlagCanonical(s: seq<byte>)
    requires ReadFlag(s).Ok?
    ensures s == [Flag(ReadFlag(s).value.value)] + ReadFlag(s).value.rest
  {
    NumberCanonical(s, 1);
    var n := ReadNumber(s, 1).value.value;
    assert BigEndian(n, 1) == [n];
  }

  lemma AccountRoundTrip(a: Account, tail: seq<byte>)
    requires a.selector.Some? ==> Short(a.selector.value)
    ensures ReadAccount(AccountBytes(a) + tail) == if GoodAccount(a) then Ok(Read(a, tail)) else Invalid
  {
    hide ReadField;
    match a.selector
    case None => FlagRoundTrip(false, tail);
    case Some(v) =>
      FlagRoundTrip(true, Field(v) + tail);
      assert AccountBytes(a) + tail == [1] + (Field(v) + tail);
      FieldRoundTrip(v, tail);
  }

  lemma AccountCanonical(s: seq<byte>)
    requires ReadAccount(s).Ok?
    ensures var got := ReadAccount(s).value; GoodAccount(got.value) && s == AccountBytes(got.value) + got.rest
  {
    FlagCanonical(s);
    var present := ReadFlag(s).value;
    if present.value { FieldCanonical(present.rest); }
  }

  lemma EntryRoundTrip(e: Entry, tail: seq<byte>)
    requires Short(e.key) && Short(e.value)
    ensures ReadEntry(EntryBytes(e) + tail) == if GoodEntry(e) then Ok(Read(e, tail)) else Invalid
  {
    hide ReadField;
    assert EntryBytes(e) + tail == Field(e.key) + (Field(e.value) + tail);
    FieldRoundTrip(e.key, Field(e.value) + tail);
    FieldRoundTrip(e.value, tail);
  }

  lemma EntryCanonical(s: seq<byte>)
    requires ReadEntry(s).Ok?
    ensures var got := ReadEntry(s).value; GoodEntry(got.value) && s == EntryBytes(got.value) + got.rest
  {
    FieldCanonical(s);
    FieldCanonical(ReadField(s).value.rest);
  }

  /** A list is read in full if all its elements are good, and refused if one is not. */
  lemma {:induction false} ManyRoundTrip<T(!new)>(reader: seq<byte> -> Result<Read<T>>, encode: T -> seq<byte>,
                                                  good: T -> bool, xs: seq<T>, tail: seq<byte>)
    requires forall k, after: seq<byte> :: 0 <= k < |xs| ==>
               reader(encode(xs[k]) + after) == if good(xs[k]) then Ok(Read(xs[k], after)) else Invalid
    ensures ReadMany(reader, Concat(encode, xs) + tail, |xs|) ==
            if forall k :: 0 <= k < |xs| ==> good(xs[k]) then Ok(Read(xs, tail)) else Invalid
  {
    if xs == [] {
      assert Concat(encode, xs) + tail == tail;
    } else {
      var after := Concat(encode, xs[1..]) + tail;
      assert Concat(encode, xs) + tail == encode(xs[0]) + after;
      assert reader(encode(xs[0]) + after) == if good(xs[0]) then Ok(Read(xs[0], after)) else Invalid;
      ManyRoundTrip(reader, encode, good, xs[1..], tail);
      assert forall k :: 0 < k < |xs| ==> xs[k] == xs[1..][k - 1];
      assert xs == [xs[0]] + xs[1..];
    }
  }

  lemma {:induction false} ManyCanonical<T(!new)>(reader: seq<byte> -> Result<Read<T>>, encode: T -> seq<byte>,
                                                  good: T -> bool, s: seq<byte>, count: nat)
    requires forall u :: reader(u).Ok? ==>
               good(reader(u).value.value) && u == encode(reader(u).value.value) + reader(u).value.rest
    requires ReadMany(reader, s, count).Ok?
    ensures var got := ReadMany(reader, s, count).value;
            && |got.value| == count && s == Concat(encode, got.value) + got.rest
            && forall k :: 0 <= k < count ==> good(got.value[k])
    decreases count
  {
    if count > 0 {
      var first := reader(s).value;
      ManyCanonical(reader, encode, good, first.rest, count - 1);
      var others := ReadMany(reader, first.rest, count - 1).value;
      var all := [first.value] + others.value;
      assert all[0] == first.value && all[1..] == others.value;
      assert s == encode(first.value) + (Concat(encode, others.value) + others.rest);
    }
  }

  lemma ContextRoundTrip(c: ClientContext, tail: seq<byte>)
    requires Short(c.cwd) && |c.environment| < U32 && ShortEntries(c.environment)
    ensures ReadContext(ContextBytes(c) + tail) == if GoodContext(c) then Ok(Read(c, tail)) else Invalid
  {
    hide ReadField;
    hide ReadNumber;
    Powers();
    var n, entries := |c.environment|, Concat(EntryBytes, c.environment);
    assert ContextBytes(c) + tail == Field(c.cwd) + (BigEndian(n, 4) + (entries + tail));
    FieldRoundTrip(c.cwd, BigEndian(n, 4) + (entries + tail));
    NumberRoundTrip(n, 4, entries + tail);
    EntriesAreLong(c.environment);
    EntriesRoundTrip(c.environment, tail);
  }

  lemma EntriesRoundTrip(es: seq<Entry>, tail: seq<byte>)
    requires ShortEntries(es)
    ensures ReadMany(ReadEntry, Concat(EntryBytes, es) + tail, |es|) ==
            if GoodEntries(es) then Ok(Read(es, tail)) else Invalid
  {
    hide ReadEntry;
    hide GoodEntry;
    hide EntryBytes;
    forall k, after: seq<byte> | 0 <= k < |es|
      ensures ReadEntry(EntryBytes(es[k]) + after) == if GoodEntry(es[k]) then Ok(Read(es[k], after)) else Invalid
    {
      EntryRoundTrip(es[k], after);
    }
    ManyRoundTrip(ReadEntry, EntryBytes, GoodEntry, es, tail);
  }

  lemma EntriesCanonical(s: seq<byte>, count: nat)
    requires ReadMany(ReadEntry, s, count).Ok?
    ensures var got := ReadMany(ReadEntry, s, count).value;
            |got.value| == count && GoodEntries(got.value) && s == Concat(EntryBytes, got.value) + got.rest
  {
    forall u | ReadEntry(u).Ok?
      ensures var got := ReadEntry(u).value; GoodEntry(got.value) && u == EntryBytes(got.value) + got.rest
    {
      EntryCanonical(u);
    }
    ManyCanonical(ReadEntry, EntryBytes, GoodEntry, s, count);
  }

  lemma ContextCanonical(s: seq<byte>)
    requires ReadContext(s).Ok?
    ensures var got := ReadContext(s).value; GoodContext(got.value) && s == ContextBytes(got.value) + got.rest
  {
    Powers();
    FieldCanonical(s);
    var cwd := ReadField(s).value;
    NumberCanonical(cwd.rest, 4);
    var count := ReadNumber(cwd.rest, 4).value;
    EntriesCanonical(count.rest, count.value);
  }

  predicate NulFree(v: seq<byte>) { 0 !in v }

  lemma ArgumentsRoundTrip(vs: seq<seq<byte>>, tail: seq<byte>)
    requires ShortAll(vs)
    ensures ReadMany(ReadArgument, Concat(Field, vs) + tail, |vs|) == if NoNul(vs) then Ok(Read(vs, tail)) else Invalid
  {
    hide ReadField;
    hide Field;
    forall k, after: seq<byte> | 0 <= k < |vs|
      ensures ReadArgument(Field(vs[k]) + after) == if NulFree(vs[k]) then Ok(Read(vs[k], after)) else Invalid
    {
      FieldRoundTrip(vs[k], after);
    }
    ManyRoundTrip(ReadArgument, Field, NulFree, vs, tail);
    assert NoNul(vs) <==> forall k :: 0 <= k < |vs| ==> NulFree(vs[k]);
  }

  lemma ArgumentsCanonical(s: seq<byte>, count: nat)
    requires ReadMany(ReadArgument, s, count).Ok?
    ensures var got := ReadMany(ReadArgument, s, count).value;
            |got.value| == count && NoNul(got.value) && s == Concat(Field, got.value) + got.rest
  {
    forall u | ReadArgument(u).Ok?
      ensures var got := ReadArgument(u).value; NulFree(got.value) && u == Field(got.value) + got.rest
    {
      FieldCanonical(u);
    }
    ManyCanonical(ReadArgument, Field, NulFree, s, count);
    var got := ReadMany(ReadArgument, s, count).value.value;
    forall k | 0 <= k < |got| ensures 0 !in got[k] { assert NulFree(got[k]); }
  }

  lemma ListRoundTrip(vs: seq<seq<byte>>, tail: seq<byte>)
    requires |vs| < 65_536 && ShortAll(vs)
    ensures ReadList(ListBytes(vs) + tail) == if GoodArguments(vs) then Ok(Read(vs, tail)) else Invalid
  {
    hide ReadNumber;
    Powers();
    assert ListBytes(vs) + tail == BigEndian(|vs|, 2) + (Concat(Field, vs) + tail);
    NumberRoundTrip(|vs|, 2, Concat(Field, vs) + tail);
    ArgumentsRoundTrip(vs, tail);
  }

  lemma ListCanonical(s: seq<byte>)
    requires ReadList(s).Ok?
    ensures var got := ReadList(s).value; GoodArguments(got.value) && s == ListBytes(got.value) + got.rest
  {
    NumberCanonical(s, 2);
    var count := ReadNumber(s, 2).value;
    ArgumentsCanonical(count.rest, count.value);
  }

  /** Every request that can be sent decodes to itself if it is well-formed, and is refused if it is not. */
  lemma RequestRoundTrip(r: Request)
    requires Encodable(r)
    ensures ParseRequest(RequestKind(r), RequestBytes(r), RequestDescriptors(r)) ==
            if WellFormed(r) then Ok(r) else Invalid
  {
    hide ReadStart;
    hide ReadStatus;
    hide ReadExec;
    hide WellFormed;
    match r
    case Start(_, _, _, _) => StartRoundTrip(r);
    case Status(_) => StatusRoundTrip(r);
    case Exec(_, _, _, _, _) => ExecRoundTrip(r);
  }

  lemma StartRoundTrip(r: Request)
    requires r.Start? && Encodable(r)
    ensures ReadStart(RequestBytes(r)) == if WellFormed(r) then Ok(Read(r, [])) else Invalid
  {
    hide ReadFlag;
    hide ReadAccount;
    hide ReadField;
    hide ReadContext;
    hide Field;
    hide AccountBytes;
    hide ContextBytes;
    hide GoodContext;
    RequestFits(r);
    var context := ContextBytes(r.context);
    FlagRoundTrip(r.warningShown, AccountBytes(r.account) + (Field(r.opPath) + context));
    AccountRoundTrip(r.account, Field(r.opPath) + context);
    FieldRoundTrip(r.opPath, context);
    ContextRoundTrip(r.context, []);
    assert context + [] == context;
  }

  lemma StatusRoundTrip(r: Request)
    requires r.Status? && Encodable(r)
    ensures ReadStatus(RequestBytes(r)) == if WellFormed(r) then Ok(Read(r, [])) else Invalid
  {
    hide ReadAccount;
    hide AccountBytes;
    RequestFits(r);
    AccountRoundTrip(r.account, []);
    assert AccountBytes(r.account) + [] == AccountBytes(r.account);
  }

  lemma ExecRoundTrip(r: Request)
    requires r.Exec? && Encodable(r)
    ensures var read := ReadExec(RequestBytes(r), r.descriptors);
            (if |r.descriptors| == 3 then read else Invalid) == if WellFormed(r) then Ok(Read(r, [])) else Invalid
  {
    hide ReadAccount;
    hide ReadNumber;
    hide ReadList;
    hide ReadContext;
    hide BigEndian;
    hide AccountBytes;
    hide ListBytes;
    hide ContextBytes;
    hide GoodContext;
    hide GoodArguments;
    Powers();
    RequestFits(r);
    var context := ContextBytes(r.context);
    AccountRoundTrip(r.account, BigEndian(r.timeoutNanos, 8) + (ListBytes(r.arguments) + context));
    NumberRoundTrip(r.timeoutNanos, 8, ListBytes(r.arguments) + context);
    ListRoundTrip(r.arguments, context);
    ContextRoundTrip(r.context, []);
    assert context + [] == context;
  }

  /** Whatever decodes is well-formed and re-encodes to exactly the same bytes. */
  lemma RequestCanonical(kind: byte, payload: seq<byte>, descriptors: seq<int>)
    requires ParseRequest(kind, payload, descriptors).Ok?
    ensures var r := ParseRequest(kind, payload, descriptors).value;
            && WellFormed(r) && RequestKind(r) == kind && RequestBytes(r) == payload
            && RequestDescriptors(r) == descriptors
  {
    hide ReadFlag;
    hide ReadAccount;
    hide ReadText;
    hide ReadContext;
    hide ReadNumber;
    if kind == 1 {
      StartCanonical(payload);
    } else if kind == 2 {
      AccountCanonical(payload);
    } else {
      ExecCanonical(payload, descriptors);
    }
  }

  lemma StartCanonical(s: seq<byte>)
    requires ReadStart(s).Ok? && ReadStart(s).value.rest == []
    ensures WellFormed(ReadStart(s).value.value) && RequestBytes(ReadStart(s).value.value) == s
  {
    hide ReadFlag;
    hide ReadAccount;
    hide ReadContext;
    hide ReadField;
    hide Field;
    hide AccountBytes;
    hide ContextBytes;
    FlagCanonical(s);
    var warningShown := ReadFlag(s).value;
    AccountCanonical(warningShown.rest);
    var account := ReadAccount(warningShown.rest).value;
    FieldCanonical(account.rest);
    var opPath := ReadField(account.rest).value;
    ContextCanonical(opPath.rest);
  }

  lemma ExecCanonical(s: seq<byte>, descriptors: seq<int>)
    requires |descriptors| == 3 && ReadExec(s, descriptors).Ok? && ReadExec(s, descriptors).value.rest == []
    ensures var r := ReadExec(s, descriptors).value.value; WellFormed(r) && RequestBytes(r) == s
  {
    hide ReadAccount;
    hide ReadNumber;
    hide ReadList;
    hide ReadContext;
    hide BigEndian;
    hide AccountBytes;
    hide ListBytes;
    hide ContextBytes;
    AccountCanonical(s);
    var account := ReadAccount(s).value;
    NumberCanonical(account.rest, 8);
    var timeoutNanos := ReadNumber(account.rest, 8).value;
    ListCanonical(timeoutNanos.rest);
    var arguments := ReadList(timeoutNanos.rest).value;
    ContextCanonical(arguments.rest);
  }
}
