/** The buffer-growing encoder and the offset-advancing decoder of src/protocol.rs, proved against the
    encodings of `Encoding` and the readers of `Parsing`. */
module Codec {
  import opened Base
  import opened Messages
  import opened Utf8
  import opened Encoding
  import opened Parsing

  // ---------------------------------------------------------------- encoder

  class Encoder {
    var bytes: seq<byte>

    constructor ()
      ensures bytes == []
    {
      bytes := [];
    }

    /** `u8`, `u16`, `u32` and `u64`. */
    method Number(n: nat, width: nat)
      modifies this
      ensures bytes == old(bytes) + BigEndian(n, width)
    {
      bytes := bytes + BigEndian(n, width);
    }

    method Bytes(v: seq<byte>) returns (ok: bool)
      modifies this
      ensures ok == Short(v)
      ensures bytes == old(bytes) + if ok then Field(v) else []
    {
      ok := |v| < U32;
      if !ok { return; }
      Number(|v|, 4);
      bytes := bytes + v;
    }

    method Selector(a: Account) returns (ok: bool)
      modifies this
      ensures ok == (a.selector.Some? ==> Short(a.selector.value))
      ensures ok ==> bytes == old(bytes) + AccountBytes(a)
    {
      ok := true;
      match a.selector {
        case None => Number(0, 1);
        case Some(s) =>
          Number(1, 1);
          assert BigEndian(1, 1) == [1];
          ok := Bytes(s);
      }
    }

    method Pair(e: Entry) returns (ok: bool)
      modifies this
      ensures ok == (Short(e.key) && Short(e.value))
      ensures ok ==> bytes == old(bytes) + EntryBytes(e)
    {
      ok := Bytes(e.key);
      if ok { ok := Bytes(e.value); }
    }

    method Entries(es: seq<Entry>) returns (ok: bool)
      modifies this
      ensures ok == ShortEntries(es)
      ensures ok ==> bytes == old(bytes) + Concat(EntryBytes, es)
    {
      hide EntryBytes;
      var i := 0;
      while i < |es|
        invariant i <= |es| && ShortEntries(es[..i])
        invariant bytes == old(bytes) + Concat(EntryBytes, es[..i])
      {
        ok := Pair(es[i]);
        assert es[..i + 1] == es[..i] + [es[i]];
        if !ok { return; }
        ConcatAppend(EntryBytes, es[..i], es[i]);
        i := i + 1;
      }
      assert es[..i] == es;
      ok := true;
    }

    method Context(c: ClientContext) returns (ok: bool)
      modifies this
      ensures ok == (Short(c.cwd) && |c.environment| < U32 && ShortEntries(c.environment))
      ensures ok ==> bytes == old(bytes) + ContextBytes(c)
    {
      hide BigEndian;
      hide Field;
      hide EntryBytes;
      hide Concat;
      ok := Bytes(c.cwd);
      if !ok { return; }
      ok := |c.environment| < U32;
      if !ok { return; }
      Number(|c.environment|, 4);
      ok := Entries(c.environment);
    }

    method Arguments(vs: seq<seq<byte>>) returns (ok: bool)
      modifies this
      ensures ok == (|vs| < 65_536 && ShortAll(vs))
      ensures ok ==> bytes == old(bytes) + ListBytes(vs)
    {
      hide BigEndian;
      hide Field;
      ok := |vs| < 65_536;
      if !ok { return; }
      Number(|vs|, 2);
      ghost var start := bytes;
      var i := 0;
      while i < |vs|
        invariant i <= |vs| && ShortAll(vs[..i])
        invariant bytes == start + Concat(Field, vs[..i])
      {
        ok := Bytes(vs[i]);
        assert vs[..i + 1] == vs[..i] + [vs[i]];
        if !ok { return; }
        ConcatAppend(Field, vs[..i], vs[i]);
        i := i + 1;
      }
      assert vs[..i] == vs;
      assert bytes == old(bytes) + ListBytes(vs);
      ok := true;
    }
  }

  /** `send_request` up to the frame: the payload, unless it is too large. */
  method Encode(r: Request) returns (payload: Result<seq<byte>>)
    ensures payload == if Encodable(r) then Ok(RequestBytes(r)) else Invalid
  {
    var e := new Encoder();
    var ok;
    match r {
      case Start(_, _, _, _) => ok := EncodeStart(e, r);
      case Status(account) =>
        if |RequestBytes(r)| < U32 { RequestFits(r); }
        ok := e.Selector(account);
        assert ok ==> e.bytes == RequestBytes(r);
      case Exec(_, _, _, _, _) => ok := EncodeExec(e, r);
    }
    if !ok || |e.bytes| > MAX_PAYLOAD { return Invalid; }
    payload := Ok(e.bytes);
  }

  method EncodeStart(e: Encoder, r: Request) returns (ok: bool)
    requires r.Start? && e.bytes == []
    modifies e
    ensures ok ==> e.bytes == RequestBytes(r)
    ensures !ok ==> |RequestBytes(r)| >= U32
  {
    hide AccountBytes;
    hide ContextBytes;
    if |RequestBytes(r)| < U32 { RequestFits(r); }
    e.Number(Flag(r.warningShown), 1);
    assert BigEndian(Flag(r.warningShown), 1) == [Flag(r.warningShown)];
    ok := e.Selector(r.account);
    if !ok { return; }
    ok := e.Bytes(r.opPath);
    if !ok { return; }
    ok := e.Context(r.context);
  }

  method EncodeExec(e: Encoder, r: Request) returns (ok: bool)
    requires r.Exec? && e.bytes == []
    modifies e
    ensures ok ==> e.bytes == RequestBytes(r) && |r.arguments| < 65_536
    ensures !ok ==> |RequestBytes(r)| >= U32 || |r.arguments| >= 65_536
  {
    hide BigEndian;
    hide AccountBytes;
    hide ListBytes;
    hide ContextBytes;
    if |RequestBytes(r)| < U32 { RequestFits(r); }
    ok := e.Selector(r.account);
    if !ok { return; }
    e.Number(r.timeoutNanos, 8);
    ok := e.Arguments(r.arguments);
    if !ok { return; }
    ok := e.Context(r.context);
  }

  // ---------------------------------------------------------------- decoder

  /** A list read in full when `before` was read already. */
  function Prepended<T>(before: seq<T>, r: Result<Read<seq<T>>>): Result<Read<seq<T>>> {
    match r
    case Ok(got) => Ok(Read(before + got.value, got.rest))
    case Invalid => Invalid
  }

  lemma PrependedNothing<T>(r: Result<Read<seq<T>>>)
    ensures Prepended([], r) == r
  {
    if r.Ok? { assert [] + r.value.value == r.value.value; }
  }

  lemma PrependedOneMore<T>(before: seq<T>, one: T, r: Result<Read<seq<T>>>)
    ensures Prepended(before, Prepended([one], r)) == Prepended(before + [one], r)
  {
    if r.Ok? { assert before + ([one] + r.value.value) == before + [one] + r.value.value; }
  }

  lemma ManyAhead<T>(reader: seq<byte> -> Result<Read<T>>, before: seq<T>, s: seq<byte>, count: nat)
    requires count > 0
    ensures Prepended(before, ReadMany(reader, s, count)) ==
            match reader(s)
            case Ok(first) => Prepended(before + [first.value], ReadMany(reader, first.rest, count - 1))
            case Invalid => Invalid
  {
    var first := reader(s);
    if first.Ok? { PrependedOneMore(before, first.value.value, ReadMany(reader, first.value.rest, count - 1)); }
  }

  class Decoder {
    const bytes: seq<byte>
    var offset: nat

    ghost predicate Valid()
      reads this
    {
      offset <= |bytes|
    }

    /** What has not been consumed yet. */
    ghost function Rest(): seq<byte>
      requires Valid()
      reads this
    {
      bytes[offset..]
    }

    /** A read did what its specification says: the value, and everything after it unconsumed. */
    ghost predicate Did<T>(expected: Result<Read<T>>, r: Result<T>)
      requires Valid()
      reads this
    {
      match expected
      case Ok(got) => r == Ok(got.value) && Rest() == got.rest
      case Invalid => r == Invalid
    }

    constructor (bytes: seq<byte>)
      ensures Valid() && this.bytes == bytes && Rest() == bytes
    {
      this.bytes, this.offset := bytes, 0;
    }

    method Take(length: nat) returns (r: Result<seq<byte>>)
      requires Valid()
      modifies this`offset
      ensures Valid() && Did(ReadBytes(old(Rest()), length), r)
    {
      var end := offset + length;
      if end > |bytes| { return Invalid; }
      assert bytes[offset..][..length] == bytes[offset..end] && bytes[offset..][length..] == bytes[end..];
      r := Ok(bytes[offset..end]);
      offset := end;
    }

    /** `u8`, `u16`, `u32` and `u64`. */
    method Number(width: nat) returns (r: Result<nat>)
      requires Valid()
      modifies this`offset
      ensures Valid() && Did(ReadNumber(old(Rest()), width), r)
    {
      var taken :- Take(width);
      r := Ok(Value(taken));
    }

    method Bytes() returns (r: Result<seq<byte>>)
      requires Valid()
      modifies this`offset
      ensures Valid() && Did(ReadField(old(Rest())), r)
    {
      var length :- Number(4);
      r := Take(length);
    }

    method Text() returns (r: Result<seq<byte>>)
      requires Valid()
      modifies this`offset
      ensures Valid() && Did(ReadText(old(Rest())), r)
    {
      var raw :- Bytes();
      r := if IsUtf8(raw) then Ok(raw) else Invalid;
    }

    method Boolean() returns (r: Result<bool>)
      requires Valid()
      modifies this`offset
      ensures Valid() && Did(ReadFlag(old(Rest())), r)
    {
      var n :- Number(1);
      r := if n == 0 then Ok(false) else if n == 1 then Ok(true) else Invalid;
    }

    method Selector() returns (r: Result<Account>)
      requires Valid()
      modifies this`offset
      ensures Valid() && Did(ReadAccount(old(Rest())), r)
    {
      var present :- Boolean();
      if !present { return Ok(Account(None)); }
      var selector :- Text();
      r := Ok(Account(Some(selector)));
    }

    method Pair() returns (r: Result<Entry>)
      requires Valid()
      modifies this`offset
      ensures Valid() && Did(ReadEntry(old(Rest())), r)
    {
      var key :- Bytes();
      var value :- Bytes();
      if key == [] || 0 in key || 0x3D in key || 0 in value { return Invalid; }
      r := Ok(Entry(key, value));
    }

    method Entries(count: nat) returns (r: Result<seq<Entry>>)
      requires Valid()
      modifies this`offset
      ensures Valid() && Did(ReadMany(ReadEntry, old(Rest()), count), r)
    {
      hide ReadField;
      ghost var goal := ReadMany(ReadEntry, Rest(), count);
      var entries := [];
      var i := 0;
      PrependedNothing(goal);
      while i < count
        invariant Valid() && i <= count
        invariant goal == Prepended(entries, ReadMany(ReadEntry, Rest(), count - i))
      {
        ManyAhead(ReadEntry, entries, Rest(), count - i);
        var e :- Pair();
        entries := entries + [e];
        i := i + 1;
      }
      assert entries + [] == entries;
      r := Ok(entries);
    }

    method Context() returns (r: Result<ClientContext>)
      requires Valid()
      modifies this`offset
      ensures Valid() && Did(ReadContext(old(Rest())), r)
    {
      var cwd :- Bytes();
      if cwd == [] || 0 in cwd || cwd[0] != 0x2F { return Invalid; }
      var count :- Number(4);
      if count > (|bytes| - offset) / 8 { return Invalid; }
      var environment :- Entries(count);
      r := Ok(ClientContext(cwd, environment));
    }

    method Arguments() returns (r: Result<seq<seq<byte>>>)
      requires Valid()
      modifies this`offset
      ensures Valid() && Did(ReadList(old(Rest())), r)
    {
      hide ReadNumber;
      hide ReadField;
      var count :- Number(2);
      if count > MAX_ARGUMENTS { return Invalid; }
      ghost var goal := ReadMany(ReadArgument, Rest(), count);
      var arguments := [];
      var total := 0;
      var i := 0;
      PrependedNothing(goal);
      while i < count
        invariant Valid() && i <= count && total == TotalLength(arguments)
        invariant goal == Prepended(arguments, ReadMany(ReadArgument, Rest(), count - i))
      {
        ManyAhead(ReadArgument, arguments, Rest(), count - i);
        var argument :- Bytes();
        if 0 in argument { return Invalid; }
        assert (arguments + [argument])[..|arguments|] == arguments;
        total := total + |argument|;
        arguments := arguments + [argument];
        i := i + 1;
      }
      assert arguments + [] == arguments;
      if total > MAX_ARGUMENT_BYTES { return Invalid; }
      r := Ok(arguments);
    }

    method End() returns (ok: bool)
      requires Valid()
      ensures ok == (Rest() == [])
    {
      ok := offset == |bytes|;
    }
  }

  // ---------------------------------------------------------------- requests

  /** `receive_request` after the frame. */
  method Decode(kind: byte, payload: seq<byte>, descriptors: seq<int>) returns (r: Result<Request>)
    ensures r == ParseRequest(kind, payload, descriptors)
  {
    var d := new Decoder(payload);
    var request;
    match kind {
      case 1 =>
        if descriptors != [] { return Invalid; }
        request :- DecodeStart(d);
      case 2 =>
        if descriptors != [] { return Invalid; }
        var account :- d.Selector();
        request := Request.Status(account);
      case 3 =>
        if |descriptors| != 3 { return Invalid; }
        request :- DecodeExec(d, descriptors);
      case _ => return Invalid;
    }
    var ok := d.End();
    r := if ok then Ok(request) else Invalid;
  }

  method DecodeStart(d: Decoder) returns (r: Result<Request>)
    requires d.Valid()
    modifies d`offset
    ensures d.Valid() && d.Did(ReadStart(old(d.Rest())), r)
  {
    var warningShown :- d.Boolean();
    var account :- d.Selector();
    var opPath :- d.Text();
    var context :- d.Context();
    r := Ok(Start(warningShown, account, opPath, context));
  }

  method DecodeExec(d: Decoder, descriptors: seq<int>) returns (r: Result<Request>)
    requires d.Valid()
    modifies d`offset
    ensures d.Valid() && d.Did(ReadExec(old(d.Rest()), descriptors), r)
  {
    var account :- d.Selector();
    var timeoutNanos :- d.Number(8);
    if !(MIN_TIMEOUT <= timeoutNanos <= MAX_TIMEOUT) { return Invalid; }
    var arguments :- d.Arguments();
    var context :- d.Context();
    r := Ok(Exec(account, timeoutNanos, arguments, context, descriptors));
  }
}
