/** Framing and the connection preamble (src/protocol.rs) over a byte stream that may be cut anywhere. */
module Frames {
  import opened Base
  import opened Messages
  import opened Encoding
  import opened Replies

  const HEADER: nat := 8
  /** Descriptors the receiver's control buffer has room for. */
  const MAX_RIGHTS: nat := 8

  // ---------------------------------------------------------------- the stream

  /** One byte of the stream with the descriptors attached to it. */
  datatype Cell = Cell(value: byte, rights: seq<int>)

  function Plain(s: seq<byte>): (cells: seq<Cell>)
    ensures |cells| == |s|
  {
    seq(|s|, i requires 0 <= i < |s| => Cell(s[i], []))
  }

  /** What one `sendmsg` leaves in the stream: the descriptors go with its first byte. */
  function Attached(s: seq<byte>, rights: seq<int>): (cells: seq<Cell>)
    requires s != []
    ensures |cells| == |s|
  {
    [Cell(s[0], rights)] + Plain(s[1..])
  }

  function Values(cells: seq<Cell>): (s: seq<byte>)
    ensures |s| == |cells|
  {
    seq(|cells|, i requires 0 <= i < |cells| => cells[i].value)
  }

  function Rights(cells: seq<Cell>): seq<int> {
    if cells == [] then [] else cells[0].rights + Rights(cells[1..])
  }

  /** One direction of a connection: what was sent and not yet received, up to the sender's close. */
  class Stream {
    var cells: seq<Cell>

    constructor ()
      ensures cells == []
    {
      cells := [];
    }

    /** `sendmsg`, which may take only the beginning of `s`. */
    method SendMessage(s: seq<byte>, rights: seq<int>) returns (sent: nat)
      requires s != []
      modifies this
      ensures 1 <= sent <= |s| && cells == old(cells) + Attached(s[..sent], rights)
    {
      var n: int := *;
      sent := if 1 <= n <= |s| then n else |s|;
      cells := cells + Attached(s[..sent], rights);
    }

    method WriteAll(s: seq<byte>)
      modifies this
      ensures cells == old(cells) + Plain(s)
    {
      cells := cells + Plain(s);
    }

    /** `recvmsg`: any number of bytes up to `limit`, and none only at the end of the stream. */
    method ReceiveMessage(limit: nat) returns (s: seq<byte>, rights: seq<int>)
      requires limit > 0
      modifies this
      ensures |s| <= limit && |s| <= |old(cells)| && (s == [] <==> old(cells) == [])
      ensures s == Values(old(cells)[..|s|]) && rights == Rights(old(cells)[..|s|]) && cells == old(cells)[|s|..]
    {
      var n: int := *;
      var count := if 1 <= n <= limit then n else limit;
      if count > |cells| { count := |cells|; }
      s, rights := Values(cells[..count]), Rights(cells[..count]);
      cells := cells[count..];
    }

    /** `read_exact`, which drops descriptors. */
    method ReadExact(count: nat) returns (r: Result<seq<byte>>)
      modifies this
      ensures if count <= |old(cells)| then r == Ok(Values(old(cells)[..count])) && cells == old(cells)[count..]
              else r == Invalid
    {
      if count > |cells| { return Invalid; }
      r := Ok(Values(cells[..count]));
      cells := cells[count..];
    }
  }

  // ---------------------------------------------------------------- frames

  function Header(kind: byte, length: nat): (s: seq<byte>)
    ensures |s| == HEADER
  {
    [kind, 0, 0, 0] + BigEndian(length, 4)
  }

  /** A frame in the stream. */
  function Laid(f: Frame): seq<Cell> {
    Attached(Header(f.kind, |f.payload|), f.descriptors) + Plain(f.payload)
  }

  datatype Received = Received(frame: Frame, rest: seq<Cell>)

  /** What is read off a stream when the first read returns `chunk` bytes. */
  function Receive(cells: seq<Cell>, chunk: nat): Result<Received>
    requires chunk <= HEADER && chunk <= |cells|
  {
    if chunk == 0 || |Rights(cells[..chunk])| > MAX_RIGHTS || |cells| < HEADER then Invalid
    else
      var header := Values(cells[..HEADER]);
      var length := Value(header[4..]);
      if header[1..4] != [0, 0, 0] || length > MAX_PAYLOAD || |cells| < HEADER + length then Invalid
      else
        Ok(Received(Frame(header[0], Values(cells[HEADER..HEADER + length]), Rights(cells[..chunk])),
                    cells[HEADER + length..]))
  }

  /** Sending the beginning with the descriptors and the remainder without is sending it all with them. */
  lemma SentInTwo(s: seq<byte>, rights: seq<int>, sent: nat)
    requires 1 <= sent <= |s|
    ensures Attached(s[..sent], rights) + Plain(s[sent..]) == Attached(s, rights)
    ensures sent == |s| ==> Attached(s[..sent], rights) == Attached(s, rights)
  {
    assert sent == |s| ==> s[..sent] == s;
  }

  /** `send_frame`: however much of the header the first call takes, the same cells are sent. */
  method SendFrame(stream: Stream, f: Frame) returns (ok: bool)
    modifies stream
    ensures ok == (|f.payload| <= MAX_PAYLOAD)
    ensures stream.cells == old(stream.cells) + if ok then Laid(f) else []
  {
    hide Attached;
    hide Plain;
    hide Header;
    ok := |f.payload| <= MAX_PAYLOAD;
    if !ok { return; }
    var header := Header(f.kind, |f.payload|);
    var sent := stream.SendMessage(header, f.descriptors);
    SentInTwo(header, f.descriptors, sent);
    if sent < |header| {
      stream.WriteAll(header[sent..]);
    }
    assert stream.cells == old(stream.cells) + Attached(header, f.descriptors);
    stream.WriteAll(f.payload);
  }

  /** `receive_frame`. */
  method ReceiveFrame(stream: Stream) returns (r: Result<Frame>, ghost chunk: nat)
    modifies stream
    ensures chunk <= HEADER && chunk <= |old(stream.cells)| && (chunk == 0 <==> old(stream.cells) == [])
    ensures match Receive(old(stream.cells), chunk)
            case Ok(got) => r == Ok(got.frame) && stream.cells == got.rest
            case Invalid => r == Invalid
  {
    ghost var cells := stream.cells;
    var start, rights := stream.ReceiveMessage(HEADER);
    chunk := |start|;
    if start == [] || |rights| > MAX_RIGHTS { return Invalid, chunk; }
    var remaining := stream.ReadExact(HEADER - |start|);
    if remaining.Invalid? { return Invalid, chunk; }
    var header := start + remaining.value;
    assert header == Values(cells[..HEADER]) && stream.cells == cells[HEADER..];
    if header[1..4] != [0, 0, 0] { return Invalid, chunk; }
    var length := Value(header[4..]);
    if length > MAX_PAYLOAD { return Invalid, chunk; }
    var payload := stream.ReadExact(length);
    assert |cells| >= HEADER + length ==> cells[HEADER..][..length] == cells[HEADER..HEADER + length];
    r := if payload.Ok? then Ok(Frame(header[0], payload.value, rights)) else Invalid;
  }

  lemma {:induction false} PlainHasNoRights(s: seq<byte>)
    ensures Rights(Plain(s)) == [] && Values(Plain(s)) == s
  {
    if s != [] {
      assert Plain(s)[1..] == Plain(s[1..]);
      PlainHasNoRights(s[1..]);
    }
  }

  lemma AttachedRights(s: seq<byte>, rights: seq<int>, chunk: nat)
    requires 0 < chunk <= |s|
    ensures Rights(Attached(s, rights)[..chunk]) == rights
  {
    var head := Attached(s, rights)[..chunk];
    assert head[1..] == Plain(s[1..chunk]);
    PlainHasNoRights(s[1..chunk]);
  }

  /** A sent frame is received as sent, from exactly its own cells and however it is cut, unless it
      carries more descriptors than the receiver has room for. */
  lemma FrameRoundTrip(f: Frame, tail: seq<Cell>, chunk: nat)
    requires |f.payload| <= MAX_PAYLOAD && 0 < chunk <= HEADER
    ensures |Laid(f)| == HEADER + |f.payload|
    ensures Receive(Laid(f) + tail, chunk) ==
            if |f.descriptors| <= MAX_RIGHTS then Ok(Received(f, tail)) else Invalid
  {
    var header := Header(f.kind, |f.payload|);
    var cells := Laid(f) + tail;
    assert cells[..chunk] == Attached(header, f.descriptors)[..chunk];
    AttachedRights(header, f.descriptors, chunk);
    assert Values(cells[..HEADER]) == header;
    Powers();
    assert header[4..] == BigEndian(|f.payload|, 4);
    ValueOfBigEndian(|f.payload|, 4);
    assert cells[HEADER..HEADER + |f.payload|] == Plain(f.payload);
    PlainHasNoRights(f.payload);
    assert cells[HEADER + |f.payload|..] == tail;
  }

  /** Whatever is received was laid out as a frame, byte for byte. */
  lemma FrameCanonical(cells: seq<Cell>, chunk: nat)
    requires chunk <= HEADER && chunk <= |cells| && Receive(cells, chunk).Ok?
    ensures var got := Receive(cells, chunk).value;
            && |got.frame.payload| <= MAX_PAYLOAD && |got.frame.descriptors| <= MAX_RIGHTS
            && Values(cells) == Header(got.frame.kind, |got.frame.payload|) + got.frame.payload + Values(got.rest)
  {
    var header := Values(cells[..HEADER]);
    BigEndianOfValue(header[4..]);
    assert header == [header[0]] + header[1..4] + header[4..];
    var got := Receive(cells, chunk).value;
    assert Values(cells) == header + Values(cells[HEADER..HEADER + |got.frame.payload|]) + Values(got.rest);
  }

  // ---------------------------------------------------------------- whole conversations

  function LaidAll(fs: seq<Frame>): seq<Cell> {
    if fs == [] then [] else Laid(fs[0]) + LaidAll(fs[1..])
  }

  /** Receiving until the stream ends, with `chunks` saying how each header was cut. */
  function ReceiveAll(cells: seq<Cell>, chunks: seq<nat>): Result<seq<Frame>>
    decreases |chunks|
  {
    if cells == [] then Ok([])
    else if chunks == [] || chunks[0] > HEADER || chunks[0] > |cells| then Invalid
    else
      var first :- Receive(cells, chunks[0]);
      var others :- ReceiveAll(first.rest, chunks[1..]);
      Ok([first.frame] + others)
  }

  predicate Deliverable(f: Frame) { |f.payload| <= MAX_PAYLOAD && |f.descriptors| <= MAX_RIGHTS }

  /** Exactly the frames sent are received, in order, for every way the stream can be cut. */
  lemma {:induction false} FramesRoundTrip(fs: seq<Frame>, chunks: seq<nat>)
    requires |chunks| == |fs| && (forall k :: 0 <= k < |chunks| ==> 0 < chunks[k] <= HEADER)
    requires forall k :: 0 <= k < |fs| ==> Deliverable(fs[k])
    ensures ReceiveAll(LaidAll(fs), chunks) == Ok(fs)
  {
    if fs != [] {
      assert Deliverable(fs[0]);
      FrameRoundTrip(fs[0], LaidAll(fs[1..]), chunks[0]);
      FramesRoundTrip(fs[1..], chunks[1..]);
      assert fs == [fs[0]] + fs[1..];
    }
  }

  // ---------------------------------------------------------------- preambles

  const VERSION: nat := 1
  const MAGIC: seq<byte> := [0x4F, 0x50, 0x50, 0]
  /** "OPPSTOP" and a zero byte. */
  const STOP_REQUEST: seq<byte> := [0x4F, 0x50, 0x50, 0x53, 0x54, 0x4F, 0x50, 0]

  function NormalPreamble(version: nat): (s: seq<byte>)
    ensures |s| == 8
  {
    MAGIC + BigEndian(version, 4)
  }

  datatype Preamble = Stop | Normal | Incompatible

  function ReadPreamble(s: seq<byte>, own: nat): Result<Preamble>
    requires |s| == 8
  {
    if s == STOP_REQUEST then Ok(Stop)
    else if s[..4] != MAGIC then Invalid
    else Ok(if Value(s[4..]) == own then Normal else Incompatible)
  }

  /** `server_preamble`: everything but a stop request and an unknown magic is answered. */
  method ServerPreamble(input: Stream, output: Stream) returns (r: Result<Preamble>)
    requires input != output
    modifies input, output
    ensures |old(input.cells)| < 8 ==> r == Invalid && output.cells == old(output.cells)
    ensures |old(input.cells)| >= 8 ==>
              && input.cells == old(input.cells)[8..]
              && r == ReadPreamble(Values(old(input.cells)[..8]), VERSION)
              && output.cells == old(output.cells)
                 + if r.Ok? && !r.value.Stop? then Plain(NormalPreamble(VERSION)) else []
  {
    var request :- input.ReadExact(8);
    if request == STOP_REQUEST { return Ok(Stop); }
    if request[..4] != MAGIC { return Invalid; }
    var version := Value(request[4..]);
    output.WriteAll(NormalPreamble(VERSION));
    r := Ok(if version == VERSION then Normal else Incompatible);
  }

  /** `client_negotiate` accepts this reply. */
  predicate ClientAccepts(reply: seq<byte>, own: nat)
    requires |reply| == 8
  {
    reply[..4] == MAGIC && Value(reply[4..]) == own
  }

  lemma VersionRoundTrip(version: nat)
    requires version < U32
    ensures Value(NormalPreamble(version)[4..]) == version && NormalPreamble(version)[..4] == MAGIC
  {
    Powers();
    assert NormalPreamble(version)[4..] == BigEndian(version, 4);
    ValueOfBigEndian(version, 4);
  }

  /** No version's preamble is a stop request, and only preambles of some version are negotiated. */
  lemma PreamblesAreDistinct(s: seq<byte>, own: nat)
    requires |s| == 8 && own < U32
    ensures ReadPreamble(s, own) == Ok(Stop) <==> s == STOP_REQUEST
    ensures ReadPreamble(s, own) == Ok(Normal) <==> s == NormalPreamble(own)
    ensures ReadPreamble(s, own) == Ok(Incompatible) <==>
              exists v: nat :: v < U32 && v != own && s == NormalPreamble(v)
    ensures forall v: nat :: NormalPreamble(v) != STOP_REQUEST
  {
    VersionRoundTrip(own);
    Powers();
    BigEndianOfValue(s[4..]);
    var v := Value(s[4..]);
    assert s == s[..4] + s[4..];
    assert s[..4] == MAGIC ==> s == NormalPreamble(v);
    forall v: nat ensures NormalPreamble(v)[3] == 0 {}
    forall v: nat | v < U32 && s == NormalPreamble(v) ensures Value(s[4..]) == v { VersionRoundTrip(v); }
  }

  /** A client and a server of any two versions agree on whether they can talk. */
  lemma NegotiationAgrees(client: nat, server: nat)
    requires client < U32 && server < U32
    ensures var seen := ReadPreamble(NormalPreamble(client), server);
            && seen == Ok(if client == server then Normal else Incompatible)
            && (ClientAccepts(NormalPreamble(server), client) <==> seen == Ok(Normal))
  {
    PreamblesAreDistinct(NormalPreamble(client), server);
    VersionRoundTrip(client);
    VersionRoundTrip(server);
  }
}
