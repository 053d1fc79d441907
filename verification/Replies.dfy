/** Response and client-event frames (src/protocol.rs): each decodes to what was sent exactly when the
    receiver's gate admits it, and nothing else decodes. */
module Replies {
  import opened Base
  import opened Messages
  import opened Encoding

  datatype Frame = Frame(kind: byte, payload: seq<byte>, descriptors: seq<int>)

  // ---------------------------------------------------------------- 32-bit signed numbers

  const I32_MAX: int := 0x7FFF_FFFF

  predicate IsI32(x: int) { -I32_MAX - 1 <= x <= I32_MAX }

  /** Two's complement, most significant byte first. */
  function SignedBytes(x: int): seq<byte>
    requires IsI32(x)
  {
    BigEndian(if x < 0 then x + U32 else x, 4)
  }

  function SignedValue(s: seq<byte>): int {
    var n := Value(s);
    if n <= I32_MAX then n else n - U32
  }

  lemma SignedRoundTrip(x: int)
    requires IsI32(x)
    ensures |SignedBytes(x)| == 4 && SignedValue(SignedBytes(x)) == x
  {
    Powers();
    ValueOfBigEndian(if x < 0 then x + U32 else x, 4);
  }

  lemma SignedCanonical(s: seq<byte>)
    requires |s| == 4
    ensures IsI32(SignedValue(s)) && SignedBytes(SignedValue(s)) == s
  {
    Powers();
    BigEndianOfValue(s);
  }

  // ---------------------------------------------------------------- codes

  function ErrorNumber(code: ErrorCode): byte {
    match code
    case Operational => 1
    case AuthorizationRequired => 2
    case AuthorizationFailed => 3
    case OpPathMismatch => 4
    case ProcessStart => 5
    case Protocol => 6
    case QueueFull => 7
    case Cancelled => 8
  }

  function NumberedError(b: byte): Result<ErrorCode> {
    match b
    case 1 => Ok(Operational)
    case 2 => Ok(AuthorizationRequired)
    case 3 => Ok(AuthorizationFailed)
    case 4 => Ok(OpPathMismatch)
    case 5 => Ok(ProcessStart)
    case 6 => Ok(Protocol)
    case 7 => Ok(QueueFull)
    case 8 => Ok(ErrorCode.Cancelled)
    case _ => Invalid
  }

  function DiagnosticNumber(d: Diagnostic): byte {
    match d
    case NoDiagnostic => 0
    case Timeout => 1
    case Internal => 2
  }

  function NumberedDiagnostic(b: byte): Result<Diagnostic> {
    match b
    case 0 => Ok(NoDiagnostic)
    case 1 => Ok(Timeout)
    case 2 => Ok(Internal)
    case _ => Invalid
  }

  // ---------------------------------------------------------------- responses

  /** Exit codes are 32-bit. */
  predicate Sendable(r: Response) { r.Completed? ==> IsI32(r.exitCode) }

  /** The client takes only an exit code that a process can report. */
  predicate Readable(r: Response) { r.Completed? ==> 0 <= r.exitCode <= 255 }

  function ResponseFrame(r: Response): Frame
    requires Sendable(r)
  {
    match r
    case Accepted => Frame(0x80, [], [])
    case NeedWarning => Frame(0x81, [], [])
    case StatusReport(json) => Frame(0x82, json, [])
    case Completed(exitCode, diagnostic) => Frame(0x83, SignedBytes(exitCode) + [DiagnosticNumber(diagnostic)], [])
    case Error(code) => Frame(0x84, [ErrorNumber(code)], [])
  }

  function ReadResponse(f: Frame): Result<Response> {
    if f.descriptors != [] then Invalid
    else if f.kind == 0x80 && f.payload == [] then Ok(Accepted)
    else if f.kind == 0x81 && f.payload == [] then Ok(NeedWarning)
    else if f.kind == 0x82 then Ok(StatusReport(f.payload))
    else if f.kind == 0x83 && |f.payload| == 5 then
      var exitCode := SignedValue(f.payload[..4]);
      if !(0 <= exitCode <= 255) then Invalid
      else
        var diagnostic :- NumberedDiagnostic(f.payload[4]);
        Ok(Completed(exitCode, diagnostic))
    else if f.kind == 0x84 && |f.payload| == 1 then
      var code :- NumberedError(f.payload[0]);
      Ok(Error(code))
    else Invalid
  }

  /** A response arrives as sent exactly when it is readable; otherwise it is refused. */
  lemma ResponseRoundTrip(r: Response)
    requires Sendable(r)
    ensures ReadResponse(ResponseFrame(r)) == if Readable(r) then Ok(r) else Invalid
  {
    if r.Completed? {
      SignedRoundTrip(r.exitCode);
      assert ResponseFrame(r).payload[..4] == SignedBytes(r.exitCode);
    }
  }

  /** Only frames of readable responses are accepted, each for the response it is the frame of. */
  lemma ResponseCanonical(f: Frame)
    requires ReadResponse(f).Ok?
    ensures var r := ReadResponse(f).value; Readable(r) && ResponseFrame(r) == f
  {
    if f.kind == 0x83 {
      SignedCanonical(f.payload[..4]);
      assert f.payload == f.payload[..4] + [f.payload[4]];
    }
  }

  // ---------------------------------------------------------------- client events

  function EventFrame(e: ClientEvent): Result<Frame> {
    match e
    case StreamsClosed => Ok(Frame(4, [], []))
    case Cancel(signal) => if IsCallerSignal(signal) then Ok(Frame(5, SignedBytes(signal), [])) else Invalid
  }

  function ReadEvent(f: Frame): Result<ClientEvent> {
    if f.descriptors != [] then Invalid
    else if f.kind == 4 && f.payload == [] then Ok(StreamsClosed)
    else if f.kind == 5 && |f.payload| == 4 then
      var signal := SignedValue(f.payload);
      if IsCallerSignal(signal) then Ok(Cancel(signal)) else Invalid
    else Invalid
  }

  /** The sender's gate and the receiver's are the same: an event frame exists exactly for what is read back. */
  lemma EventRoundTrip(e: ClientEvent, f: Frame)
    ensures EventFrame(e) == Ok(f) <==> ReadEvent(f) == Ok(e)
  {
    if e.Cancel? && IsCallerSignal(e.signal) { SignedRoundTrip(e.signal); }
    if |f.payload| == 4 { SignedCanonical(f.payload); }
  }
}
