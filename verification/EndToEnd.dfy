/** Whole messages over a connection (src/protocol.rs), and what the client's front end promises about
    the requests it sends (src/cli.rs, src/account.rs, src/client.rs). */
module EndToEnd {
  import opened Base
  import opened Messages
  import opened Utf8
  import opened Encoding
  import opened Parsing
  import opened Codec
  import opened Replies
  import opened Frames
  import ExecArguments
  import Durations
  import Authorization
  import Requests
  import C = Control
  import S = Supervision

  // ---------------------------------------------------------------- requests on a stream

  function RequestFrame(r: Request): Frame { Frame(RequestKind(r), RequestBytes(r), RequestDescriptors(r)) }

  /** `send_request`: all of a request's frame, or nothing. */
  method SendRequest(stream: Stream, r: Request) returns (ok: bool)
    modifies stream
    ensures ok == Encodable(r)
    ensures stream.cells == old(stream.cells) + if ok then Laid(RequestFrame(r)) else []
  {
    var payload := Encode(r);
    if payload.Invalid? { return false; }
    ok := SendFrame(stream, Frame(RequestKind(r), payload.value, RequestDescriptors(r)));
  }

  /** What is received when the first read returns `chunk` bytes. */
  function IncomingRequest(cells: seq<Cell>, chunk: nat): Result<Request>
    requires chunk <= HEADER && chunk <= |cells|
  {
    var got :- Receive(cells, chunk);
    ParseRequest(got.frame.kind, got.frame.payload, got.frame.descriptors)
  }

  /** `receive_request`. */
  method ReceiveRequest(stream: Stream) returns (r: Result<Request>, ghost chunk: nat)
    modifies stream
    ensures chunk <= HEADER && chunk <= |old(stream.cells)| && (chunk == 0 <==> old(stream.cells) == [])
    ensures r == IncomingRequest(old(stream.cells), chunk)
    ensures r.Ok? ==> stream.cells == Receive(old(stream.cells), chunk).value.rest
  {
    var frame;
    frame, chunk := ReceiveFrame(stream);
    if frame.Invalid? { return Invalid, chunk; }
    r := Decode(frame.value.kind, frame.value.payload, frame.value.descriptors);
  }

  /** A request that can be sent arrives unchanged and uses up exactly its own bytes if it is well-formed,
      and is refused if it is not. */
  lemma RequestArrives(r: Request, tail: seq<Cell>, chunk: nat)
    requires Encodable(r) && 0 < chunk <= HEADER
    ensures |Laid(RequestFrame(r))| == HEADER + |RequestBytes(r)|
    ensures IncomingRequest(Laid(RequestFrame(r)) + tail, chunk) == if WellFormed(r) then Ok(r) else Invalid
    ensures WellFormed(r) ==> Receive(Laid(RequestFrame(r)) + tail, chunk).value.rest == tail
  {
    hide ParseRequest;
    hide Receive;
    hide RequestBytes;
    hide Laid;
    FrameRoundTrip(RequestFrame(r), tail, chunk);
    RequestRoundTrip(r);
  }

  /** Whatever the broker accepts is well-formed, and is what that same request would have been sent as. */
  lemma RequestWasSent(cells: seq<Cell>, chunk: nat)
    requires chunk <= HEADER && chunk <= |cells| && IncomingRequest(cells, chunk).Ok?
    ensures var r := IncomingRequest(cells, chunk).value;
            && WellFormed(r) && Encodable(r)
            && Values(cells) == Values(Laid(RequestFrame(r))) + Values(Receive(cells, chunk).value.rest)
  {
    hide ParseRequest;
    hide Receive;
    var got := Receive(cells, chunk).value;
    FrameCanonical(cells, chunk);
    RequestCanonical(got.frame.kind, got.frame.payload, got.frame.descriptors);
    LaidValues(RequestFrame(IncomingRequest(cells, chunk).value));
  }

  lemma LaidValues(f: Frame)
    ensures Values(Laid(f)) == Header(f.kind, |f.payload|) + f.payload
  {
  }

  // ---------------------------------------------------------------- what the client sends

  /** `Account::select`: an empty selector counts as none, and then `OP_ACCOUNT` decides. */
  function SelectAccount(explicit: Option<seq<byte>>, inherited: Option<seq<byte>>): Result<Account> {
    var chosen := if explicit.Some? && explicit.value != [] then explicit else inherited;
    if chosen.None? || chosen.value == [] then Ok(Account(None))
    else if IsUtf8(chosen.value) then Ok(Account(chosen))
    else Invalid
  }

  /** The given selector counts unless it is empty, and then the inherited one unless that is empty. */
  lemma SelectionMeans(explicit: Option<seq<byte>>, inherited: Option<seq<byte>>)
    ensures forall v: seq<byte> :: SelectAccount(explicit, inherited) == Ok(Account(Some(v))) <==>
              v != [] && IsUtf8(v) && (explicit == Some(v) || (explicit in {None, Some([])} && inherited == Some(v)))
    ensures SelectAccount(explicit, inherited) == Ok(Account(None)) <==>
              explicit in {None, Some([])} && inherited in {None, Some([])}
  {
    hide IsUtf8;
  }

  /** What the operating system promises of a working directory and an environment: no NUL, an absolute
      directory and named variables.  A name may hold an equals sign. */
  predicate Captured(c: ClientContext) {
    && c.cwd != [] && 0 !in c.cwd && c.cwd[0] == 0x2F
    && forall k :: 0 <= k < |c.environment| ==>
         c.environment[k].key != [] && 0 !in c.environment[k].key && 0 !in c.environment[k].value
  }

  predicate PlainNames(c: ClientContext) {
    forall k :: 0 <= k < |c.environment| ==> 0x3D !in c.environment[k].key
  }

  /** An argument vector that `opp exec` accepts, for a selector and a context it can send, makes a
      request the broker accepts unless a variable's name holds an equals sign: same arguments in the same
      order, and no account override among them, however the connection cuts the bytes. */
  lemma AcceptedCommandArrives(words: seq<seq<byte>>, at: nat, rounding: Durations.Rounding,
                               inherited: Option<seq<byte>>, context: ClientContext, descriptors: seq<int>,
                               tail: seq<Cell>, chunk: nat)
    requires at < |words| && words[at] == ExecArguments.DASHES && ExecArguments.DASHES !in words[..at]
    requires ExecArguments.MeaningAt(words, at, rounding).Invoke?
    requires SelectAccount(ExecArguments.MeaningAt(words, at, rounding).account, inherited).Ok?
    requires Captured(context) && |descriptors| == 3 && 0 < chunk <= HEADER
    ensures var parsed := ExecArguments.MeaningAt(words, at, rounding);
            var account := SelectAccount(parsed.account, inherited).value;
            && MIN_TIMEOUT <= parsed.timeoutNanos <= MAX_TIMEOUT
            && parsed.arguments == words[at + 1..] && ExecArguments.KeepsAccount(parsed.arguments)
            && var r := Exec(account, parsed.timeoutNanos, parsed.arguments, context, descriptors);
               && (Encodable(r) <==> |RequestBytes(r)| <= MAX_PAYLOAD)
               && (Encodable(r) ==>
                     IncomingRequest(Laid(RequestFrame(r)) + tail, chunk) ==
                     if PlainNames(context) then Ok(r) else Invalid)
  {
    hide IncomingRequest;
    hide RequestBytes;
    hide Laid;
    var parsed := ExecArguments.MeaningAt(words, at, rounding);
    var account := SelectAccount(parsed.account, inherited).value;
    TimeoutInRange(words, at, rounding);
    var r := Exec(account, parsed.timeoutNanos, parsed.arguments, context, descriptors);
    if Encodable(r) {
      RequestFits(r);
      RequestArrives(r, tail, chunk);
      CapturedIsGood(context);
    }
  }

  /** In the environment "=a=b", whose one name is "=a", the accepted command "-- ls" is refused. */
  lemma EqualsSignIsRefused(rounding: Durations.Rounding, descriptors: seq<int>, tail: seq<Cell>, chunk: nat)
    returns (words: seq<seq<byte>>, context: ClientContext)
    requires |descriptors| == 3 && 0 < chunk <= HEADER
    ensures words == [ExecArguments.DASHES, [0x6C, 0x73]] && ExecArguments.MeaningAt(words, 0, rounding).Invoke?
    ensures Captured(context) && context.environment == [Entry([0x3D, 0x61], [0x62])]
    ensures var parsed := ExecArguments.MeaningAt(words, 0, rounding);
            var r := Exec(Account(None), parsed.timeoutNanos, parsed.arguments, context, descriptors);
            Encodable(r) && IncomingRequest(Laid(RequestFrame(r)) + tail, chunk) == Invalid
  {
    hide IncomingRequest;
    hide Laid;
    hide BigEndian;
    var command: seq<byte> := [0x6C, 0x73];
    var variable := Entry([0x3D, 0x61], [0x62]);
    words := [ExecArguments.DASHES, command];
    context := ClientContext([0x2F], [variable]);
    assert words[..0] == [] && words[1..] == [command];
    OneWordIsAccepted(command);
    var parsed := ExecArguments.MeaningAt(words, 0, rounding);
    var r := Exec(Account(None), parsed.timeoutNanos, parsed.arguments, context, descriptors);
    ConcatOfOne(Field, command);
    ConcatOfOne(EntryBytes, variable);
    AcceptedCommandArrives(words, 0, rounding, None, context, descriptors, tail, chunk);
    assert 0x3D in context.environment[0].key;
  }

  lemma OneWordIsAccepted(w: seq<byte>)
    requires |w| == 2 && 0 !in w && !ExecArguments.IsOverride(w)
    ensures ExecArguments.ArgumentsRefusal([w]) == None
  {
    assert [w][..0] == [];
    assert TotalLength([w]) == 2;
  }

  lemma ConcatOfOne<T>(encode: T -> seq<byte>, x: T)
    ensures Concat(encode, [x]) == encode(x)
  {
    assert [x][1..] == [];
  }

  lemma CapturedIsGood(c: ClientContext)
    requires Captured(c) && Short(c.cwd) && |c.environment| < U32 && ShortEntries(c.environment)
    ensures GoodContext(c) <==> PlainNames(c)
  {
  }

  lemma {:induction false} OptionsTimeoutInRange(words: seq<seq<byte>>, so: ExecArguments.Options,
                                                      rounding: Durations.Rounding)
    requires so.timeout.Some? ==> Durations.ValidTimeout(so.timeout.value)
    requires ExecArguments.ReadOptions(words, so, rounding).Good?
    ensures var end := ExecArguments.ReadOptions(words, so, rounding).options;
            end.timeout.Some? ==> Durations.ValidTimeout(end.timeout.value)
    decreases |words|
  {
    hide IsUtf8;
    if words != [] {
      var next := if words[0] == ExecArguments.ACCOUNT && so.account.None? then so.(account := Some(words[1]))
                  else so.(timeout := Durations.Meaning(words[1], rounding));
      OptionsTimeoutInRange(words[2..], next, rounding);
    }
  }

  lemma TimeoutInRange(words: seq<seq<byte>>, at: nat, rounding: Durations.Rounding)
    requires at < |words| && ExecArguments.MeaningAt(words, at, rounding).Invoke?
    ensures MIN_TIMEOUT <= ExecArguments.MeaningAt(words, at, rounding).timeoutNanos <= MAX_TIMEOUT
  {
    OptionsTimeoutInRange(words[..at], ExecArguments.Options(None, None), rounding);
  }

  // ---------------------------------------------------------------- what the broker answers

  /** What the client reads of a response, for any cut of the stream. */
  function Answer(cells: seq<Cell>, chunk: nat): Result<Response>
    requires chunk <= HEADER && chunk <= |cells|
  {
    var got :- Receive(cells, chunk);
    ReadResponse(got.frame)
  }

  lemma ResponseArrives(r: Response, tail: seq<Cell>, chunk: nat)
    requires Sendable(r) && |ResponseFrame(r).payload| <= MAX_PAYLOAD && 0 < chunk <= HEADER
    ensures |Laid(ResponseFrame(r))| >= HEADER
    ensures Answer(Laid(ResponseFrame(r)) + tail, chunk) == if Readable(r) then Ok(r) else Invalid
  {
    hide ReadResponse;
    hide Receive;
    FrameRoundTrip(ResponseFrame(r), tail, chunk);
    ResponseRoundTrip(r);
  }

  /** What the client reads when the broker sent `r` and then `tail`. */
  function ClientReads(r: Response, tail: seq<Cell>, chunk: nat): Result<Response>
    requires Sendable(r) && chunk <= HEADER
  {
    Answer(Laid(ResponseFrame(r)) + tail, chunk)
  }

  lemma ReadableIsHeard(r: Response, tail: seq<Cell>, chunk: nat)
    requires Readable(r) && Sendable(r) && |ResponseFrame(r).payload| <= MAX_PAYLOAD && 0 < chunk <= HEADER
    ensures ClientReads(r, tail, chunk) == Ok(r)
  {
    ResponseArrives(r, tail, chunk);
  }

  /** However a supervised command ends, the client learns it: the exit code, 128 plus the signal, that it
      timed out, that it was cancelled, or that it never ran. */
  lemma CommandReportArrives(run: Authorization.Run, cancellable: bool, shutdown: bool, tail: seq<Cell>, chunk: nat)
    requires Authorization.Met(run, cancellable, shutdown) && 0 < chunk <= HEADER
    ensures match Requests.CommandResponse(run.result)
            case None => run.result == Authorization.Ended(S.Shutdown)
            case Some(r) =>
              && Sendable(r)
              && var read := ClientReads(r, tail, chunk);
                 match run.result
                 case NotRun => read == Ok(Error(ProcessStart))
                 case Ended(Exited(code)) => read == Ok(Completed(code, NoDiagnostic))
                 case Ended(Signaled(signal)) => read == Ok(Completed(128 + signal, NoDiagnostic))
                 case Ended(TimedOut) => read == Ok(Completed(124, Timeout))
                 case Ended(Cancelled(signal)) =>
                   read == Ok(if signal > 0 then Completed(128 + signal, NoDiagnostic) else Error(ErrorCode.Cancelled))
                 case Ended(Shutdown) => false
  {
    hide ClientReads;
    Requests.CommandResponseReadable(run, cancellable, shutdown);
    var report := Requests.CommandResponse(run.result);
    if report.Some? { ReadableIsHeard(report.value, tail, chunk); }
  }

  /** Two commands of which a client reads the same had the same exit code if both exited, and timed out or
      failed to start both or neither. */
  lemma ReportsReadAlike(p: Authorization.Run, q: Authorization.Run, tail: seq<Cell>, chunk: nat)
    requires Authorization.Met(p, true, true) && Authorization.Met(q, true, true) && 0 < chunk <= HEADER
    requires var r, s := Requests.CommandResponse(p.result), Requests.CommandResponse(q.result);
             r.Some? && s.Some? && Sendable(r.value) && Sendable(s.value)
             && ClientReads(r.value, tail, chunk) == ClientReads(s.value, tail, chunk)
    ensures p.result.Ended? && p.result.outcome.Exited? && q.result.Ended? && q.result.outcome.Exited? ==>
              p.result.outcome.code == q.result.outcome.code
    ensures p.result == Authorization.Ended(S.TimedOut) <==> q.result == Authorization.Ended(S.TimedOut)
    ensures p.result == Authorization.NotRun <==> q.result == Authorization.NotRun
  {
    hide ClientReads;
    CommandReportArrives(p, true, true, tail, chunk);
    CommandReportArrives(q, true, true, tail, chunk);
  }

  /** The client of a cancelled exec reads 128 plus a signal it sent, or that the request was cancelled if it
      hung up without sending one. */
  lemma CancellationArrives(caller: Requests.Caller, during: Requests.Span, r: Response, tail: seq<Cell>, chunk: nat)
    requires Requests.CancelledBy(caller, during, r) && 0 < chunk <= HEADER
    ensures Sendable(r) && caller.Connected?
    ensures || (exists signal :: Cancel(signal) in caller.events
                                 && ClientReads(r, tail, chunk) == Ok(Completed(128 + signal, NoDiagnostic)))
            || (!C.HasCancel(caller.events) && ClientReads(r, tail, chunk) == Ok(Error(ErrorCode.Cancelled)))
  {
    hide ClientReads;
    hide Requests.CancelledBy;
    Requests.CancelledByClient(caller, during, r);
    ReadableIsHeard(r, tail, chunk);
  }
}
