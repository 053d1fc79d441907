/** Values exchanged between clients and the broker (src/protocol.rs, src/account.rs, src/environment.rs). */
module Messages {
  import opened Base
  import opened Clock

  type byte = x: int | 0 <= x < 256

  /** One second to ten minutes, for the command line and the broker alike. */
  const MIN_TIMEOUT: nat := 1_000_000_000
  const MAX_TIMEOUT: nat := 600_000_000_000

  /** Strings are their UTF-8 bytes. */
  datatype Account = Account(selector: Option<seq<byte>>)

  datatype Entry = Entry(key: seq<byte>, value: seq<byte>)

  datatype ClientContext = ClientContext(cwd: seq<byte>, environment: seq<Entry>)

  /** Descriptors are opaque numbers. */
  datatype Request =
    | Start(warningShown: bool, account: Account, opPath: seq<byte>, context: ClientContext)
    | Status(account: Account)
    | Exec(account: Account, timeoutNanos: u64, arguments: seq<seq<byte>>, context: ClientContext,
           descriptors: seq<int>)

  datatype ErrorCode =
    | Operational | AuthorizationRequired | AuthorizationFailed | OpPathMismatch
    | ProcessStart | Protocol | QueueFull | Cancelled

  datatype Diagnostic = NoDiagnostic | Timeout | Internal

  datatype Response =
    | Accepted
    | NeedWarning
    | StatusReport(json: seq<byte>)
    | Completed(exitCode: int, diagnostic: Diagnostic)
    | Error(code: ErrorCode)

  datatype ClientEvent = StreamsClosed | Cancel(signal: int)

  /** SIGHUP, SIGINT, SIGQUIT, SIGTERM. */
  predicate IsCallerSignal(signal: int) { signal == 1 || signal == 2 || signal == 3 || signal == 15 }
}
