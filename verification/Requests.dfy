/** What the executor is asked and how it answers (src/broker.rs), as relations between the blocks a
    request appended and its answer. */
module Requests {
  import opened Base
  import opened Clock
  import opened Messages
  import opened Authorization
  import opened AuthorizationTheorems
  import opened Replies
  import C = Control
  import S = Supervision

  // ---------------------------------------------------------------- callers

  type Heard = events: seq<ClientEvent> | C.AllFromCaller(events)

  /** Who holds a request's control: nobody else, or a connection's monitor, which hears `events` and
      had made `reached` of its stores when the request was taken from the channel. */
  datatype Caller = Internal | Connected(events: Heard, reached: nat)

  /** What the control shows after the monitor's first `n` stores. */
  function View(caller: Caller, n: nat): C.Atomics {
    match caller
    case Internal => C.UNSET
    case Connected(events, _) => C.Seen(events, Min(n, |C.Stores(events)|))
  }

  lemma CancellationStays(caller: Caller, m: nat, n: nat)
    requires m <= n && View(caller, m).cancelled
    ensures View(caller, n).cancelled
  {
    if caller.Connected? {
      var last := |C.Stores(caller.events)|;
      C.CancelledStays(caller.events, Min(m, last), Min(n, last));
    }
  }

  /** The signal of a cancelled request is one its client sent, or zero if that hung up without sending one. */
  lemma CancelledView(caller: Caller, n: nat)
    requires View(caller, n).cancelled
    ensures caller.Connected? && SentBy(caller.events, View(caller, n).signal)
    ensures View(caller, n).signal == 0 || IsCallerSignal(View(caller, n).signal)
  {
    var at := Min(n, |C.Stores(caller.events)|);
    C.CancelledSignal(caller.events, at, at);
    if Cancel(View(caller, n).signal) in caller.events {
      var k :| 0 <= k < |caller.events| && caller.events[k] == Cancel(View(caller, n).signal);
      assert C.FromCaller(caller.events[k]);
    }
  }

  /** One of the client's cancellations carried `signal`, or there was none and it is 0. */
  predicate SentBy(events: seq<ClientEvent>, signal: int) {
    Cancel(signal) in events || (signal == 0 && !C.HasCancel(events))
  }

  // ---------------------------------------------------------------- the channel

  datatype Incoming = Nothing | Stopped | Envelope(request: Request, caller: Caller)

  /** One receive: without waiting, or waiting at most `wait`. */
  datatype Receipt = Polled(message: Incoming) | Waited(message: Incoming, wait: nat)

  /** A response sent, or `None` for a dropped sender, when the monitor had made `progress` stores. */
  datatype Sent = Sent(response: Option<Response>, progress: nat)

  // ---------------------------------------------------------------- children and the shutdown flag

  /** A child run for a caller, whose control alone can cancel it, and what its wait observed. */
  datatype Child = Child(program: Program, account: Account, caller: Caller, run: Run, polls: seq<S.Poll>)

  function Runs(children: seq<Child>): (events: seq<Event>)
    ensures |events| == |children|
  {
    seq(|children|, i requires 0 <= i < |children| =>
      Ran(children[i].program, children[i].account, children[i].run))
  }

  lemma RunsAppend(children: seq<Child>, c: Child)
    ensures Runs(children + [c]) == Runs(children) + [Ran(c.program, c.account, c.run)]
  {
  }

  predicate AllBy(children: seq<Child>, caller: Caller) {
    forall k :: 0 <= k < |children| ==> children[k].caller == caller
  }

  /** What the executor's own loop does with the shared shutdown flag. */
  datatype FlagUse = Load(value: bool) | Store

  // ---------------------------------------------------------------- answers

  /** `cancel_response`. */
  function CancelAnswer(signal: int): Response {
    if signal > 0 then Completed(128 + signal, NoDiagnostic) else Error(ErrorCode.Cancelled)
  }

  /** From when to when, in stores of the monitor. */
  datatype Span = Span(from: nat, to: nat)

  /** The answer to a request whose control shows a cancellation at some moment of `during`. */
  ghost predicate CancelledBy(caller: Caller, during: Span, r: Response) {
    exists n :: during.from <= n <= during.to && View(caller, n).cancelled && r == CancelAnswer(View(caller, n).signal)
  }

  /** How a requested command's end is reported; `None` only for a shutdown. */
  function CommandResponse(result: ChildResult): Option<Response> {
    match result
    case NotRun => Some(Error(ProcessStart))
    case Ended(Exited(code)) => Some(Completed(code, NoDiagnostic))
    case Ended(Signaled(signal)) => Some(Completed(128 + signal, NoDiagnostic))
    case Ended(TimedOut) => Some(Completed(124, Timeout))
    case Ended(Cancelled(signal)) => Some(CancelAnswer(signal))
    case Ended(Shutdown) => None
  }

  lemma CommandResponseReadable(run: Run, cancellable: bool, shutdown: bool)
    requires Met(run, cancellable, shutdown)
    ensures match CommandResponse(run.result)
            case None => shutdown
            case Some(r) =>
              && Readable(r) && r != Accepted && r != NeedWarning
              && (run.result.Ended? && run.result.outcome.Exited? ==>
                    r == Completed(run.result.outcome.code, NoDiagnostic))
              && (r.Completed? && r.diagnostic != NoDiagnostic <==> run.result == Ended(S.TimedOut))
  {
  }

  /** The client of a cancelled request reads 128 plus a signal it sent, or that it was cancelled when it
      never sent one. */
  lemma CancelledByClient(caller: Caller, during: Span, r: Response)
    requires CancelledBy(caller, during, r)
    ensures Readable(r) && caller.Connected?
    ensures || (exists signal :: Cancel(signal) in caller.events && r == Completed(128 + signal, NoDiagnostic))
            || (r == Error(ErrorCode.Cancelled) && !C.HasCancel(caller.events))
  {
    var n :| during.from <= n <= during.to && View(caller, n).cancelled && r == CancelAnswer(View(caller, n).signal);
    CancelledView(caller, n);
    assert Cancel(0) !in caller.events by {
      assert forall k :: 0 <= k < |caller.events| ==> C.FromCaller(caller.events[k]);
    }
  }

  /** A run that ended as cancelled carries the signal its control showed, cancelled, at a moment of `during`. */
  ghost predicate ShownTo(run: Run, caller: Caller, during: Span) {
    run.result.Ended? && run.result.outcome.Cancelled? ==>
      exists n :: during.from <= n <= during.to && View(caller, n).cancelled
                  && View(caller, n).signal == run.result.outcome.signal
  }

  lemma ShownForLonger(run: Run, caller: Caller, during: Span, longer: Span)
    requires ShownTo(run, caller, during) && longer.from <= during.from && during.to <= longer.to
    ensures ShownTo(run, caller, longer)
  {
  }

  lemma ShownIsCancelled(run: Run, caller: Caller, during: Span)
    requires ShownTo(run, caller, during)
    ensures run.result.Ended? && run.result.outcome.Cancelled? ==>
              CommandResponse(run.result).Some? && CancelledBy(caller, during, CommandResponse(run.result).value)
  {
  }

  // ---------------------------------------------------------------- effects

  /** What an actor is set up with; `render` is the status JSON of an account, `None` when it cannot be
      produced. */
  datatype Setup = Setup(opPath: seq<byte>, render: (Account, Option<Record>) -> Option<seq<byte>>)

  /** How an explicit authorization's end is reported. */
  ghost predicate ExplicitResponse(run: Run, caller: Caller, during: Span, r: Option<Response>) {
    match run.result
    case Ended(Exited(code)) => r == Some(if code == 0 then Accepted else Error(AuthorizationFailed))
    case Ended(Cancelled(_)) => r.Some? && CancelledBy(caller, during, r.value)
    case Ended(Shutdown) => r == None
    case _ => r == Some(Error(AuthorizationFailed))
  }

  /** `start` of `a` on records `r`: the blocks it appended, and its answer. */
  ghost predicate StartEffect(setup: Setup, r: Records, a: Account, warningShown: bool, path: seq<byte>,
                              caller: Caller, during: Span, tail: seq<Block>, answer: Option<Response>)
  {
    && tail != [] && tail[0].Expiring?
    && var expired := Expire(r, tail[0].at);
       if path != setup.opPath || IsActive(expired, a) || !warningShown then
         && |tail| == 1
         && answer == Some(if path != setup.opPath then Error(OpPathMismatch)
                           else if IsActive(expired, a) then Accepted else NeedWarning)
       else
         && |tail| == 2 && tail[1].Explicit? && tail[1].account == a
         && ExplicitResponse(tail[1].run, caller, during, answer)
  }

  /** `status`: the report shows the record as it is after expiry. */
  ghost predicate StatusEffect(setup: Setup, r: Records, a: Account, tail: seq<Block>, answer: Option<Response>) {
    && |tail| == 1 && tail[0].Expiring?
    && var expired := Expire(r, tail[0].at);
       var json := setup.render(a, if IsActive(expired, a) then Some(expired[a]) else None);
       answer == Some(if json.Some? then StatusReport(json.value) else Error(ErrorCode.Operational))
  }

  /** The answer after a check that did not pass. */
  ghost predicate CheckEnding(result: CheckResult, caller: Caller, during: Span, answer: Option<Response>) {
    match result
    case Success => false
    case Failed => answer == Some(Error(AuthorizationRequired))
    case Withdrawn => answer.Some? && CancelledBy(caller, during, answer.value)
    case ShuttingDown => answer == None
  }

  /** How `execute` may end, read off the blocks it appended after its first expiry. */
  ghost predicate CheckedEffect(expired: Records, a: Account, job: Job, caller: Caller, during: Span, tail: seq<Block>,
                                answer: Option<Response>)
  {
    if !IsActive(expired, a) then tail == [] && answer == Some(Error(AuthorizationRequired))
    else
      && tail != []
      && match tail[0]
         case Check(b, c) =>
           && b == a
           && if Verdict(c) == Success then
                // The grant expired while it was being checked.
                && |tail| == 2 && tail[1].Expiring? && answer == Some(Error(AuthorizationRequired))
                && !IsActive(Expire(expired, tail[1].at), a)
              else |tail| == 1 && CheckEnding(Verdict(c), caller, during, answer)
         case Execute(b, _, _, ran, _, run) =>
           && b == a && ran == job && |tail| == 2 && tail[1].Expiring? && answer == CommandResponse(run.result)
           && ShownTo(run, caller, during)
         case _ => false
  }

  lemma EndsWithCheck(expired: Records, a: Account, job: Job, caller: Caller, during: Span, c: Checked,
                      answer: Option<Response>)
    requires IsActive(expired, a) && CheckEnding(Verdict(c), caller, during, answer)
    ensures CheckedEffect(expired, a, job, caller, during, [Check(a, c)], answer)
  {
    hide CancelledBy;
  }

  lemma EndsAtGuard(expired: Records, a: Account, job: Job, caller: Caller, during: Span, c: Checked, guard: nat)
    requires IsActive(expired, a) && Verdict(c) == Success && !IsActive(Expire(expired, guard), a)
    ensures CheckedEffect(expired, a, job, caller, during, [Check(a, c), Expiring(guard)],
                          Some(Error(AuthorizationRequired)))
  {
  }

  lemma EndsWithCommand(expired: Records, a: Account, job: Job, caller: Caller, during: Span, b: Block, last: nat)
    requires IsActive(expired, a) && b.Execute? && b.account == a && b.job == job && ShownTo(b.run, caller, during)
    ensures CheckedEffect(expired, a, job, caller, during, [b, Expiring(last)], CommandResponse(b.run.result))
  {
  }

  /** `execute`. */
  ghost predicate ExecuteEffect(r: Records, a: Account, job: Job, caller: Caller, during: Span, tail: seq<Block>,
                                answer: Option<Response>)
  {
    tail != [] && tail[0].Expiring? && CheckedEffect(Expire(r, tail[0].at), a, job, caller, during, tail[1..], answer)
  }

  /** `handle`, having found the control as it was when `during` began: a request cancelled while queued
      starts nothing, and is answered as cancelled. */
  ghost predicate HandleEffect(setup: Setup, r: Records, request: Request, caller: Caller, during: Span,
                               tail: seq<Block>, answer: Option<Response>)
  {
    if View(caller, during.from).cancelled then
      && tail == [] && answer.Some?
      && if request.Exec? then CancelledBy(caller, during, answer.value)
         else answer.value == Error(ErrorCode.Cancelled)
    else
      match request
      case Start(warningShown, a, path, _) =>
        StartEffect(setup, r, a, warningShown, path, caller, during, tail, answer)
      case Status(a) => StatusEffect(setup, r, a, tail, answer)
      case Exec(a, limit, arguments, _, _) =>
        ExecuteEffect(r, a, Job(arguments, limit), caller, during, tail, answer)
  }

  /** The control is read between the receive and the answer, which was sent at `sent.progress`. */
  ghost predicate Handled(setup: Setup, r: Records, request: Request, caller: Caller, tail: seq<Block>, sent: Sent) {
    exists seen: nat ::
      && seen <= sent.progress && (caller.Connected? ==> caller.reached <= seen)
      && HandleEffect(setup, r, request, caller, Span(seen, sent.progress), tail, sent.response)
  }

  /** What `start` answers is what it leaves behind: it is accepted exactly when the account is then active. */
  lemma AcceptedIsActive(setup: Setup, r: Records, a: Account, warningShown: bool, path: seq<byte>, caller: Caller,
                         during: Span, tail: seq<Block>, answer: Option<Response>, t: Timings)
    requires StartEffect(setup, r, a, warningShown, path, caller, during, tail, answer)
    ensures answer == Some(Accepted) <==> path == setup.opPath && IsActive(AfterAll(r, tail, t), a)
    ensures answer == Some(NeedWarning) <==> path == setup.opPath && !warningShown && !IsActive(AfterAll(r, tail, t), a)
    ensures answer == Some(Error(OpPathMismatch)) <==> path != setup.opPath
    ensures answer == Some(Error(AuthorizationFailed)) <==>
              |tail| == 2 && tail[1].Explicit? && Flunked(tail[1].run)
  {
    var first := [tail[0]];
    assert AfterAll(r, first, t) == Expire(r, tail[0].at) by { assert first[..0] == []; }
    assert tail[..1] == first;
    if |tail| == 2 {
      assert AfterAll(r, tail, t) == After(AfterAll(r, first, t), tail[1], t);
      if answer.Some? && CancelledBy(caller, during, answer.value) { CancelledByClient(caller, during, answer.value); }
    } else {
      assert tail == first;
    }
  }

  /** What an exec is told about its command, in terms of how that ended. */
  lemma ExecuteAnswers(r: Records, a: Account, job: Job, caller: Caller, during: Span, tail: seq<Block>,
                       answer: Option<Response>)
    requires ExecuteEffect(r, a, job, caller, during, tail, answer)
    ensures forall k :: 0 <= k < |tail| && tail[k].Execute? ==>
              match tail[k].run.result
              case NotRun => answer == Some(Error(ProcessStart))
              case Ended(Exited(code)) => answer == Some(Completed(code, NoDiagnostic))
              case Ended(Signaled(signal)) => answer == Some(Completed(128 + signal, NoDiagnostic))
              case Ended(TimedOut) => answer == Some(Completed(124, Timeout))
              case Ended(Cancelled(_)) => answer.Some? && CancelledBy(caller, during, answer.value)
              case Ended(Shutdown) => answer == None
    ensures answer.Some? && answer.value.Completed? ==>
              || (exists k :: 0 <= k < |tail| && tail[k].Execute?)
              || CancelledBy(caller, during, answer.value)
    ensures (forall k :: 0 <= k < |tail| ==> !tail[k].Execute?) && answer.Some? ==>
              answer.value == Error(AuthorizationRequired) || CancelledBy(caller, during, answer.value)
    ensures answer.Some? && answer.value.Completed? && answer.value.diagnostic != NoDiagnostic ==>
              exists k :: 0 <= k < |tail| && tail[k].Execute? && tail[k].run.result == Ended(S.TimedOut)
  {
    if answer.Some? && CancelledBy(caller, during, answer.value) { CancelledByClient(caller, during, answer.value); }
    hide Expire;
    hide CancelledBy;
    hide ShownTo;
    if |tail| > 1 && tail[1].Execute? { ShownIsCancelled(tail[1].run, caller, during); }
  }

  /** A request that was cancelled when it was taken from the channel, by event `k` or because its client
      had hung up, starts nothing; an exec is reported with a signal its client sent. */
  lemma CancelledInTheQueue(setup: Setup, r: Records, request: Request, caller: Caller, tail: seq<Block>, sent: Sent,
                            k: nat)
    requires Handled(setup, r, request, caller, tail, sent) && caller.Connected? && k <= |caller.events|
    requires if k < |caller.events| then
               caller.events[k].Cancel? && |C.StoresOf(caller.events[..k + 1])| <= caller.reached
             else caller.reached >= |C.Stores(caller.events)|
    ensures tail == [] && sent.response.Some?
    ensures !request.Exec? ==> sent.response == Some(Error(ErrorCode.Cancelled))
    ensures request.Exec? ==>
              || (exists signal :: Cancel(signal) in caller.events
                                   && sent.response == Some(Completed(128 + signal, NoDiagnostic)))
              || (!C.HasCancel(caller.events) && sent.response == Some(Error(ErrorCode.Cancelled)))
  {
    hide StartEffect;
    hide StatusEffect;
    hide ExecuteEffect;
    hide CancelledBy;
    var seen: nat :|
      && caller.reached <= seen <= sent.progress
      && HandleEffect(setup, r, request, caller, Span(seen, sent.progress), tail, sent.response);
    CancelReaches(caller, k, seen);
    if request.Exec? { CancelledByClient(caller, Span(seen, sent.progress), sent.response.value); }
  }

  lemma CancelReaches(caller: Caller, k: nat, n: nat)
    requires caller.Connected? && k <= |caller.events|
    requires if k < |caller.events| then caller.events[k].Cancel? && |C.StoresOf(caller.events[..k + 1])| <= n
             else n >= |C.Stores(caller.events)|
    ensures View(caller, n).cancelled
  {
    C.StoresPrefix(caller.events, Min(k + 1, |caller.events|));
    C.CancelledFrom(caller.events, k, Min(n, |C.Stores(caller.events)|));
  }

  // ---------------------------------------------------------------- what a request can cause

  /** The request that block `b` needs: a warned start with the pinned executable for an explicit one, an
      exec of that very job for a command. */
  predicate Asks(setup: Setup, m: Incoming, b: Block) {
    m.Envelope? &&
    match b
    case Explicit(a, _, _, _) =>
      m.request.Start? && m.request.warningShown && m.request.opPath == setup.opPath && m.request.account == a
    case Execute(a, _, _, job, _, _) =>
      m.request.Exec? && m.request.account == a && job == Job(m.request.arguments, m.request.timeoutNanos)
    case _ => true
  }

  predicate NeedsRequest(b: Block) { b.Explicit? || b.Execute? }

  lemma HandledAsks(setup: Setup, r: Records, request: Request, caller: Caller, tail: seq<Block>, sent: Sent, k: nat)
    requires Handled(setup, r, request, caller, tail, sent) && k < |tail| && NeedsRequest(tail[k])
    ensures Asks(setup, Envelope(request, caller), tail[k])
  {
    hide Expire;
    hide CancelledBy;
    hide ExplicitResponse;
  }
}
