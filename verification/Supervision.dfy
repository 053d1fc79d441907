/** Supervision of one child process group (src/process.rs).  Everything outside the loop is an
    adversary: a `Poll` holds the answer every system call would give if it were made during that
    iteration, so a sequence of polls is one behaviour of the environment. */
module Supervision {
  import opened Base
  import opened Clock
  import Messages

  const POLL_INTERVAL: nat := 10 * MILLISECOND
  const TERMINATION_GRACE: nat := 2 * SECOND
  const SIGKILL: int := 9

  datatype Outcome =
    | Exited(code: int)
    | Signaled(signal: int)
    | TimedOut
    | Cancelled(signal: int)
    | Shutdown

  datatype WaitStatus = ByExit(code: int) | BySignal(signal: int) | Other
  datatype WaitReply = StillAlive | Changed(status: WaitStatus) | WaitFailed
  datatype KillReply = Delivered | NoSuchGroup | KillFailed
  datatype GroupReply = Present | Absent | CheckFailed

  /** `clock`, `termClock`, `killClock` and `sleepClock` are the four separate clock samples. */
  datatype Poll = Poll(
    wait: WaitReply,
    shutdown: bool, cancelled: bool, signal: int, clock: nat,
    term: KillReply, termClock: nat,
    killClock: nat, kill: KillReply,
    streamsClosed: bool, shutdownAtExit: bool, group: GroupReply,
    sleepClock: nat)

  datatype Sent = Term(poll: nat, at: nat) | Kill(poll: nat, at: nat)

  datatype FailedCall = Waiting | Signalling | Checking

  /** `Unfinished` is a loop still running when the observed polls end. */
  datatype WaitResult = Finished(outcome: Outcome) | Failed(call: FailedCall) | Unfinished

  // ---------------------------------------------------------------- what a run must look like

  /** Why an iteration would start termination, in the order the source asks. */
  function Reason(p: Poll, deadline: Option<nat>): Option<Outcome> {
    if p.shutdown then Some(Shutdown)
    else if p.cancelled then Some(Cancelled(p.signal))
    else if deadline.Some? && p.clock >= deadline.value then Some(TimedOut)
    else None
  }

  function MapStatus(s: WaitStatus): Outcome {
    match s
    case ByExit(code) => Exited(code)
    case BySignal(signal) => Signaled(signal)
    case Other => Signaled(SIGKILL)
  }

  /** No reason to terminate appeared in the first `n` polls. */
  predicate Quiet(polls: seq<Poll>, deadline: Option<nat>, n: nat)
    requires n <= |polls|
  {
    forall i :: 0 <= i < n ==> Reason(polls[i], deadline) == None
  }

  /** The grace period given at poll `k` had not run out at any of the polls strictly between. */
  predicate WithinGrace(polls: seq<Poll>, k: nat, end: nat)
    requires k < |polls| && end <= |polls|
  {
    forall m :: k < m < end ==> polls[m].killClock < Add(polls[k].termClock, TERMINATION_GRACE)
  }

  /** `signals` is the whole escalation of the first `n` polls: TERM at the first reason, and KILL at
      the first later poll whose sample is past the grace period. */
  predicate Escalated(polls: seq<Poll>, deadline: Option<nat>, n: nat, signals: seq<Sent>)
    requires n <= |polls|
  {
    if signals == [] then Quiet(polls, deadline, n)
    else
      var k := signals[0].poll;
      && k < n && signals[0] == Term(k, polls[k].termClock)
      && Quiet(polls, deadline, k) && Reason(polls[k], deadline).Some?
      && if |signals| == 1 then WithinGrace(polls, k, n)
         else
           var j := signals[1].poll;
           && |signals| == 2 && k < j < n && signals[1] == Kill(j, polls[j].killClock)
           && WithinGrace(polls, k, j)
           && polls[j].killClock >= Add(polls[k].termClock, TERMINATION_GRACE)
  }

  /** `waits` calls of `waitpid` were made: all but the last found the leader alive. */
  predicate ReapedBy(polls: seq<Poll>, n: nat, waits: nat)
    requires n <= |polls|
  {
    && 0 < waits <= n
    && polls[waits - 1].wait.Changed?
    && forall i :: 0 <= i < waits - 1 ==> polls[i].wait.StillAlive?
  }

  predicate NotReaped(polls: seq<Poll>, n: nat)
    requires n <= |polls|
  {
    forall i :: 0 <= i < n ==> polls[i].wait.StillAlive?
  }

  /** Poll `m` lets the loop end. */
  predicate CanLeave(polls: seq<Poll>, deadline: Option<nat>, m: nat)
    requires m < |polls|
  {
    && !NotReaped(polls, m + 1)
    && (polls[m].streamsClosed || polls[m].shutdownAtExit)
    && (Quiet(polls, deadline, m + 1) || polls[m].group.Absent?)
  }

  predicate NeverCouldLeave(polls: seq<Poll>, deadline: Option<nat>, n: nat)
    requires n <= |polls|
  {
    forall m :: 0 <= m < n ==> !CanLeave(polls, deadline, m)
  }

  /** The outcome of a leader that nothing disturbed, read off the last answer of `waitpid`. */
  predicate Reaped(wait: WaitReply, outcome: Outcome) {
    match outcome
    case Exited(code) => wait == Changed(ByExit(code))
    case Signaled(signal) => wait == Changed(BySignal(signal)) || (wait == Changed(Other) && signal == SIGKILL)
    case _ => false
  }

  /** The outcome of a wait that poll `p` made terminate: a shutdown hides a cancellation, and both the deadline. */
  predicate CutShort(p: Poll, deadline: Option<nat>, outcome: Outcome) {
    match outcome
    case Shutdown => p.shutdown
    case Cancelled(signal) => !p.shutdown && p.cancelled && signal == p.signal
    case TimedOut => !p.shutdown && !p.cancelled && deadline.Some? && p.clock >= deadline.value
    case _ => false
  }

  /** The clock sample behind a verdict: the deadline check of the last quiet poll, or of the latch. */
  function Latched(polls: seq<Poll>, used: nat, signals: seq<Sent>): nat
    requires 0 < used <= |polls| && (signals != [] ==> signals[0].poll < |polls|)
  {
    if signals == [] then polls[used - 1].clock else polls[signals[0].poll].clock
  }

  // ---------------------------------------------------------------- the loop

  /** The loop's `termination` and `killDeadline` variables agree with the signals sent so far. */
  predicate LatchAgrees(polls: seq<Poll>, deadline: Option<nat>, n: nat, signals: seq<Sent>,
                        termination: Option<Outcome>, killDeadline: Option<nat>)
    requires n <= |polls|
  {
    && Escalated(polls, deadline, n, signals)
    && (termination.None? <==> signals == [])
    && (signals != [] ==> termination == Reason(polls[signals[0].poll], deadline))
    && killDeadline == if |signals| == 1 then Some(Add(polls[signals[0].poll].termClock, TERMINATION_GRACE)) else None
  }

  /** The latch and the escalation of one iteration; `ok` is false when a signal could not be sent. */
  method Escalate(polls: seq<Poll>, deadline: Option<nat>, i: nat, sent: seq<Sent>,
                  latched: Option<Outcome>, graceEnd: Option<nat>)
    returns (ok: bool, signals: seq<Sent>, termination: Option<Outcome>, killDeadline: Option<nat>)
    requires i < |polls| && LatchAgrees(polls, deadline, i, sent, latched, graceEnd)
    ensures Escalated(polls, deadline, i + 1, signals)
    ensures ok ==> LatchAgrees(polls, deadline, i + 1, signals, termination, killDeadline)
    ensures !ok ==> |signals| == |sent| + 1 && signals[|sent|].poll == i
                    && (if |signals| == 1 then polls[i].term else polls[i].kill).KillFailed?
  {
    var p := polls[i];
    ok, signals, termination, killDeadline := true, sent, latched, graceEnd;
    if termination.None? {
      if p.shutdown {
        termination := Some(Shutdown);
      } else if p.cancelled {
        termination := Some(Cancelled(p.signal));
      } else if deadline.Some? && p.clock >= deadline.value {
        termination := Some(TimedOut);
      }
      if termination.Some? {
        signals := signals + [Term(i, p.termClock)];
        ok := !p.term.KillFailed?;
        killDeadline := Some(Add(p.termClock, TERMINATION_GRACE));
      }
    } else if killDeadline.Some? && p.killClock >= killDeadline.value {
      signals := signals + [Kill(i, p.killClock)];
      ok := !p.kill.KillFailed?;
      killDeadline := None;
    }
  }

  /** The loop's `status` variable agrees with the `waitpid` calls made so far. */
  predicate StatusAgrees(polls: seq<Poll>, n: nat, status: Option<WaitStatus>, waits: nat)
    requires n <= |polls|
  {
    match status
    case None => NotReaped(polls, n) && waits == n
    case Some(value) => ReapedBy(polls, n, waits) && polls[waits - 1].wait.status == value
  }

  /** The `waitpid` of one iteration, skipped once the leader has been reaped. */
  method Reap(polls: seq<Poll>, i: nat, known: Option<WaitStatus>, made: nat)
    returns (ok: bool, status: Option<WaitStatus>, waits: nat)
    requires i < |polls| && StatusAgrees(polls, i, known, made)
    ensures ok ==> StatusAgrees(polls, i + 1, status, waits)
    ensures !ok ==> polls[i].wait.WaitFailed? && waits == i + 1 && NotReaped(polls, i)
  {
    ok, status, waits := true, known, made;
    if status.None? {
      waits := waits + 1;
      match polls[i].wait {
        case StillAlive =>
        case Changed(value) => status := Some(value);
        case WaitFailed => ok := false;
      }
    }
  }

  /** The sleep after a poll: ten milliseconds, or only up to a nearer deadline, but at least one. */
  predicate ShortPause(p: Poll, deadline: Option<nat>, pause: nat) {
    if deadline.None? || p.sleepClock + 10 * MILLISECOND <= deadline.value then pause == 10 * MILLISECOND
    else if p.sleepClock + MILLISECOND <= deadline.value then p.sleepClock + pause == deadline.value
    else pause == MILLISECOND
  }

  function Pause(p: Poll, deadline: Option<nat>): (pause: nat)
    ensures ShortPause(p, deadline, pause)
  {
    Max(if deadline.Some? then Min(Remaining(p.sleepClock, deadline.value), POLL_INTERVAL) else POLL_INTERVAL,
        MILLISECOND)
  }

  /** What the loop guarantees when it ends with a verdict. */
  predicate Supervised(polls: seq<Poll>, deadline: Option<nat>, outcome: Outcome, used: nat, signals: seq<Sent>,
                       waits: nat)
  {
    && 0 < used <= |polls|
    && Escalated(polls, deadline, used, signals)
    && ReapedBy(polls, used, waits)
    && CanLeave(polls, deadline, used - 1)
    && NeverCouldLeave(polls, deadline, used - 1)
    && (if signals == [] then Reaped(polls[waits - 1].wait, outcome)
        else CutShort(polls[signals[0].poll], deadline, outcome))
    && (signals != [] ==> polls[used - 1].group.Absent?)
  }

  /** What it guarantees when one of its own system calls fails. */
  predicate GaveUp(polls: seq<Poll>, deadline: Option<nat>, call: FailedCall, used: nat, signals: seq<Sent>,
                   waits: nat)
  {
    && 0 < used <= |polls|
    && Escalated(polls, deadline, if call.Waiting? then used - 1 else used, signals)
    && NeverCouldLeave(polls, deadline, used - 1)
    && match call
       case Waiting => polls[used - 1].wait.WaitFailed? && waits == used && NotReaped(polls, used - 1)
       case Signalling => signals != [] && signals[|signals| - 1].poll == used - 1
                          && (if |signals| == 1 then polls[used - 1].term else polls[used - 1].kill).KillFailed?
       case Checking => polls[used - 1].group.CheckFailed? && signals != []
  }

  /** What it guarantees as long as it runs. */
  predicate StillRunning(polls: seq<Poll>, deadline: Option<nat>, used: nat, signals: seq<Sent>, waits: nat) {
    && used <= |polls|
    && Escalated(polls, deadline, used, signals)
    && NeverCouldLeave(polls, deadline, used)
    && (ReapedBy(polls, used, waits) || (NotReaped(polls, used) && waits == used))
  }

  /** The exit test of one iteration; `Unfinished` means go round again. */
  method TryLeave(polls: seq<Poll>, deadline: Option<nat>, used: nat, status: Option<WaitStatus>,
                  termination: Option<Outcome>, signals: seq<Sent>, waits: nat)
    returns (result: WaitResult)
    requires 0 < used <= |polls| && NeverCouldLeave(polls, deadline, used - 1)
    requires StatusAgrees(polls, used, status, waits)
    requires Escalated(polls, deadline, used, signals) && (termination.None? <==> signals == [])
    requires signals != [] ==> termination == Reason(polls[signals[0].poll], deadline)
    ensures match result
            case Finished(outcome) => Supervised(polls, deadline, outcome, used, signals, waits)
            case Failed(call) => GaveUp(polls, deadline, call, used, signals, waits)
            case Unfinished => NeverCouldLeave(polls, deadline, used)
  {
    var p := polls[used - 1];
    result := Unfinished;
    if status.Some? && (p.streamsClosed || p.shutdownAtExit) {
      result := if termination.None? then Finished(MapStatus(status.value))
                else match p.group
                     case Absent => Finished(termination.value)
                     case CheckFailed => Failed(Checking)
                     case Present => Unfinished;
    }
    assert Quiet(polls, deadline, used) <==> signals == [];
  }

  lemma StartAgrees(polls: seq<Poll>, deadline: Option<nat>)
    ensures StatusAgrees(polls, 0, None, 0) && LatchAgrees(polls, deadline, 0, [], None, None)
  {
  }

  /** How long the loop sleeps after each of its first `n` polls. */
  predicate Slept(polls: seq<Poll>, deadline: Option<nat>, n: nat, pauses: seq<nat>)
    requires n <= |polls|
  {
    |pauses| == n && forall i :: 0 <= i < n ==> pauses[i] == Pause(polls[i], deadline)
  }

  /** `wait_inner`.  Besides its result the method reports the polls begun, the signals sent, the
      number of `waitpid` calls, and how long it slept after each poll but a last one. */
  method WaitInner(polls: seq<Poll>, deadline: Option<nat>)
    returns (result: WaitResult, used: nat, signals: seq<Sent>, waits: nat, pauses: seq<nat>)
    ensures used <= |polls| && (!result.Unfinished? ==> used > 0)
    ensures Slept(polls, deadline, if result.Unfinished? then used else used - 1, pauses)
    ensures match result
            case Finished(outcome) => Supervised(polls, deadline, outcome, used, signals, waits)
            case Failed(call) => GaveUp(polls, deadline, call, used, signals, waits)
            case Unfinished => used == |polls| && StillRunning(polls, deadline, used, signals, waits)
  {
    hide Supervised;
    hide Escalated;
    hide CanLeave;
    StartAgrees(polls, deadline);
    var status: Option<WaitStatus> := None;
    var termination: Option<Outcome> := None;
    var killDeadline: Option<nat> := None;
    used, signals, waits, pauses := 0, [], 0, [];

    while used < |polls|
      invariant used <= |polls| && NeverCouldLeave(polls, deadline, used)
      invariant StatusAgrees(polls, used, status, waits)
      invariant LatchAgrees(polls, deadline, used, signals, termination, killDeadline)
      invariant Slept(polls, deadline, used, pauses)
    {
      used := used + 1;

      var ok;
      ok, status, waits := Reap(polls, used - 1, status, waits);
      if !ok { result := Failed(Waiting); return; }

      ok, signals, termination, killDeadline := Escalate(polls, deadline, used - 1, signals, termination, killDeadline);
      if !ok { result := Failed(Signalling); return; }

      result := TryLeave(polls, deadline, used, status, termination, signals, waits);
      if !result.Unfinished? { return; }
      pauses := pauses + [Pause(polls[used - 1], deadline)];
    }
    result := Unfinished;
  }

  // ---------------------------------------------------------------- what a verdict means

  /** The escalation is a function of the environment: nothing else could have been sent. */
  lemma EscalationIsDetermined(polls: seq<Poll>, deadline: Option<nat>, n: nat, s: seq<Sent>, t: seq<Sent>)
    requires n <= |polls| && Escalated(polls, deadline, n, s) && Escalated(polls, deadline, n, t)
    ensures s == t
  {
    if s != [] && t != [] {
      assert s[0].poll == t[0].poll;
      if |s| == 2 && |t| == 2 { assert s[1].poll == t[1].poll; }
    }
  }

  /** TERM once, then KILL at most once and never within two seconds of it, short of the end of 64-bit time. */
  lemma TermThenKill(polls: seq<Poll>, deadline: Option<nat>, n: nat, s: seq<Sent>)
    requires n <= |polls| && Escalated(polls, deadline, n, s)
    ensures |s| <= 2 && (s != [] ==> s[0].Term?)
    ensures |s| == 2 ==> s[1].Kill? && s[0].poll < s[1].poll && (s[1].at >= s[0].at + 2 * SECOND || s[1].at >= U64_MAX)
  {
  }

  /** Poll `p` gives no reason to terminate. */
  predicate Undisturbed(p: Poll, deadline: Option<nat>) {
    !p.shutdown && !p.cancelled && (deadline.Some? ==> p.clock < deadline.value)
  }

  /** A wait that sent no signal was never disturbed, and reports the status of the one leader reaped. */
  lemma NaturalEnd(polls: seq<Poll>, deadline: Option<nat>, outcome: Outcome, used: nat, signals: seq<Sent>, waits: nat)
    requires Supervised(polls, deadline, outcome, used, signals, waits) && signals == []
    ensures forall i :: 0 <= i < used ==> Undisturbed(polls[i], deadline)
    ensures 0 < waits <= used && forall i :: 0 <= i < waits - 1 ==> polls[i].wait == StillAlive
    ensures forall c :: outcome == Exited(c) <==> polls[waits - 1].wait == Changed(ByExit(c))
    ensures forall n :: outcome == Signaled(n) <==>
              polls[waits - 1].wait == Changed(BySignal(n)) || (n == 9 && polls[waits - 1].wait == Changed(Other))
  {
    forall i | 0 <= i < used ensures Undisturbed(polls[i], deadline) {
      assert Reason(polls[i], deadline) == None;
    }
  }

  /** A wait that sent a signal reports the first poll that was disturbed, and waited for the group to go:
      shutdown before cancellation, with the signal read there, before the deadline. */
  lemma ForcedEnd(polls: seq<Poll>, deadline: Option<nat>, outcome: Outcome, used: nat, signals: seq<Sent>, waits: nat)
    requires Supervised(polls, deadline, outcome, used, signals, waits) && signals != []
    ensures var k := signals[0].poll;
            && k < used && !Undisturbed(polls[k], deadline)
            && (forall i :: 0 <= i < k ==> Undisturbed(polls[i], deadline))
            && outcome == (if polls[k].shutdown then Shutdown
                           else if polls[k].cancelled then Cancelled(polls[k].signal) else TimedOut)
    ensures polls[used - 1].group.Absent?
  {
    var k := signals[0].poll;
    forall i | 0 <= i < k ensures Undisturbed(polls[i], deadline) { assert Reason(polls[i], deadline) == None; }
    assert Reason(polls[k], deadline).Some?;
  }

  /** The ranges the kernel promises of a reaped leader. */
  predicate KernelRanges(p: Poll) {
    && (p.wait.Changed? && p.wait.status.ByExit? ==> 0 <= p.wait.status.code <= 255)
    && (p.wait.Changed? && p.wait.status.BySignal? ==> 1 <= p.wait.status.signal <= 127)
  }

  /** Which flags the environment may raise during a wait: cancellation needs somebody holding the
      request's control, and a shutdown seen by the wait is still set afterwards. */
  predicate Attributable(polls: seq<Poll>, cancellable: bool, shutdown: bool) {
    forall i :: 0 <= i < |polls| ==>
      && KernelRanges(polls[i]) && (polls[i].shutdown ==> shutdown)
      && (polls[i].cancelled ==> cancellable && (polls[i].signal == 0 || Messages.IsCallerSignal(polls[i].signal)))
  }

  /** What a caller may rely on; `latched` is the clock sample behind the verdict. */
  predicate Contract(outcome: Outcome, latched: nat, deadline: Option<nat>, cancellable: bool, shutdown: bool) {
    match outcome
    case Exited(code) => 0 <= code <= 255 && (deadline.Some? ==> latched < deadline.value)
    case Signaled(signal) => 1 <= signal <= 127 && (deadline.Some? ==> latched < deadline.value)
    case TimedOut => deadline.Some? && latched >= deadline.value
    case Cancelled(signal) => cancellable && (signal == 0 || Messages.IsCallerSignal(signal))
    case Shutdown => shutdown
  }

  lemma SupervisedMeetsContract(polls: seq<Poll>, deadline: Option<nat>, outcome: Outcome, used: nat,
                                signals: seq<Sent>, waits: nat, cancellable: bool, shutdown: bool)
    requires Supervised(polls, deadline, outcome, used, signals, waits) && Attributable(polls, cancellable, shutdown)
    ensures Contract(outcome, Latched(polls, used, signals), deadline, cancellable, shutdown)
    ensures outcome.Exited? ==> 0 < waits <= used && polls[waits - 1].wait == Changed(ByExit(outcome.code))
    ensures outcome.Cancelled? ==> exists i :: 0 <= i < used && polls[i].cancelled && polls[i].signal == outcome.signal
  {
    assert KernelRanges(polls[waits - 1]);
    if signals == [] {
      assert Reason(polls[used - 1], deadline) == None;
    } else {
      assert KernelRanges(polls[signals[0].poll]);
    }
  }

  // ---------------------------------------------------------------- how long it can take

  /** Samples of one poll are ordered, and a sleep lasts at least as long as the loop asks for. */
  predicate Ticking(polls: seq<Poll>, deadline: Option<nat>) {
    && (forall i :: 0 <= i < |polls| ==>
          var p := polls[i];
          p.clock <= p.termClock <= p.sleepClock && p.clock <= p.killClock <= p.sleepClock)
    && (forall i :: 0 <= i < |polls| - 1 ==> polls[i].sleepClock + Pause(polls[i], deadline) <= polls[i + 1].clock)
  }

  /** Within `patience` polls of the KILL the leader is waitable, its group gone, its streams closed. */
  predicate DiesOfKill(polls: seq<Poll>, signals: seq<Sent>, patience: nat) {
    |signals| == 2 ==>
      forall i :: signals[1].poll + patience <= i < |polls| ==>
        polls[i].wait.Changed? && polls[i].group.Absent? && polls[i].streamsClosed
  }

  const GRACE_POLLS: nat := 2_000

  /** Polls until the deadline, through the grace period, and for the environment to react. */
  function PollBound(start: nat, deadline: nat, patience: nat): nat {
    (Remaining(start, deadline) + MILLISECOND - 1) / MILLISECOND + GRACE_POLLS + patience
  }

  lemma {:induction false} ClockAdvances(polls: seq<Poll>, deadline: Option<nat>, i: nat, j: nat)
    requires Ticking(polls, deadline) && i < j < |polls|
    ensures polls[i].sleepClock + (j - i) * MILLISECOND <= polls[j].clock
    decreases j
  {
    if j > i + 1 {
      ClockAdvances(polls, deadline, i, j - 1);
    }
  }

  lemma QuietEndsAtDeadline(polls: seq<Poll>, deadline: nat, n: nat)
    requires Ticking(polls, Some(deadline)) && 0 < n <= |polls| && Quiet(polls, Some(deadline), n)
    ensures n <= (Remaining(polls[0].clock, deadline) + MILLISECOND - 1) / MILLISECOND
  {
    assert Reason(polls[n - 1], Some(deadline)) == None;
    if n > 1 { ClockAdvances(polls, Some(deadline), 0, n - 1); }
  }

  lemma GraceEnds(polls: seq<Poll>, deadline: Option<nat>, k: nat, end: nat)
    requires Ticking(polls, deadline) && k < end <= |polls| && WithinGrace(polls, k, end)
    ensures end - k <= GRACE_POLLS
  {
    if k + 1 < end { ClockAdvances(polls, deadline, k, end - 1); }
  }

  lemma CanLeaveAfterKill(polls: seq<Poll>, deadline: Option<nat>, signals: seq<Sent>, patience: nat)
    requires |signals| == 2 && DiesOfKill(polls, signals, patience)
    ensures forall i :: signals[1].poll + patience <= i < |polls| ==> CanLeave(polls, deadline, i)
  {
    forall i | signals[1].poll + patience <= i < |polls| ensures CanLeave(polls, deadline, i) {
      assert polls[i].wait.Changed?;
    }
  }

  /** A loop with a deadline still running after its observed polls has not exceeded the bound, so
      it always ends within one poll of it. */
  lemma WaitIsBounded(polls: seq<Poll>, deadline: nat, used: nat, signals: seq<Sent>, waits: nat, patience: nat)
    requires 0 < used == |polls| && StillRunning(polls, Some(deadline), used, signals, waits)
    requires Ticking(polls, Some(deadline)) && DiesOfKill(polls, signals, patience)
    ensures used <= PollBound(polls[0].clock, deadline, patience)
  {
    if signals == [] {
      QuietEndsAtDeadline(polls, deadline, used);
    } else {
      var k := signals[0].poll;
      if k > 0 { QuietEndsAtDeadline(polls, deadline, k); }
      if |signals| == 1 {
        GraceEnds(polls, Some(deadline), k, used);
      } else {
        var j := signals[1].poll;
        GraceEnds(polls, Some(deadline), k, j);
        CanLeaveAfterKill(polls, Some(deadline), signals, patience);
        assert !CanLeave(polls, Some(deadline), used - 1);
      }
    }
  }

  // ---------------------------------------------------------------- launching and cleaning up

  /** The answers of the calls around the wait.  `prepared` covers a probe's pipes and drain threads;
      a requested command brings its own descriptors. */
  datatype Launch = Launch(prepared: bool, spawned: bool, foregrounded: bool, continued: bool, restored: bool)

  datatype Call = Spawn | Foreground | Continue | Wait | KillGroup | Collect | Restore

  datatype RunResult = Returned(outcome: Outcome) | Error | Running

  /** The whole group is killed, and then the leader collected. */
  predicate KilledAndCollected(calls: seq<Call>) {
    exists k :: 0 <= k < |calls| - 1 && calls[k].KillGroup? && calls[k + 1].Collect?
  }

  /** The wait ended with this outcome, decided on this sample. */
  ghost predicate EndedBy(polls: seq<Poll>, deadline: Option<nat>, outcome: Outcome, latched: nat) {
    exists used, signals, waits ::
      Supervised(polls, deadline, outcome, used, signals, waits) && latched == Latched(polls, used, signals)
  }

  /** `Runner::run` and `Runner::probe`: the same sequence once their descriptors are ready. */
  method Supervise(launch: Launch, polls: seq<Poll>, deadline: Option<nat>,
                   ghost cancellable: bool, ghost shutdown: bool)
    returns (result: RunResult, latched: nat, calls: seq<Call>)
    requires Attributable(polls, cancellable, shutdown)
    ensures result.Returned? ==>
              && Contract(result.outcome, latched, deadline, cancellable, shutdown)
              && calls == [Spawn, Foreground, Continue, Wait, Restore] && launch.restored
              && EndedBy(polls, deadline, result.outcome, latched)
              && (result.outcome.Exited? ==>
                    exists i :: 0 <= i < |polls| && polls[i].wait == Changed(ByExit(result.outcome.code)))
    // A spawned child never outlives an error: the loop reaped it, or its group is killed and it is collected.
    ensures result.Error? && Spawn in calls && launch.spawned ==>
              || KilledAndCollected(calls)
              || exists outcome, used, signals, waits :: Supervised(polls, deadline, outcome, used, signals, waits)
    // The terminal is handed back whenever it was handed over.
    ensures !result.Running? && Foreground in calls && launch.foregrounded ==> calls[|calls| - 1] == Restore
  {
    result, latched, calls := Error, 0, [];
    if !launch.prepared { return; }
    calls := calls + [Spawn];
    if !launch.spawned { return; }
    calls := calls + [Foreground];
    if !launch.foregrounded {
      calls := calls + [KillGroup, Collect];
      assert calls[2].KillGroup? && calls[3].Collect?;
      return;
    }
    calls := calls + [Continue];
    if !launch.continued {
      calls := calls + [KillGroup, Collect, Restore];
      assert calls[3].KillGroup? && calls[4].Collect?;
      return;
    }
    var verdict, used, signals, waits, _ := WaitInner(polls, deadline);
    calls := calls + [Wait];
    if verdict.Unfinished? { result := Running; return; }
    if verdict.Failed? {
      calls := calls + [KillGroup, Collect];
    }
    calls := calls + [Restore];
    assert verdict.Failed? ==> calls[4].KillGroup? && calls[5].Collect?;
    if verdict.Finished? && launch.restored {
      result := Returned(verdict.outcome);
      latched := Latched(polls, used, signals);
      SupervisedMeetsContract(polls, deadline, verdict.outcome, used, signals, waits, cancellable, shutdown);
    }
  }
}
