/** Everything the executor talks to: the monotonic clock, the shared shutdown flag, the channel, the
    requests' controls and the children.  Its answers are arbitrary within what the rest guarantees. */
module Surroundings {
  import opened Base
  import opened Clock
  import opened Messages
  import opened Authorization
  import opened Requests
  import S = Supervision

  predicate SampledFrom(polls: seq<S.Poll>, start: nat) {
    forall i :: 0 <= i < |polls| ==> start <= polls[i].clock <= U64_MAX
  }

  /** What a poll saw of the control is what it showed at some moment of `during`. */
  predicate Saw(p: S.Poll, caller: Caller, during: Span) {
    exists n :: during.from <= n <= during.to && p.cancelled == View(caller, n).cancelled
                && (p.cancelled ==> p.signal == View(caller, n).signal)
  }

  /** A command's streams are closed when its client said so or hung up; a probe's are its own. */
  predicate SawStreams(p: S.Poll, program: Program, caller: Caller, during: Span) {
    program.Command? ==>
      exists n :: during.from <= n <= during.to && p.streamsClosed == View(caller, n).streamsClosed
  }

  predicate Observed(polls: seq<S.Poll>, program: Program, caller: Caller, during: Span) {
    forall i :: 0 <= i < |polls| ==> Saw(polls[i], caller, during) && SawStreams(polls[i], program, caller, during)
  }

  /** The kernel's ranges, and the flag as it may be between its values `before` and `after` the wait. */
  predicate Ordinary(polls: seq<S.Poll>, before: bool, after: bool) {
    forall i :: 0 <= i < |polls| ==>
      S.KernelRanges(polls[i]) && (before ==> polls[i].shutdown) && (polls[i].shutdown ==> after)
  }

  /** Cancellations come from callers, and with a caller's signal or none. */
  lemma ObservedIsAttributable(polls: seq<S.Poll>, program: Program, caller: Caller, during: Span, before: bool,
                               after: bool)
    requires Ordinary(polls, before, after) && Observed(polls, program, caller, during)
    ensures S.Attributable(polls, View(caller, during.to).cancelled, after)
  {
    hide View;
    forall i | 0 <= i < |polls| && polls[i].cancelled
      ensures View(caller, during.to).cancelled && (polls[i].signal == 0 || IsCallerSignal(polls[i].signal))
    {
      assert Saw(polls[i], caller, during);
      var n :| during.from <= n <= during.to && View(caller, n).cancelled && polls[i].signal == View(caller, n).signal;
      CancelledView(caller, n);
      CancellationStays(caller, n, during.to);
    }
  }

  /** The end of a run is the one that supervision reached in what its wait observed. */
  ghost predicate WasSupervised(c: Child) {
    c.run.result.Ended? ==> S.EndedBy(c.polls, Some(c.run.deadline), c.run.result.outcome, c.run.latched)
  }

  ghost predicate AllSupervised(children: seq<Child>) {
    forall k :: 0 <= k < |children| ==> WasSupervised(children[k])
  }

  lemma AllSupervisedAppend(children: seq<Child>, c: Child)
    requires AllSupervised(children) && WasSupervised(c)
    ensures AllSupervised(children + [c])
  {
    hide WasSupervised;
  }

  /** A child that counts as having exited 0 had its leader reaped, once, with that status and in time. */
  lemma SuccessWasReaped(c: Child) returns (waits: nat)
    requires WasSupervised(c) && Succeeded(c.run)
    ensures 0 < waits <= |c.polls| && c.polls[waits - 1].wait == S.Changed(S.ByExit(0))
    ensures forall i :: 0 <= i < waits - 1 ==> c.polls[i].wait == S.StillAlive
  {
    var deadline, outcome := Some(c.run.deadline), c.run.result.outcome;
    var used: nat, signals: seq<S.Sent>, w: nat :|
      S.Supervised(c.polls, deadline, outcome, used, signals, w) && c.run.latched == S.Latched(c.polls, used, signals);
    waits := w;
    if signals != [] { S.ForcedEnd(c.polls, deadline, outcome, used, signals, w); }
    S.NaturalEnd(c.polls, deadline, outcome, used, signals, w);
  }

  /** A child that counts as cancelled with a signal was shown just that by its caller's control. */
  lemma CancellationWasShown(c: Child, during: Span)
    requires WasSupervised(c) && Observed(c.polls, c.program, c.caller, during)
    ensures ShownTo(c.run, c.caller, during)
  {
    hide View;
    if c.run.result.Ended? && c.run.result.outcome.Cancelled? {
      var deadline, outcome := Some(c.run.deadline), c.run.result.outcome;
      var used: nat, signals: seq<S.Sent>, waits: nat :|
        && S.Supervised(c.polls, deadline, outcome, used, signals, waits)
        && c.run.latched == S.Latched(c.polls, used, signals);
      if signals == [] { S.NaturalEnd(c.polls, deadline, outcome, used, signals, waits); }
      S.ForcedEnd(c.polls, deadline, outcome, used, signals, waits);
      assert Saw(c.polls[signals[0].poll], c.caller, during);
    }
  }

  /** A child begun after its caller had cancelled never counts as having ended by itself, and one begun
      during a shutdown counts as cut short by it. */
  lemma LateChildIsCutShort(c: Child, during: Span, before: bool, after: bool)
    requires WasSupervised(c) && c.run.result.Ended? && Observed(c.polls, c.program, c.caller, during)
    requires Ordinary(c.polls, before, after) && (before || View(c.caller, during.from).cancelled)
    ensures c.run.result.outcome.Shutdown? || (!before && c.run.result.outcome.Cancelled?)
  {
    hide View;
    var deadline, outcome := Some(c.run.deadline), c.run.result.outcome;
    var used: nat, signals: seq<S.Sent>, waits: nat :|
      && S.Supervised(c.polls, deadline, outcome, used, signals, waits)
      && c.run.latched == S.Latched(c.polls, used, signals);
    assert Saw(c.polls[0], c.caller, during);
    if !before {
      var n :| during.from <= n <= during.to && c.polls[0].cancelled == View(c.caller, n).cancelled;
      CancellationStays(c.caller, during.from, n);
    }
    if signals == [] { S.NaturalEnd(c.polls, deadline, outcome, used, signals, waits); }
    S.ForcedEnd(c.polls, deadline, outcome, used, signals, waits);
  }

  lemma LatchedWasSampled(polls: seq<S.Poll>, deadline: Option<nat>, outcome: S.Outcome, latched: nat, start: nat)
    requires SampledFrom(polls, start) && S.EndedBy(polls, deadline, outcome, latched)
    ensures start <= latched <= U64_MAX
  {
  }

  class World {
    var now: u64
    var shutdown: bool
    /** How many stores the monitor of the request in hand has made. */
    var progress: nat
    /** What the channel yielded so far, `Nothing` included, the answers sent, the children run, and the
        loads and stores of the shutdown flag by the executor's loop. */
    ghost var received: seq<Receipt>
    ghost var answers: seq<Sent>
    ghost var children: seq<Child>
    ghost var uses: seq<FlagUse>

    /** Time passes, another thread may request shutdown, and the monitor goes on. */
    twostate predicate Later()
      reads this
    {
      old(now) <= now && (old(shutdown) ==> shutdown) && old(progress) <= progress
    }

    /** As `Later`, with possibly another request in hand. */
    twostate predicate MuchLater()
      reads this
    {
      old(now) <= now && (old(shutdown) ==> shutdown)
    }

    /** All children since `before` were run for `caller`. */
    ghost predicate Only(before: seq<Child>, caller: Caller)
      reads this
    {
      before <= children && AllBy(children[|before|..], caller)
    }

    /** What other threads may do at any time. */
    method Yield()
      modifies this`shutdown, this`progress
      ensures Later()
    {
      var requested: bool := *;
      var stores: int := *;
      shutdown := shutdown || requested;
      if stores > 0 { progress := progress + stores; }
    }

    method Monotonic() returns (t: u64)
      modifies this`now, this`shutdown, this`progress
      ensures Later() && t == now
    {
      var step: int := *;
      if step > 0 { now := Min(now + step, U64_MAX); }
      Yield();
      t := now;
    }

    method LoadShutdown() returns (b: bool)
      modifies this`now, this`shutdown, this`progress, this`uses
      ensures Later() && b == shutdown && uses == old(uses) + [Load(b)]
    {
      Yield();
      b := shutdown;
      uses := uses + [Load(b)];
    }

    method StoreShutdown()
      modifies this`shutdown, this`uses
      ensures Later() && shutdown && uses == old(uses) + [Store]
    {
      shutdown := true;
      uses := uses + [Store];
    }

    /** `is_cancelled`. */
    method IsCancelled(caller: Caller) returns (b: bool)
      modifies this`now, this`shutdown, this`progress
      ensures Later() && b == View(caller, progress).cancelled
    {
      Yield();
      b := View(caller, progress).cancelled;
    }

    /** `signal`. */
    method SignalOf(caller: Caller) returns (signal: int)
      modifies this`now, this`shutdown, this`progress
      ensures Later() && signal == View(caller, progress).signal
    {
      Yield();
      signal := View(caller, progress).signal;
    }

    /** One supervised child.  Of the behaviours drawn, those that the kernel or the controls rule out
        and waits that never end stand for a child that could not be started. */
    method RunChild(program: Program, a: Account, deadline: nat, caller: Caller)
      returns (run: Run, ghost observed: seq<S.Poll>)
      modifies this`now, this`shutdown, this`progress, this`children
      ensures children == old(children) + [Child(program, a, caller, run, observed)]
      ensures Later() && run.deadline == deadline && Met(run, View(caller, progress).cancelled, shutdown)
      ensures WasSupervised(Child(program, a, caller, run, observed))
      ensures Observed(observed, program, caller, Span(old(progress), progress))
      ensures Ordinary(observed, old(shutdown), shutdown)
      ensures ShownTo(run, caller, Span(old(progress), progress))
      ensures run.result.Ended? ==> old(now) <= run.latched <= now
    {
      hide View;
      hide Saw;
      hide SawStreams;
      hide S.EndedBy;
      hide S.Contract;
      hide S.Attributable;
      var launch: S.Launch := *;
      var polls: seq<S.Poll> := *;
      var first, before := progress, shutdown;
      Yield();
      run, observed := Run(deadline, NotRun, now), [];
      var during := Span(first, progress);
      if Ordinary(polls, before, shutdown) && Observed(polls, program, caller, during) && SampledFrom(polls, now) {
        ObservedIsAttributable(polls, program, caller, during, before, shutdown);
        ghost var cancellable := View(caller, progress).cancelled;
        var result, latched, calls := S.Supervise(launch, polls, Some(deadline), cancellable, shutdown);
        if result.Returned? {
          LatchedWasSampled(polls, Some(deadline), result.outcome, latched, now);
          run, observed := Run(deadline, Ended(result.outcome), latched), polls;
          now := Max(now, latched);
        }
      }
      ghost var child := Child(program, a, caller, run, observed);
      CancellationWasShown(child, during);
      children := children + [child];
    }

    /** The message a receive finds, if any. */
    method Draw() returns (m: Incoming)
      modifies this`now, this`shutdown, this`progress
      ensures MuchLater() && (m.Envelope? && m.caller.Connected? ==> m.caller.reached == progress)
    {
      m := *;
      var t := Monotonic();
      if m.Envelope? && m.caller.Connected? { progress := m.caller.reached; }
    }

    /** `try_recv`. */
    method TryReceive() returns (m: Incoming)
      modifies this`now, this`shutdown, this`progress, this`received
      ensures MuchLater() && received == old(received) + [Polled(m)]
      ensures m.Envelope? && m.caller.Connected? ==> m.caller.reached == progress
    {
      m := Draw();
      received := received + [Polled(m)];
    }

    /** `recv_timeout`. */
    method ReceiveWithin(wait: nat) returns (m: Incoming)
      modifies this`now, this`shutdown, this`progress, this`received
      ensures MuchLater() && received == old(received) + [Waited(m, wait)]
      ensures m.Envelope? && m.caller.Connected? ==> m.caller.reached == progress
    {
      m := Draw();
      received := received + [Waited(m, wait)];
    }

    /** Sending a response, or dropping the sender. */
    method Answer(r: Option<Response>)
      modifies this`answers
      ensures answers == old(answers) + [Sent(r, progress)]
    {
      answers := answers + [Sent(r, progress)];
    }
  }
}
