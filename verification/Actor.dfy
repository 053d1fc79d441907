/** The executor (`BrokerActor`, src/broker.rs): it owns the records, samples the clock, and runs
    every subprocess.  Its methods are proved against the history they append to. */
module Actor {
  import opened Base
  import opened Clock
  import opened Messages
  import opened Authorization
  import opened AuthorizationTheorems
  import opened Replies
  import opened Requests
  import opened Rounds
  import opened Surroundings
  import C = Control
  import S = Supervision

  /** `cancel_response`, of a request whose control shows a cancellation. */
  method CancelResponse(world: World, caller: Caller, ghost from: nat) returns (r: Response)
    requires from <= world.progress && View(caller, world.progress).cancelled
    modifies world`now, world`shutdown, world`progress
    ensures world.Later() && CancelledBy(caller, Span(from, world.progress), r) && caller.Connected?
    ensures || (exists number :: Cancel(number) in caller.events && r == Completed(128 + number, NoDiagnostic))
            || (r == Error(ErrorCode.Cancelled) && !C.HasCancel(caller.events))
  {
    hide View;
    var signal := world.SignalOf(caller);
    CancellationStays(caller, old(world.progress), world.progress);
    r := if signal > 0 then Completed(128 + signal, NoDiagnostic) else Error(ErrorCode.Cancelled);
    CancelledByClient(caller, Span(from, world.progress), r);
  }

  /** What a stretch of the loop is compared with. */
  datatype Past = Past(records: Records, now: nat, blocks: seq<Block>, received: seq<Receipt>, answers: seq<Sent>,
                       children: seq<Child>, uses: seq<FlagUse>)

  class BrokerActor {
    const setup: Setup
    const timings: Timings
    const world: World

    var records: Records
    ghost var log: seq<Event>
    ghost var blocks: seq<Block>

    /** Between requests the log is a lawful sequence of whole blocks, and the map is what it leads to. */
    ghost predicate Valid()
      reads this, world
    {
      Current() && records == Play(map[], log, timings) && log == History(blocks) && Lawful(blocks, timings)
    }

    /** The log's samples are in order and none is later than now, and its children are the world's, each
        ended as supervision of what it observed ends. */
    ghost predicate Current()
      reads this, world
    {
      && Chronological(log) && LastSample(log) <= world.now
      && Trace(log) == Runs(world.children) && AllSupervised(world.children)
    }

    constructor (setup: Setup, timings: Timings, world: World)
      requires world.children == []
      ensures Valid() && records == map[] && blocks == []
      ensures this.setup == setup && this.timings == timings && this.world == world
    {
      this.setup, this.timings, this.world := setup, timings, world;
      records, log, blocks := map[], [], [];
    }

    /** What the theorems about lawful histories say of the actor between any two requests. */
    lemma RecordsMatchHistory(a: Account, d: nat) returns (ws: seq<seq<Event>>)
      requires Valid()
      ensures IsActive(records, a) && records[a].hardDeadline == d <==> SomeGrant(log, a, d, timings)
      ensures Words(ws) && Join(ws) == Runs(world.children)
      ensures forall i, j :: 0 <= i < j < |log| && Sample(log[i]).Some? && Sample(log[j]).Some? ==>
                Sample(log[i]).value <= Sample(log[j]).value <= world.now
      ensures forall k :: 0 <= k < |log| && log[k].Ran? && log[k].program.Command? ==> WithinHardLimit(log, k, timings)
    {
      hide Play;
      hide Lawful;
      hide SomeGrant;
      hide WithinHardLimit;
      ActiveExactlyWhenGranted(blocks, a, d, timings);
      ws := TraceIsWords(blocks, timings);
      forall i, j | 0 <= i < j < |log| && Sample(log[i]).Some? && Sample(log[j]).Some?
        ensures Sample(log[i]).value <= Sample(log[j]).value <= world.now
      {
        SamplesInOrder(log, i, j);
        SampleIsEarlier(log, j);
      }
      forall k | 0 <= k < |log| && log[k].Ran? && log[k].program.Command? ensures WithinHardLimit(log, k, timings) {
        CommandsWithinHardLimit(blocks, k, timings);
      }
    }

    /** An active account was granted on a prompt whose leader was reaped, once, with exit status 0. */
    lemma ActiveWasReaped(a: Account) returns (i: nat, k: nat, waits: nat)
      requires Valid() && IsActive(records, a)
      ensures Grants(log, i, a, timings) && k < |world.children| && i > 0
      ensures var c := world.children[k];
              && c.program == ExplicitList && c.account == a && log[i - 1] == Ran(ExplicitList, a, c.run)
              && 0 < waits <= |c.polls| && c.polls[waits - 1].wait == S.Changed(S.ByExit(0))
              && forall j :: 0 <= j < waits - 1 ==> c.polls[j].wait == S.StillAlive
    {
      hide Play;
      hide Lawful;
      hide Chronological;
      hide WasSupervised;
      var d := records[a].hardDeadline;
      ActiveExactlyWhenGranted(blocks, a, d, timings);
      i :| Grants(log, i, a, timings)
           && (d == log[i].at + timings.hardLimit <= U64_MAX || d == U64_MAX < log[i].at + timings.hardLimit);
      AuthorizedFollowsPrompt(blocks, i, timings);
      k := TraceHas(log, i - 1);
      waits := SuccessWasReaped(world.children[k]);
    }

    // -------------------------------------------------------------- steps inside a block

    /** Appends an event other than a child to the log. */
    ghost method Record(e: Event)
      requires Current() && !e.Ran? && (Sample(e).Some? ==> Sample(e).value == world.now)
      modifies this`log
      ensures Current() && log == old(log) + [e]
    {
      hide Chronological;
      hide LastSample;
      hide Trace;
      ChronologicalAppend(log, e);
      TraceConcat(log, [e]);
      TraceOfOne(e);
      log := log + [e];
    }

    /** `expire_records`: the hash map is visited in an arbitrary order. */
    method ExpireRecords() returns (ghost at: nat)
      requires Current()
      modifies this`records, this`log, world`now, world`shutdown, world`progress
      ensures world.Later() && at == world.now
      ensures Current() && log == old(log) + [Expiry(at)] && records == Expire(old(records), at)
    {
      hide Chronological;
      hide LastSample;
      hide Trace;
      var now := world.Monotonic();
      var todo := records.Keys;
      while todo != {}
        modifies this`records
        invariant todo <= old(records).Keys == records.Keys
        invariant forall a :: a in records ==>
                    records[a] == if a in todo then old(records)[a] else Expire(old(records), now)[a]
        decreases |todo|
      {
        var a :| a in todo;
        todo := todo - {a};
        if records[a].Active? && now >= records[a].hardDeadline {
          records := records[a := Required];
        }
      }
      Record(Expiry(now));
      at := now;
    }

    /** `invalidate_all`, after account `a`'s automatic check failed. */
    method InvalidateRecords(a: Account)
      requires Current()
      modifies this`records, this`log
      ensures Current() && log == old(log) + [CheckFailed(a)] && records == InvalidateAll(old(records))
    {
      hide Chronological;
      hide LastSample;
      hide Trace;
      var todo := records.Keys;
      while todo != {}
        modifies this`records
        invariant todo <= old(records).Keys == records.Keys
        invariant forall b :: b in records ==> records[b] == if b in todo then old(records)[b] else Required
        decreases |todo|
      {
        var b :| b in todo;
        todo := todo - {b};
        records := records[b := Required];
      }
      Record(CheckFailed(a));
    }

    /** `probe`, and the requested command: one child, recorded. */
    method RunRecorded(program: Program, a: Account, deadline: nat, caller: Caller)
      returns (run: Run, ghost child: Child)
      requires Current()
      modifies this`log, world`now, world`shutdown, world`progress, world`children
      ensures Current() && world.Later() && log == old(log) + [Ran(program, a, run)]
      ensures world.children == old(world.children) + [child] && child == Child(program, a, caller, run, child.polls)
      ensures run.deadline == deadline && Met(run, View(caller, world.progress).cancelled, world.shutdown)
      ensures ShownTo(run, caller, Span(old(world.progress), world.progress))
      ensures Observed(child.polls, program, caller, Span(old(world.progress), world.progress))
      ensures run.result.Ended? ==> old(world.now) <= run.latched <= world.now
    {
      hide Chronological;
      hide LastSample;
      hide Trace;
      hide WasSupervised;
      hide ShownTo;
      hide Saw;
      hide SawStreams;
      ghost var observed;
      run, observed := world.RunChild(program, a, deadline, caller);
      child := Child(program, a, caller, run, observed);
      var e := Ran(program, a, run);
      ChronologicalAppend(log, e);
      TraceConcat(log, [e]);
      TraceOfOne(e);
      RunsAppend(old(world.children), child);
      AllSupervisedAppend(old(world.children), child);
      log := log + [e];
    }

    /** One half of an automatic check. */
    method Probe(program: Program, a: Account, deadline: nat, caller: Caller)
      returns (result: CheckResult, run: Run)
      requires Current()
      modifies this`log, world`now, world`shutdown, world`progress, world`children
      ensures Current() && world.Later() && log == old(log) + [Ran(program, a, run)]
      ensures world.Only(old(world.children), caller)
      ensures run.deadline == deadline && Met(run, true, true) && result == Classify(run.result)
      ensures run.result.Ended? ==> old(world.now) <= run.latched <= world.now
      ensures result == Withdrawn ==> View(caller, world.progress).cancelled
      ensures result == ShuttingDown ==> world.shutdown
    {
      hide Met;
      hide View;
      hide Chronological;
      hide LastSample;
      hide Trace;
      ghost var child;
      run, child := RunRecorded(program, a, deadline, caller);
      MetSays(run, View(caller, world.progress).cancelled, world.shutdown);
      result := Classify(run.result);
    }

    /** `automatic_check`. */
    method AutomaticCheck(a: Account, caller: Caller) returns (result: CheckResult, ghost check: Checked)
      requires Current()
      modifies this`records, this`log, world`now, world`shutdown, world`progress, world`children
      ensures Current() && world.Only(old(world.children), caller)
      ensures world.Later() && old(world.now) <= check.at <= check.checkedAt <= world.now
      ensures log == old(log) + CheckEvents(a, check) && CheckAllowed(check, timings)
      ensures var end := check.at + timings.checkTimeout;
              check.whoami.deadline == end <= U64_MAX || check.whoami.deadline == U64_MAX < end
      ensures result == Verdict(check)
      ensures records ==
              if result == Success then Step(old(records), Passed(a, check.checkedAt), timings) else old(records)
      ensures result == Withdrawn ==> View(caller, world.progress).cancelled
      ensures result == ShuttingDown ==> world.shutdown
    {
      hide Met;
      hide View;
      hide Step;
      hide Chronological;
      hide LastSample;
      hide Trace;
      var start := world.Monotonic();
      var deadline := Add(start, timings.checkTimeout);
      Record(Budget(a, start));
      var whoami, vault;
      result, whoami := Probe(Whoami, a, deadline, caller);
      check := Checked(start, whoami, whoami, start);
      if result != Success { return; }
      result, vault := Probe(CheckList, a, deadline, caller);
      check := Checked(start, whoami, vault, world.now);
      if result != Success { return; }
      var checkedAt := NotePassed(a);
      check := Checked(start, whoami, vault, checkedAt);
    }

    /** Both children of a check have exited 0. */
    method NotePassed(a: Account) returns (checkedAt: u64)
      requires Current()
      modifies this`records, this`log, world`now, world`shutdown, world`progress
      ensures Current() && world.Later() && checkedAt == world.now
      ensures log == old(log) + [Passed(a, checkedAt)] && records == Step(old(records), Passed(a, checkedAt), timings)
    {
      hide Chronological;
      hide LastSample;
      hide Trace;
      checkedAt := world.Monotonic();
      if a in records && records[a].Active? {
        records := records[a := records[a].(nextProbe := Add(checkedAt, timings.maintenanceInterval))];
      }
      Record(Passed(a, checkedAt));
    }

    // -------------------------------------------------------------- whole blocks

    /** Records that the events since the last block are block `b`. */
    ghost method Close(b: Block)
      requires Current() && Lawful(blocks, timings) && log == History(blocks) + Spell(b)
      requires var before := Play(map[], History(blocks), timings);
               Allowed(before, b, timings) && records == After(before, b, timings)
      modifies this`blocks
      ensures Valid() && blocks == old(blocks) + [b]
    {
      hide Chronological;
      hide LastSample;
      hide Trace;
      hide Play;
      hide History;
      hide Lawful;
      hide Spell;
      hide After;
      AllowedHasCheck(Play(map[], History(blocks), timings), b, timings);
      hide Allowed;
      LawfulExtends(blocks, b, timings);
      SpellLeadsAfter(Play(map[], History(blocks), timings), b, timings);
      PlayConcat(map[], History(blocks), Spell(b), timings);
      blocks := blocks + [b];
    }

    /** Records that the events since the last block are blocks `b` and `c`. */
    ghost method CloseBoth(b: Block, c: Block)
      requires Current() && Lawful(blocks, timings) && log == History(blocks) + Spell(b) + Spell(c)
      requires var before := Play(map[], History(blocks), timings);
               && Allowed(before, b, timings) && Allowed(After(before, b, timings), c, timings)
               && records == After(After(before, b, timings), c, timings)
      modifies this`blocks
      ensures Valid() && blocks == old(blocks) + [b, c]
    {
      hide Chronological;
      hide LastSample;
      hide Trace;
      hide Play;
      hide History;
      hide Lawful;
      hide Spell;
      hide After;
      AllowedHasCheck(Play(map[], History(blocks), timings), b, timings);
      hide Allowed;
      LawfulExtends(blocks, b, timings);
      SpellLeadsAfter(Play(map[], History(blocks), timings), b, timings);
      PlayConcat(map[], History(blocks), Spell(b), timings);
      blocks := blocks + [b];
      Close(c);
      assert blocks == old(blocks) + [b, c];
    }

    /** `expire_records` on its own. */
    method Refresh() returns (ghost at: nat)
      requires Valid()
      modifies this`records, this`log, this`blocks, world`now, world`shutdown, world`progress
      ensures world.Later() && at == world.now
      ensures Valid() && blocks == old(blocks) + [Expiring(at)] && records == Expire(old(records), at)
    {
      hide Chronological;
      hide LastSample;
      hide Trace;
      at := ExpireRecords();
      Close(Expiring(at));
    }

    /** The blocks appended since `before`. */
    ghost function Since(before: seq<Block>): seq<Block>
      requires |before| <= |blocks|
      reads this
    {
      blocks[|before|..]
    }

    /** `start`: a prompt is possible only after a shown warning, with the pinned executable, and for
        an account that is not active. */
    method Start(warningShown: bool, a: Account, path: seq<byte>, caller: Caller, ghost from: nat)
      returns (r: Option<Response>)
      requires Valid() && from <= world.progress
      modifies this`records, this`log, this`blocks, world`now, world`shutdown, world`progress, world`children
      ensures world.Only(old(world.children), caller)
      ensures Valid() && world.Later() && (r == None ==> world.shutdown)
      ensures old(blocks) <= blocks
              && StartEffect(setup, old(records), a, warningShown, path, caller, Span(from, world.progress),
                             Since(old(blocks)), r)
      ensures r == Some(Accepted) <==> path == setup.opPath && IsActive(records, a)
      ensures r.Some? ==> Readable(r.value)
    {
      hide Chronological;
      hide LastSample;
      hide Trace;
      hide Play;
      hide History;
      hide Lawful;
      hide Expire;
      hide View;
      hide CancelledBy;
      ghost var at := Refresh();
      if path != setup.opPath { return Some(Error(OpPathMismatch)); }
      if IsActive(records, a) { return Some(Accepted); }
      if !warningShown { return Some(NeedWarning); }
      var run := Authorize(a, caller);
      r := ReportExplicit(run, caller, from);
    }

    /** One explicit authorization: its account is `Required` until the child has exited 0. */
    method Authorize(a: Account, caller: Caller) returns (run: Run)
      requires Valid() && !IsActive(records, a)
      modifies this`records, this`log, this`blocks, world`now, world`shutdown, world`progress, world`children
      ensures world.Only(old(world.children), caller)
      ensures Valid() && world.Later() && Met(run, View(caller, world.progress).cancelled, world.shutdown)
      ensures var n := |old(blocks)|;
              && |blocks| == n + 1 && blocks[..n] == old(blocks)
              && blocks[n].Explicit? && blocks[n].account == a && blocks[n].run == run
              && old(world.now) <= blocks[n].at
      ensures if run.result == Ended(S.Exited(0)) then
                var b := blocks[|old(blocks)|];
                && IsActive(records, a)
                && (var hard := b.at + timings.hardLimit;
                    records[a].hardDeadline == hard <= U64_MAX || records[a].hardDeadline == U64_MAX < hard)
                && (var next := b.checkedAt + timings.maintenanceInterval;
                    records[a].nextProbe == next <= U64_MAX || records[a].nextProbe == U64_MAX < next)
              else records == old(records)[a := Required]
    {
      hide Chronological;
      hide LastSample;
      hide Trace;
      hide Play;
      hide History;
      hide Lawful;
      hide Expire;
      hide Met;
      hide View;
      ghost var before := records;
      var start;
      ghost var child;
      start, run, child := Prompt(a, caller);
      ghost var cancelled, shutdown := View(caller, world.progress).cancelled, world.shutdown;
      MetSays(run, cancelled, shutdown);
      ghost var b := Explicit(a, start, run, world.now);
      if run.result == Ended(S.Exited(0)) {
        var checkedAt := NoteAuthorized(a, start);
        ExitMeets(run, cancelled, shutdown, View(caller, world.progress).cancelled, world.shutdown);
        b := Explicit(a, start, run, checkedAt);
      }
      assert log == old(log) + Spell(b);
      assert records == After(before, b, timings);
      Close(b);
    }

    /** The prompt has exited 0. */
    method NoteAuthorized(a: Account, start: u64) returns (checkedAt: u64)
      requires Current()
      modifies this`records, this`log, world`now, world`shutdown, world`progress
      ensures Current() && world.Later() && checkedAt == world.now
      ensures log == old(log) + [Authorized(a, start, checkedAt)]
      ensures records == Step(old(records), Authorized(a, start, checkedAt), timings) && IsActive(records, a)
      ensures var hard := start + timings.hardLimit;
              records[a].hardDeadline == hard <= U64_MAX || records[a].hardDeadline == U64_MAX < hard
      ensures var next := checkedAt + timings.maintenanceInterval;
              records[a].nextProbe == next <= U64_MAX || records[a].nextProbe == U64_MAX < next
    {
      hide Chronological;
      hide LastSample;
      hide Trace;
      checkedAt := world.Monotonic();
      records := records[a := Active(Add(start, timings.hardLimit), Add(checkedAt, timings.maintenanceInterval))];
      Record(Authorized(a, start, checkedAt));
    }

    /** The prompting child of an explicit authorization, with the record cleared first. */
    method Prompt(a: Account, caller: Caller) returns (start: u64, run: Run, ghost child: Child)
      requires Current()
      modifies this`records, this`log, world`now, world`shutdown, world`progress, world`children
      ensures Current() && world.children == old(world.children) + [child]
      ensures child == Child(ExplicitList, a, caller, run, child.polls)
      ensures world.Later() && old(world.now) <= start <= world.now
      ensures var end := start + timings.explicitTimeout;
              run.deadline == end <= U64_MAX || run.deadline == U64_MAX < end
      ensures records == old(records)[a := Required]
      ensures log == old(log) + [Attempt(a, start), Ran(ExplicitList, a, run)]
      ensures Met(run, View(caller, world.progress).cancelled, world.shutdown)
    {
      hide Chronological;
      hide LastSample;
      hide Trace;
      records := records[a := Required];
      start := world.Monotonic();
      Record(Attempt(a, start));
      run, child := RunRecorded(ExplicitList, a, Add(start, timings.explicitTimeout), caller);
    }

    method ReportExplicit(run: Run, caller: Caller, ghost from: nat) returns (r: Option<Response>)
      requires from <= world.progress && Met(run, View(caller, world.progress).cancelled, world.shutdown)
      modifies world`now, world`shutdown, world`progress
      ensures world.Later() && ExplicitResponse(run, caller, Span(from, world.progress), r)
      ensures r == None ==> world.shutdown
      ensures r.Some? ==> Readable(r.value)
      ensures r == Some(Accepted) <==> run.result == Ended(S.Exited(0))
    {
      hide View;
      hide CancelledBy;
      match run.result {
        case Ended(Exited(code)) => r := Some(if code == 0 then Accepted else Error(AuthorizationFailed));
        case Ended(Cancelled(_)) =>
          var response := CancelResponse(world, caller, from);
          CancelledByClient(caller, Span(from, world.progress), response);
          r := Some(response);
        case Ended(Shutdown) => r := None;
        case _ => r := Some(Error(AuthorizationFailed));
      }
    }

    /** `status`: no child runs. */
    method Status(a: Account) returns (r: Response)
      requires Valid()
      modifies this`records, this`log, this`blocks, world`now, world`shutdown, world`progress
      ensures Valid() && world.Later() && Readable(r)
      ensures old(blocks) <= blocks && StatusEffect(setup, old(records), a, Since(old(blocks)), Some(r))
      ensures match setup.render(a, if IsActive(records, a) then Some(records[a]) else None)
              case Some(json) => r == StatusReport(json)
              case None => r == Error(ErrorCode.Operational)
    {
      hide Chronological;
      hide LastSample;
      hide Trace;
      hide Play;
      hide History;
      hide Lawful;
      hide Expire;
      ghost var at := Refresh();
      var json := setup.render(a, if a in records && records[a].Active? then Some(records[a]) else None);
      r := if json.Some? then StatusReport(json.value) else Error(ErrorCode.Operational);
    }

    // -------------------------------------------------------------- execute

    /** `execute`: a check and, if it passed and the grant still stands, the command. */
    method Execute(a: Account, job: Job, caller: Caller, ghost from: nat) returns (r: Option<Response>)
      requires Valid() && from <= world.progress
      modifies this`records, this`log, this`blocks, world`now, world`shutdown, world`progress, world`children
      ensures world.Only(old(world.children), caller)
      ensures Valid() && world.Later() && (r == None ==> world.shutdown)
      ensures r.Some? ==> Readable(r.value)
      ensures old(blocks) <= blocks
              && ExecuteEffect(old(records), a, job, caller, Span(from, world.progress), Since(old(blocks)), r)
      ensures forall k :: 0 <= k < |Since(old(blocks))| && Since(old(blocks))[k].Execute? ==>
                match Since(old(blocks))[k].run.result
                case NotRun => r == Some(Error(ProcessStart))
                case Ended(Exited(code)) => r == Some(Completed(code, NoDiagnostic))
                case Ended(Signaled(signal)) => r == Some(Completed(128 + signal, NoDiagnostic))
                case Ended(TimedOut) => r == Some(Completed(124, Timeout))
                case Ended(Cancelled(_)) => r.Some? && CancelledBy(caller, Span(from, world.progress), r.value)
                case Ended(Shutdown) => r == None
    {
      hide Chronological;
      hide LastSample;
      hide Trace;
      hide Play;
      hide History;
      hide Lawful;
      hide Expire;
      hide CancelledBy;
      hide ShownTo;
      ghost var at := Refresh();
      if !IsActive(records, a) { return Some(Error(AuthorizationRequired)); }
      ghost var was := blocks;
      r := CheckAndRun(a, job, caller, from);
      assert Since(old(blocks)) == [Expiring(at)] + Since(was);
      ExecuteAnswers(old(records), a, job, caller, Span(from, world.progress), Since(old(blocks)), r);
    }

    /** `execute` of an active account. */
    method CheckAndRun(a: Account, job: Job, caller: Caller, ghost from: nat) returns (r: Option<Response>)
      requires Valid() && IsActive(records, a) && from <= world.progress
      modifies this`records, this`log, this`blocks, world`now, world`shutdown, world`progress, world`children
      ensures world.Only(old(world.children), caller)
      ensures Valid() && world.Later() && (r == None ==> world.shutdown)
      ensures r.Some? ==> Readable(r.value)
      ensures old(blocks) <= blocks
              && CheckedEffect(old(records), a, job, caller, Span(from, world.progress), Since(old(blocks)), r)
    {
      hide Chronological;
      hide LastSample;
      hide Trace;
      hide Play;
      hide History;
      hide Lawful;
      hide CheckAllowed;
      hide CheckEvents;
      hide CheckedEffect;
      hide Step;
      hide View;
      var result, check := AutomaticCheck(a, caller);
      if result == Success {
        r := RunChecked(a, check, job, caller, old(records), from);
      } else {
        r := EndCheck(a, check, result, caller, old(records), from);
        assert Since(old(blocks)) == [Check(a, check)];
        EndsWithCheck(old(records), a, job, caller, Span(from, world.progress), check, r);
      }
    }

    /** `execute` after a check that did not pass. */
    method EndCheck(a: Account, ghost check: Checked, result: CheckResult, caller: Caller, ghost before: Records,
                    ghost from: nat)
      returns (r: Option<Response>)
      requires Current() && from <= world.progress && Lawful(blocks, timings)
      requires before == records == Play(map[], History(blocks), timings)
      requires log == History(blocks) + CheckEvents(a, check)
      requires IsActive(before, a) && CheckAllowed(check, timings) && result == Verdict(check) != Success
      requires result == Withdrawn ==> View(caller, world.progress).cancelled
      requires result == ShuttingDown ==> world.shutdown
      modifies this`records, this`log, this`blocks, world`now, world`shutdown, world`progress
      ensures Valid() && world.Later() && blocks == old(blocks) + [Check(a, check)]
      ensures CheckEnding(result, caller, Span(from, world.progress), r)
      ensures (r == None ==> world.shutdown) && (r.Some? ==> Readable(r.value))
    {
      hide Chronological;
      hide LastSample;
      hide Trace;
      hide Play;
      hide History;
      hide Lawful;
      hide CheckAllowed;
      hide CheckEvents;
      hide View;
      hide CancelledBy;
      match result {
        case Withdrawn =>
          assert log == History(blocks) + Spell(Check(a, check));
          Close(Check(a, check));
          var response := CancelResponse(world, caller, from);
          CancelledByClient(caller, Span(from, world.progress), response);
          r := Some(response);
        case ShuttingDown =>
          assert log == History(blocks) + Spell(Check(a, check));
          Close(Check(a, check));
          r := None;
        case Failed =>
          InvalidateRecords(a);
          assert log == History(blocks) + Spell(Check(a, check));
          Close(Check(a, check));
          r := Some(Error(AuthorizationRequired));
      }
    }

    /** `execute` after a successful check. */
    method RunChecked(a: Account, ghost check: Checked, job: Job, caller: Caller, ghost before: Records,
                      ghost from: nat)
      returns (r: Option<Response>)
      requires Current() && from <= world.progress && Lawful(blocks, timings)
      requires before == Play(map[], History(blocks), timings)
      requires log == History(blocks) + CheckEvents(a, check)
      requires IsActive(before, a) && CheckAllowed(check, timings) && Verdict(check) == Success
      requires records == Step(before, Passed(a, check.checkedAt), timings)
      modifies this`records, this`log, this`blocks, world`now, world`shutdown, world`progress, world`children
      ensures world.Only(old(world.children), caller)
      ensures Valid() && world.Later() && (r == None ==> world.shutdown)
      ensures r.Some? ==> Readable(r.value)
      ensures old(blocks) <= blocks
              && CheckedEffect(before, a, job, caller, Span(from, world.progress), Since(old(blocks)), r)
    {
      hide Chronological;
      hide LastSample;
      hide Trace;
      hide Play;
      hide History;
      hide Lawful;
      hide Step;
      hide CheckAllowed;
      hide CheckEvents;
      hide CheckedEffect;
      hide View;
      var live, guard := Guard(a, check, before);
      if !live {
        assert Since(old(blocks)) == [Check(a, check), Expiring(guard)];
        EndsAtGuard(before, a, job, caller, Span(from, world.progress), check, guard);
        return Some(Error(AuthorizationRequired));
      }
      var run, start := RunCommand(a, check, guard, job, caller, before);
      ghost var ran := Span(from, world.progress);
      CommandResponseReadable(run, View(caller, world.progress).cancelled, world.shutdown);
      ghost var last := Refresh();
      ShownForLonger(run, caller, ran, Span(from, world.progress));
      assert Since(old(blocks)) == [Block.Execute(a, check, guard, job, start, run), Expiring(last)];
      EndsWithCommand(before, a, job, caller, Span(from, world.progress),
                      Block.Execute(a, check, guard, job, start, run), last);
      r := CommandResponse(run.result);
    }

    /** The expiry between a passed check and its command. */
    method Guard(a: Account, ghost check: Checked, ghost before: Records) returns (live: bool, ghost guard: nat)
      requires Current() && Lawful(blocks, timings) && before == Play(map[], History(blocks), timings)
      requires log == History(blocks) + CheckEvents(a, check)
      requires IsActive(before, a) && CheckAllowed(check, timings) && Verdict(check) == Success
      requires records == Step(before, Passed(a, check.checkedAt), timings)
      modifies this`records, this`log, this`blocks, world`now, world`shutdown, world`progress
      ensures Current() && world.Later() && old(world.now) <= guard == world.now
      ensures live == IsActive(Expire(before, guard), a)
      ensures live ==> blocks == old(blocks) && log == History(blocks) + CheckEvents(a, check) + [Expiry(guard)]
                       && records == Expire(Step(before, Passed(a, check.checkedAt), timings), guard)
      ensures !live ==> Valid() && blocks == old(blocks) + [Check(a, check), Expiring(guard)]
    {
      hide Play;
      hide History;
      hide Lawful;
      hide Step;
      hide Expire;
      hide CheckAllowed;
      hide CheckEvents;
      hide Chronological;
      hide LastSample;
      hide Trace;
      guard := ExpireRecords();
      PassedDoesNotExtend(before, a, check.checkedAt, guard, timings);
      live := IsActive(records, a);
      if !live {
        assert Spell(Check(a, check)) == CheckEvents(a, check);
        CloseBoth(Check(a, check), Expiring(guard));
      }
    }

    /** The requested command, right after its guarding expiry sample. */
    method RunCommand(a: Account, ghost check: Checked, ghost guard: nat, job: Job, caller: Caller,
                      ghost before: Records)
      returns (run: Run, ghost start: nat)
      requires Current() && Lawful(blocks, timings) && before == Play(map[], History(blocks), timings)
      requires log == History(blocks) + CheckEvents(a, check) + [Expiry(guard)]
      requires IsActive(before, a) && CheckAllowed(check, timings) && Verdict(check) == Success
      requires IsActive(Expire(before, guard), a) && guard <= world.now
      requires records == Expire(Step(before, Passed(a, check.checkedAt), timings), guard)
      modifies this`log, this`blocks, world`now, world`shutdown, world`progress, world`children
      ensures world.Only(old(world.children), caller) && old(world.now) <= start <= world.now
      ensures Valid() && world.Later() && Met(run, View(caller, world.progress).cancelled, world.shutdown)
      ensures blocks == old(blocks) + [Block.Execute(a, check, guard, job, start, run)]
      ensures var end := start + job.limit; run.deadline == end <= U64_MAX || run.deadline == U64_MAX < end
      ensures ShownTo(run, caller, Span(old(world.progress), world.progress))
    {
      hide Play;
      hide History;
      hide Lawful;
      hide Chronological;
      hide LastSample;
      hide Trace;
      var started := world.Monotonic();
      start := started;
      Record(Budget(a, started));
      ghost var child;
      run, child := RunRecorded(Command(job), a, Add(started, job.limit), caller);
      ghost var b := Block.Execute(a, check, guard, job, start, run);
      assert log == History(blocks) + Spell(b);
      Close(b);
    }

    // -------------------------------------------------------------- requests

    /** `handle`, having read the control at `seen`. */
    method Handle(request: Request, caller: Caller) returns (r: Option<Response>, ghost seen: nat)
      requires Valid()
      modifies this`records, this`log, this`blocks, world`now, world`shutdown, world`progress, world`children
      ensures world.Only(old(world.children), caller)
      ensures Valid() && world.Later() && (r == None ==> world.shutdown)
      ensures r.Some? ==> Readable(r.value)
      ensures old(world.progress) <= seen <= world.progress
      ensures old(blocks) <= blocks
              && HandleEffect(setup, old(records), request, caller, Span(seen, world.progress), Since(old(blocks)), r)
      ensures View(caller, seen).cancelled ==> records == old(records) && world.children == old(world.children)
    {
      hide Chronological;
      hide LastSample;
      hide Trace;
      hide View;
      hide StartEffect;
      hide StatusEffect;
      hide ExecuteEffect;
      hide CancelledBy;
      hide Play;
      hide History;
      hide Lawful;
      var cancelled := world.IsCancelled(caller);
      seen := world.progress;
      if cancelled {
        if !request.Exec? { return Some(Error(ErrorCode.Cancelled)), seen; }
        var response := CancelResponse(world, caller, seen);
        CancelledByClient(caller, Span(seen, world.progress), response);
        return Some(response), seen;
      }
      match request {
        case Start(warningShown, account, path, _) =>
          r := Start(warningShown, account, path, caller, seen);
        case Status(account) =>
          var response := Status(account);
          r := Some(response);
        case Exec(account, timeoutNanos, arguments, _, _) =>
          r := Execute(account, Job(arguments, timeoutNanos), caller, seen);
      }
    }

    // -------------------------------------------------------------- maintenance and idling

    /** `maintain`: one check that nobody can cancel.  It takes `a` out of the accounts due at any
        earlier instant, unless a shutdown cut it short. */
    method Maintain(a: Account)
      requires Valid()
      modifies this`records, this`log, this`blocks, world`now, world`shutdown, world`progress,
               world`children, world`uses
      ensures Valid() && world.Later() && world.Only(old(world.children), Caller.Internal)
      ensures if !IsActive(old(records), a) then
                blocks == old(blocks) && records == old(records) && world.uses == old(world.uses)
              else
                var n := |old(blocks)|;
                && |blocks| == n + 1 && blocks[..n] == old(blocks) && blocks[n].Check? && blocks[n].account == a
                && old(world.now) <= blocks[n].check.at <= blocks[n].check.checkedAt
                && Verdict(blocks[n].check) != Withdrawn
                && (Verdict(blocks[n].check) == ShuttingDown ==> world.shutdown)
                && world.uses == old(world.uses) + if Verdict(blocks[n].check) == ShuttingDown then [Store] else []
      ensures timings.maintenanceInterval > 0 && !world.shutdown ==>
                forall T: nat :: a in DueAt(old(records), T) && T <= old(world.now) && T < U64_MAX ==>
                  |DueAt(records, T)| < |DueAt(old(records), T)|
    {
      hide Chronological;
      hide LastSample;
      hide Trace;
      hide Play;
      hide History;
      hide Lawful;
      if !IsActive(records, a) { return; }
      var result, check := AutomaticCheck(a, Caller.Internal);
      match result {
        case Success =>
        case ShuttingDown => world.StoreShutdown();
        case Failed => InvalidateRecords(a);
        // The source invalidates here too; nobody holds this caller, so it cannot happen.
        case Withdrawn => assert false;
      }
      Close(Check(a, check));
      ghost var b := Check(a, check);
      forall T: nat | a in DueAt(old(records), T) && T <= old(world.now) && T < U64_MAX && !world.shutdown
        ensures timings.maintenanceInterval > 0 ==> |DueAt(records, T)| < |DueAt(old(records), T)|
      {
        if timings.maintenanceInterval > 0 { MaintenanceShrinksDue(old(records), b, T, timings); }
      }
    }

    /** `due_maintenance`: some account due at the sample, if there is one. */
    method DueMaintenance() returns (due: Option<Account>, ghost at: nat)
      requires Valid()
      modifies world`now, world`shutdown, world`progress
      ensures world.Later() && at == world.now
      ensures match due
              case Some(a) => a in DueAt(records, at)
              case None => DueAt(records, at) == {}
    {
      var now := world.Monotonic();
      at := now;
      var todo := records.Keys;
      while todo != {}
        modifies {}
        invariant todo <= records.Keys && DueAt(records, now) <= todo
        decreases |todo|
      {
        var a :| a in todo;
        if records[a].Active? && now >= records[a].nextProbe { return Some(a), at; }
        todo := todo - {a};
      }
      due := None;
    }

    /** `next_wait`: exactly the time to the nearest of all active accounts' deadlines. */
    method NextWait() returns (wait: nat)
      requires Valid()
      modifies world`now, world`shutdown, world`progress
      ensures world.Later()
      ensures forall a :: IsActive(records, a) && wait > 0 ==>
                world.now + wait <= records[a].nextProbe && world.now + wait <= records[a].hardDeadline
      ensures if exists a :: IsActive(records, a) then
                exists a :: IsActive(records, a) && (EndsAt(world.now, wait, records[a].nextProbe)
                                                     || EndsAt(world.now, wait, records[a].hardDeadline))
              else wait == 100 * MILLISECOND
    {
      var now := world.Monotonic();
      var nearest: Option<nat> := None;
      ghost var at: Option<Account> := None;
      var todo := records.Keys;
      while todo != {}
        modifies {}
        invariant todo <= records.Keys
        invariant nearest.Some? <==> at.Some?
        invariant at.Some? ==> IsActive(records, at.value) && nearest.value == Earliest(records[at.value])
        invariant forall a :: IsActive(records, a) && a !in todo ==>
                    nearest.Some? && nearest.value <= Earliest(records[a])
        decreases |todo|
      {
        var a :| a in todo;
        todo := todo - {a};
        if records[a].Active? && (nearest.None? || Earliest(records[a]) < nearest.value) {
          nearest, at := Some(Earliest(records[a])), Some(a);
        }
      }
      wait := if nearest.Some? then Remaining(now, nearest.value) else 100 * MILLISECOND;
    }

    /** The bounded wait of an idle loop. */
    method IdleWait() returns (wait: nat)
      requires Valid()
      modifies world`now, world`shutdown, world`progress
      ensures world.Later() && WaitFits(records, world.now, wait)
    {
      wait := NextWait();
      wait := Min(wait, 100 * MILLISECOND);
    }

    // -------------------------------------------------------------- the loop

    /** At most `iterations` rounds of `run`, followed by the clean-up when the loop was left: every
        finite prefix of every life of the actor. */
    method Run(iterations: nat) returns (finished: bool, ghost rounds: seq<Report>)
      requires Valid()
      modifies this`records, this`log, this`blocks, world
      ensures Valid() && world.MuchLater()
      ensures Linked(setup, rounds, timings) && (!finished ==> |rounds| == iterations)
      ensures rounds != [] ==> rounds[0].before == old(records) && old(world.now) <= rounds[0].expiry
      ensures blocks == old(blocks) + AllBlocks(rounds) + if finished then [Clearing] else []
      ensures world.received == old(world.received) + AllReceipts(rounds)
      ensures world.answers == old(world.answers) + AllAnswers(rounds) && AllReadable(AllAnswers(rounds))
      ensures world.children == old(world.children) + AllChildren(rounds)
      ensures world.uses ==
              old(world.uses) + AllUses(rounds) + if finished then LastUses(rounds) + [Store] else []
      ensures Sourced(setup, AllBlocks(rounds), AllReceipts(rounds))
      ensures finished ==> world.shutdown && records == map[]
    {
      hide Valid;
      hide Linked;
      hide Sourced;
      hide AllBlocks;
      hide AllReceipts;
      hide AllAnswers;
      hide AllChildren;
      hide AllUses;
      hide LastUses;
      hide AllReadable;
      finished, rounds := Loop(iterations);
      RunSourced(setup, rounds, timings);
      if finished { Leave(); }
    }

    /** The iterations alone. */
    method Loop(iterations: nat) returns (finished: bool, ghost rounds: seq<Report>)
      requires Valid()
      modifies this`records, this`log, this`blocks, world
      ensures Valid() && world.MuchLater()
      ensures Along(old(Here()), rounds, finished) && Told(old(Here()), rounds, finished)
      ensures !finished ==> |rounds| == iterations
    {
      hide Valid;
      ghost var from := Here();
      finished, rounds := false, [];
      AlongNothing();
      var round := 0;
      hide Along;
      hide Told;
      while round < iterations && !finished
        invariant Valid() && world.MuchLater() && Along(from, rounds, finished) && Told(from, rounds, finished)
        invariant !finished ==> |rounds| == round <= iterations
        decreases iterations - round, !finished
      {
        round := round + 1;
        finished, rounds := Advance(from, rounds);
      }
    }

    /** The clean-up after the loop. */
    method Leave()
      requires Valid()
      modifies this`records, this`log, this`blocks, world`shutdown, world`uses
      ensures Valid() && world.Later() && world.shutdown && world.uses == old(world.uses) + [Store]
      ensures blocks == old(blocks) + [Clearing] && records == map[]
    {
      hide Chronological;
      hide LastSample;
      hide Trace;
      hide Play;
      hide History;
      hide Lawful;
      world.StoreShutdown();
      records := map[];
      Record(Cleared);
      Close(Clearing);
    }

    ghost function Here(): Past
      reads this, world
    {
      Past(records, world.now, blocks, world.received, world.answers, world.children, world.uses)
    }

    /** The iterations `rounds` lead from the records and the time of `from` to here. */
    ghost predicate Along(from: Past, rounds: seq<Report>, finished: bool)
      reads this, world
    {
      && Linked(setup, rounds, timings)
      && if rounds == [] then records == from.records && from.now <= world.now
         else
           var last := rounds[|rounds| - 1];
           && rounds[0].before == from.records && from.now <= rounds[0].expiry
           && records == Outcome(last, timings) && last.end <= world.now
           && (!finished ==> !last.left) && (last.stopping ==> world.shutdown)
    }

    /** All that was recorded since `from` is what `rounds` report. */
    ghost predicate Told(from: Past, rounds: seq<Report>, finished: bool)
      reads this, world
    {
      && blocks == from.blocks + AllBlocks(rounds) && world.received == from.received + AllReceipts(rounds)
      && world.answers == from.answers + AllAnswers(rounds) && AllReadable(AllAnswers(rounds))
      && world.children == from.children + AllChildren(rounds)
      && world.uses == from.uses + AllUses(rounds) + if finished then LastUses(rounds) else []
    }

    lemma AlongNothing()
      ensures Along(Here(), [], false) && Told(Here(), [], false)
    {
      NoRounds(setup, timings);
    }

    /** One more iteration. */
    method Advance(ghost from: Past, ghost rounds: seq<Report>) returns (left: bool, ghost longer: seq<Report>)
      requires Valid() && Along(from, rounds, false) && Told(from, rounds, false)
      modifies this`records, this`log, this`blocks, world
      ensures Valid() && world.MuchLater()
      ensures Along(from, longer, left) && Told(from, longer, left)
      ensures !left ==> |longer| == |rounds| + 1
    {
      hide Valid;
      hide RoundEffect;
      hide Outcome;
      hide AllReadable;
      hide AllBlocks;
      hide AllReceipts;
      hide AllAnswers;
      hide AllChildren;
      hide AllUses;
      ghost var did;
      left, did := Round();
      longer := rounds;
      if did.Some? {
        LinkedAppend(setup, rounds, did.value, timings);
        hide Linked;
        AllAppend(rounds, did.value);
        AllReadableAppend(AllAnswers(rounds), did.value.answers);
        longer := rounds + [did.value];
      }
    }

    static predicate AllReadable(answers: seq<Sent>) {
      forall k :: 0 <= k < |answers| && answers[k].response.Some? ==> Readable(answers[k].response.value)
    }

    static lemma AllReadableAppend(answers: seq<Sent>, more: seq<Sent>)
      requires AllReadable(answers) && AllReadable(more)
      ensures AllReadable(answers + more)
    {
    }

    /** Nothing, or one readable answer sent just now. */
    ghost predicate Answered(answers: seq<Sent>)
      reads world
    {
      |answers| <= 1 && AllReadable(answers) && (answers != [] ==> answers[0].progress == world.progress)
    }

    /** One iteration of the loop; `left` when it breaks out. */
    method Round() returns (left: bool, ghost did: Option<Report>)
      requires Valid()
      modifies this`records, this`log, this`blocks, world
      ensures Valid() && world.MuchLater()
      ensures match did
              case None =>
                && left && world.shutdown && world.uses == old(world.uses) + [Load(true)]
                && records == old(records) && blocks == old(blocks) && world.received == old(world.received)
                && world.answers == old(world.answers) && world.children == old(world.children)
              case Some(p) =>
                && !old(world.shutdown) && RoundEffect(setup, p) && left == p.left
                && p.before == old(records) && old(world.now) <= p.expiry
                && p.end == world.now && p.stopping == world.shutdown
                && records == Outcome(p, timings) && blocks == old(blocks) + p.Blocks()
                && world.received == old(world.received) + p.got
                && world.answers == old(world.answers) + p.answers && Answered(p.answers)
                && world.children == old(world.children) + p.children && world.uses == old(world.uses) + p.Uses()
    {
      hide Chronological;
      hide LastSample;
      hide Trace;
      hide Play;
      hide History;
      hide Lawful;
      hide RoundEffect;
      hide AfterAll;
      hide Answered;
      left := world.LoadShutdown();
      did := None;
      if left { return; }
      ghost var p;
      left, p := Work();
      RecordsAfter(old(blocks), p.Blocks());
      did := Some(p);
    }

    /** An iteration that does not find the broker shutting down. */
    method Work() returns (left: bool, ghost p: Report)
      requires Valid()
      modifies this`records, this`log, this`blocks, world
      ensures Valid() && world.MuchLater() && RoundEffect(setup, p) && left == p.left
      ensures p.before == old(records) && old(world.now) <= p.expiry
      ensures p.end == world.now && p.stopping == world.shutdown
      ensures blocks == old(blocks) + p.Blocks() && world.received == old(world.received) + p.got
      ensures world.answers == old(world.answers) + p.answers && Answered(p.answers)
      ensures world.children == old(world.children) + p.children
      ensures world.uses == old(world.uses) + if p.Stops() then [Store] else []
    {
      hide Chronological;
      hide LastSample;
      hide Trace;
      hide Play;
      hide History;
      hide Lawful;
      hide Expire;
      hide Handled;
      hide DueAt;
      left := false;
      ghost var at := Refresh();
      var message := world.TryReceive();
      match message {
        case Envelope(request, caller) =>
          ghost var was := blocks;
          ghost var sent := Serve(request, caller);
          p := Report(old(records), at, at, at, world.now, [Polled(message)], Since(was),
                      world.children[|old(world.children)|..], [sent], false, world.shutdown);
        case Stopped =>
          left := true;
          p := Report(old(records), at, at, at, world.now, [Polled(message)], [], [], [], true, world.shutdown);
        case Nothing =>
          hide RoundEffect;
          left, p := Chores(old(records), at);
      }
    }

    /** Nothing was received: one maintenance check if any account is due, or else a wait. */
    method Chores(ghost before: Records, ghost expiry: nat) returns (left: bool, ghost p: Report)
      requires Valid() && records == Expire(before, expiry) && expiry <= world.now
      modifies this`records, this`log, this`blocks, world
      ensures Valid() && world.MuchLater() && RoundEffect(setup, p) && left == p.left
      ensures p.before == before && p.expiry == expiry && p.end == world.now && p.stopping == world.shutdown
      ensures old(world.now) <= p.due
      ensures p.got != [] && p.got[0] == Polled(Nothing) && world.received == old(world.received) + p.got[1..]
      ensures blocks == old(blocks) + p.tail
      ensures world.answers == old(world.answers) + p.answers && Answered(p.answers)
      ensures world.children == old(world.children) + p.children
      ensures world.uses == old(world.uses) + if p.Stops() then [Store] else []
    {
      hide Chronological;
      hide LastSample;
      hide Trace;
      hide Play;
      hide History;
      hide Lawful;
      hide Expire;
      hide Handled;
      hide DueAt;
      var due, sample := DueMaintenance();
      if due.Some? {
        DueIsActive(records, due.value, sample);
        Maintain(due.value);
        left := false;
        p := Report(before, expiry, sample, sample, world.now, [Polled(Nothing)], Since(old(blocks)),
                    world.children[|old(world.children)|..], [], false, world.shutdown);
      } else {
        left, p := Idle(before, expiry, sample);
      }
    }

    static lemma DueIsActive(r: Records, a: Account, now: nat)
      requires a in DueAt(r, now)
      ensures IsActive(r, a)
    {
    }

    /** `handle`, with the answer sent; all children run meanwhile are the caller's. */
    method Serve(request: Request, caller: Caller) returns (ghost sent: Sent)
      requires Valid() && (caller.Connected? ==> caller.reached <= world.progress)
      modifies this`records, this`log, this`blocks, world`now, world`shutdown, world`progress, world`answers,
               world`children
      ensures Valid() && world.Later() && old(blocks) <= blocks
      ensures world.answers == old(world.answers) + [sent] && Answered([sent])
      ensures Handled(setup, old(records), request, caller, Since(old(blocks)), sent)
      ensures world.Only(old(world.children), caller)
    {
      hide Chronological;
      hide LastSample;
      hide Trace;
      hide HandleEffect;
      hide Play;
      hide History;
      hide Lawful;
      hide Readable;
      hide AllSupervised;
      var response, seen := Handle(request, caller);
      world.Answer(response);
      sent := Sent(response, world.progress);
    }

    /** The blocking receive of an idle loop, for which nothing was due at `due`. */
    method Idle(ghost before: Records, ghost expiry: nat, ghost due: nat) returns (left: bool, ghost p: Report)
      requires Valid() && records == Expire(before, expiry) && expiry <= due <= world.now
      requires DueAt(records, due) == {}
      modifies this`records, this`log, this`blocks, world
      ensures Valid() && world.MuchLater() && RoundEffect(setup, p) && left == p.left
      ensures p.before == before && p.expiry == expiry && p.end == world.now && p.stopping == world.shutdown
      ensures p.due == due
      ensures p.got != [] && p.got[0] == Polled(Nothing) && world.received == old(world.received) + p.got[1..]
      ensures blocks == old(blocks) + p.tail
      ensures world.answers == old(world.answers) + p.answers && Answered(p.answers)
      ensures world.children == old(world.children) + p.children
      ensures world.uses == old(world.uses) + if p.Stops() then [Store] else []
    {
      hide Chronological;
      hide LastSample;
      hide Trace;
      hide Play;
      hide History;
      hide Lawful;
      hide Expire;
      hide Handled;
      hide DueAt;
      hide WaitFits;
      left := false;
      var wait := IdleWait();
      ghost var waitAt := world.now;
      var message := world.ReceiveWithin(wait);
      ghost var got := [Polled(Nothing), Waited(message, wait)];
      assert got[1..] == [Waited(message, wait)];
      p := Report(before, expiry, due, waitAt, world.now, got, [], [], [], false, world.shutdown);
      match message {
        case Envelope(request, caller) =>
          ghost var sent := Serve(request, caller);
          p := p.(end := world.now, tail := Since(old(blocks)), children := world.children[|old(world.children)|..],
                  answers := [sent], stopping := world.shutdown);
        case Stopped =>
          left := true;
          p := p.(left := true);
        case Nothing =>
      }
    }

    /** The records now are what the blocks since `before` make of those at that point. */
    lemma RecordsAfter(before: seq<Block>, tail: seq<Block>)
      requires Valid() && blocks == before + tail
      ensures records == AfterAll(Play(map[], History(before), timings), tail, timings)
    {
      HistoryLeads(blocks, |before|, timings);
      assert blocks[..|before|] == before && blocks[|before|..] == tail;
    }
  }
}
