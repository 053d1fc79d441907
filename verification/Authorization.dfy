/** The authorization state as a reading of the broker's history.  The history records every clock
    sample that decides something, every subprocess with its result, and every change of state. */
module Authorization {
  import opened Base
  import opened Clock
  import opened Messages
  import S = Supervision

  datatype Timings = Timings(explicitTimeout: nat, checkTimeout: nat, maintenanceInterval: nat, hardLimit: nat)

  /** The production values; the invariants hold for any. */
  const DEFAULT_TIMINGS: Timings := Timings(120 * SECOND, 5 * SECOND, 300 * SECOND, 43_200 * SECOND)

  datatype Record = Required | Active(hardDeadline: nat, nextProbe: nat)

  type Records = map<Account, Record>

  predicate IsActive(r: Records, a: Account) { a in r && r[a].Active? }

  // ---------------------------------------------------------------- history

  /** A requested command and how long it may take. */
  datatype Job = Job(arguments: seq<seq<byte>>, limit: nat)

  datatype Program = ExplicitList | Whoami | CheckList | Command(job: Job)

  datatype ChildResult = Ended(outcome: S.Outcome) | NotRun

  /** One child: its deadline, how it ended, and the clock sample behind that verdict. */
  datatype Run = Run(deadline: nat, result: ChildResult, latched: nat)

  /** `Budget` is the sample from which the deadline of the children after it counts. */
  datatype Event =
    | Expiry(at: nat)
    | Attempt(account: Account, at: nat)
    | Authorized(account: Account, at: nat, checkedAt: nat)
    | Budget(account: Account, at: nat)
    | Passed(account: Account, at: nat)
    | CheckFailed(account: Account)
    | Ran(program: Program, account: Account, run: Run)
    | Cleared

  predicate Succeeded(run: Run) { run.result == Ended(S.Exited(0)) }

  /** `classify_check`. */
  datatype CheckResult = Success | Failed | Withdrawn | ShuttingDown

  function Classify(result: ChildResult): CheckResult {
    match result
    case Ended(Exited(code)) => if code == 0 then Success else Failed
    case Ended(Cancelled(_)) => Withdrawn
    case Ended(Shutdown) => ShuttingDown
    case _ => Failed
  }

  /** What the supervisor promises about a run (`Supervision.Contract`). */
  predicate Met(run: Run, cancellable: bool, shutdown: bool) {
    run.result.Ended? ==> S.Contract(run.result.outcome, run.latched, Some(run.deadline), cancellable, shutdown)
  }

  lemma MetSays(run: Run, cancellable: bool, shutdown: bool)
    requires Met(run, cancellable, shutdown)
    ensures Met(run, true, true)
    ensures run.result == Ended(S.Shutdown) ==> shutdown
    ensures run.result.Ended? && run.result.outcome.Cancelled? ==> cancellable
  {
  }

  lemma ExitMeets(run: Run, cancellable: bool, shutdown: bool, later: bool, end: bool)
    requires Met(run, cancellable, shutdown) && run.result.Ended? && run.result.outcome.Exited?
    ensures Met(run, later, end)
  {
  }

  // ---------------------------------------------------------------- the state a history leads to

  function Expire(r: Records, now: nat): Records {
    map a | a in r :: if r[a].Active? && now >= r[a].hardDeadline then Required else r[a]
  }

  function InvalidateAll(r: Records): Records { map a | a in r :: Required }

  function Step(r: Records, e: Event, t: Timings): Records {
    match e
    case Expiry(at) => Expire(r, at)
    case Attempt(a, _) => r[a := Required]
    case Authorized(a, at, checkedAt) =>
      r[a := Active(Add(at, t.hardLimit), Add(checkedAt, t.maintenanceInterval))]
    case Passed(a, at) =>
      if IsActive(r, a) then r[a := r[a].(nextProbe := Add(at, t.maintenanceInterval))] else r
    case CheckFailed(_) => InvalidateAll(r)
    case Cleared => map[]
    case Budget(_, _) => r
    case Ran(_, _, _) => r
  }

  function Play(r: Records, log: seq<Event>, t: Timings): Records {
    if log == [] then r else Step(Play(r, log[..|log| - 1], t), log[|log| - 1], t)
  }

  lemma {:induction false} PlayConcat(r: Records, log: seq<Event>, more: seq<Event>, t: Timings)
    ensures Play(r, log + more, t) == Play(Play(r, log, t), more, t)
  {
    if more == [] {
      assert log + more == log;
    } else {
      var n := |more| - 1;
      assert (log + more)[..|log + more| - 1] == log + more[..n];
      PlayConcat(r, log, more[..n], t);
    }
  }

  // ---------------------------------------------------------------- chronology

  /** The clock sample an event was taken at, if it stands for one. */
  function Sample(e: Event): Option<nat> {
    match e
    case Expiry(at) => Some(at)
    case Attempt(_, at) => Some(at)
    case Authorized(_, _, checkedAt) => Some(checkedAt)
    case Budget(_, at) => Some(at)
    case Passed(_, at) => Some(at)
    case Ran(_, _, run) => if run.result.Ended? then Some(run.latched) else None
    case CheckFailed(_) => None
    case Cleared => None
  }

  function LastSample(log: seq<Event>): nat {
    if log == [] then 0
    else
      match Sample(log[|log| - 1])
      case Some(at) => at
      case None => LastSample(log[..|log| - 1])
  }

  /** Time never goes back from one sample of a log to the next. */
  predicate Chronological(log: seq<Event>) {
    log == [] || (
      var earlier, last := log[..|log| - 1], Sample(log[|log| - 1]);
      Chronological(earlier) && (last.Some? ==> LastSample(earlier) <= last.value))
  }

  lemma ChronologicalAppend(log: seq<Event>, e: Event)
    requires Chronological(log) && (Sample(e).Some? ==> LastSample(log) <= Sample(e).value)
    ensures Chronological(log + [e])
    ensures LastSample(log + [e]) == if Sample(e).Some? then Sample(e).value else LastSample(log)
  {
    assert (log + [e])[..|log|] == log;
  }

  lemma {:induction false} SampleIsEarlier(log: seq<Event>, i: nat)
    requires Chronological(log) && i < |log| && Sample(log[i]).Some?
    ensures Sample(log[i]).value <= LastSample(log)
  {
    if i < |log| - 1 { SampleIsEarlier(log[..|log| - 1], i); }
  }

  /** The samples of a chronological log are in order. */
  lemma {:induction false} SamplesInOrder(log: seq<Event>, i: nat, j: nat)
    requires Chronological(log) && i < j < |log| && Sample(log[i]).Some? && Sample(log[j]).Some?
    ensures Sample(log[i]).value <= Sample(log[j]).value
    decreases |log|
  {
    if j < |log| - 1 {
      SamplesInOrder(log[..|log| - 1], i, j);
    } else {
      SampleIsEarlier(log[..j], i);
    }
  }

  // ---------------------------------------------------------------- indivisible blocks

  /** The check's two children run under one account and one deadline. */
  datatype Checked = Checked(at: nat, whoami: Run, vault: Run, checkedAt: nat)

  function Verdict(c: Checked): CheckResult {
    if Succeeded(c.whoami) then Classify(c.vault.result) else Classify(c.whoami.result)
  }

  datatype Block =
    | Expiring(at: nat)
    | Explicit(account: Account, at: nat, run: Run, checkedAt: nat)
    | Check(account: Account, check: Checked)
    | Execute(account: Account, check: Checked, guard: nat, job: Job, start: nat, run: Run)
    | Clearing

  function CheckEvents(a: Account, c: Checked): seq<Event> {
    [Budget(a, c.at), Ran(Whoami, a, c.whoami)]
    + (if !Succeeded(c.whoami) then []
       else if !Succeeded(c.vault) then [Ran(CheckList, a, c.vault)]
       else [Ran(CheckList, a, c.vault), Passed(a, c.checkedAt)])
  }

  function Spell(b: Block): seq<Event> {
    match b
    case Expiring(at) => [Expiry(at)]
    case Explicit(a, at, run, checkedAt) =>
      [Attempt(a, at), Ran(ExplicitList, a, run)] + (if Succeeded(run) then [Authorized(a, at, checkedAt)] else [])
    case Check(a, c) => CheckEvents(a, c) + (if Verdict(c) == Failed then [CheckFailed(a)] else [])
    case Execute(a, c, guard, job, start, run) =>
      CheckEvents(a, c) + [Expiry(guard), Budget(a, start), Ran(Command(job), a, run)]
    case Clearing => [Cleared]
  }

  function History(blocks: seq<Block>): seq<Event> {
    if blocks == [] then [] else History(blocks[..|blocks| - 1]) + Spell(blocks[|blocks| - 1])
  }

  predicate CheckAllowed(c: Checked, t: Timings) {
    && c.whoami.deadline == Add(c.at, t.checkTimeout) && Met(c.whoami, true, true)
    && (Succeeded(c.whoami) ==>
          c.at <= c.whoami.latched && c.vault.deadline == Add(c.at, t.checkTimeout) && Met(c.vault, true, true))
    && (Verdict(c) == Success ==> c.whoami.latched <= c.vault.latched <= c.checkedAt)
  }

  /** When the actor may perform a block. */
  predicate Allowed(r: Records, b: Block, t: Timings) {
    match b
    case Expiring(_) => true
    case Explicit(a, at, run, checkedAt) =>
      !IsActive(r, a) && run.deadline == Add(at, t.explicitTimeout) && Met(run, true, true) && at <= checkedAt
    case Check(a, c) => IsActive(r, a) && CheckAllowed(c, t)
    case Execute(a, c, guard, job, start, run) =>
      && IsActive(r, a) && CheckAllowed(c, t) && Verdict(c) == Success && Met(run, true, true)
      && IsActive(Expire(r, guard), a) && guard <= start && run.deadline == Add(start, job.limit)
    case Clearing => true
  }

  lemma AllowedHasCheck(r: Records, b: Block, t: Timings)
    requires Allowed(r, b, t)
    ensures b.Execute? ==> Verdict(b.check) == Success
  {
  }

  /** A history the broker can have. */
  predicate Lawful(blocks: seq<Block>, t: Timings) {
    forall k :: 0 <= k < |blocks| ==> Allowed(Play(map[], History(blocks[..k]), t), blocks[k], t)
  }

  lemma LawfulExtends(blocks: seq<Block>, b: Block, t: Timings)
    requires Lawful(blocks, t) && Allowed(Play(map[], History(blocks), t), b, t)
    ensures Lawful(blocks + [b], t) && History(blocks + [b]) == History(blocks) + Spell(b)
  {
    var longer := blocks + [b];
    assert longer[..|blocks|] == blocks;
    forall k | 0 <= k < |longer| ensures Allowed(Play(map[], History(longer[..k]), t), longer[k], t) {
      if k < |blocks| {
        assert longer[..k] == blocks[..k];
      }
    }
  }

  predicate SameHardDeadlines(r: Records, q: Records) {
    && r.Keys == q.Keys
    && forall a :: a in r ==>
         (r[a].Active? <==> q[a].Active?) && (r[a].Active? ==> r[a].hardDeadline == q[a].hardDeadline)
  }

  lemma PlayOne(r: Records, e: Event, t: Timings)
    ensures Play(r, [e], t) == Step(r, e, t)
  {
    assert [e][..0] == [];
  }

  /** A check that did not fail changes nothing but the next probe. */
  lemma ChecksKeepHardDeadlines(r: Records, a: Account, c: Checked, t: Timings)
    ensures SameHardDeadlines(r, Play(r, CheckEvents(a, c), t))
    ensures Play(r, CheckEvents(a, c), t) == if Verdict(c) == Success then Step(r, Passed(a, c.checkedAt), t) else r
  {
    var es := CheckEvents(a, c);
    var n := |es|;
    assert es[..1] == [es[0]];
    PlayOne(r, es[0], t);
    assert es[..2][..1] == es[..1];
    assert Play(r, es[..2], t) == r;
    assert n > 2 ==> es[..3][..2] == es[..2];
    assert n > 2 ==> Play(r, es[..3], t) == r;
    assert n == 4 ==> es[..4][..3] == es[..3];
    assert es[..n] == es;
  }

  /** The records after a whole block. */
  function After(r: Records, b: Block, t: Timings): Records {
    match b
    case Expiring(at) => Expire(r, at)
    case Explicit(a, at, run, checkedAt) =>
      if Succeeded(run) then r[a := Active(Add(at, t.hardLimit), Add(checkedAt, t.maintenanceInterval))]
      else r[a := Required]
    case Check(a, c) =>
      (match Verdict(c)
       case Success => Step(r, Passed(a, c.checkedAt), t)
       case Failed => InvalidateAll(r)
       case _ => r)
    case Execute(a, c, guard, _, _, _) => Expire(Step(r, Passed(a, c.checkedAt), t), guard)
    case Clearing => map[]
  }

  lemma SpellLeadsAfter(r: Records, b: Block, t: Timings)
    requires b.Execute? ==> Verdict(b.check) == Success
    ensures Play(r, Spell(b), t) == After(r, b, t)
  {
    hide Play;
    match b
    case Expiring(at) => PlayOne(r, Expiry(at), t);
    case Clearing => PlayOne(r, Cleared, t);
    case Explicit(_, _, _, _) => ExplicitLeads(r, b, t);
    case Check(_, _) => CheckLeads(r, b, t);
    case Execute(_, _, _, _, _, _) => ExecuteLeads(r, b, t);
  }

  lemma ExplicitLeads(r: Records, b: Block, t: Timings)
    requires b.Explicit?
    ensures Play(r, Spell(b), t) == After(r, b, t)
  {
    hide Play;
    var first, second := [Attempt(b.account, b.at)], [Ran(ExplicitList, b.account, b.run)];
    PlayOne(r, first[0], t);
    PlayConcat(r, first, second, t);
    PlayOne(Play(r, first, t), second[0], t);
    assert first + second == [Attempt(b.account, b.at), Ran(ExplicitList, b.account, b.run)];
    if Succeeded(b.run) {
      var third := Authorized(b.account, b.at, b.checkedAt);
      PlayConcat(r, first + second, [third], t);
      PlayOne(Play(r, first + second, t), third, t);
    } else {
      assert first + second + [] == first + second;
    }
  }

  lemma CheckLeads(r: Records, b: Block, t: Timings)
    requires b.Check?
    ensures Play(r, Spell(b), t) == After(r, b, t)
  {
    hide Play;
    hide CheckEvents;
    var events := CheckEvents(b.account, b.check);
    ChecksKeepHardDeadlines(r, b.account, b.check, t);
    if Verdict(b.check) == Failed {
      PlayConcat(r, events, [CheckFailed(b.account)], t);
      PlayOne(Play(r, events, t), CheckFailed(b.account), t);
    } else {
      assert events + [] == events;
    }
  }

  lemma ExecuteLeads(r: Records, b: Block, t: Timings)
    requires b.Execute? && Verdict(b.check) == Success
    ensures Play(r, Spell(b), t) == After(r, b, t)
  {
    hide Play;
    hide CheckEvents;
    hide Expire;
    var events := CheckEvents(b.account, b.check);
    var guard, budget, ran := Expiry(b.guard), Budget(b.account, b.start), Ran(Command(b.job), b.account, b.run);
    ChecksKeepHardDeadlines(r, b.account, b.check, t);
    var checked := Play(r, events, t);
    PlayConcat(r, events, [guard, budget, ran], t);
    PlayConcat(checked, [guard], [budget, ran], t);
    PlayConcat(Play(checked, [guard], t), [budget], [ran], t);
    PlayOne(checked, guard, t);
    PlayOne(Step(checked, guard, t), budget, t);
    PlayOne(Step(checked, guard, t), ran, t);
    assert [guard] + [budget, ran] == [guard, budget, ran] && [budget] + [ran] == [budget, ran];
  }

  /** A passed check decides nothing about expiry. */
  lemma PassedDoesNotExtend(r: Records, a: Account, at: nat, guard: nat, t: Timings)
    ensures IsActive(Expire(Step(r, Passed(a, at), t), guard), a) <==> IsActive(Expire(r, guard), a)
  {
  }

  // ---------------------------------------------------------------- the map is its history

  predicate GrantedAt(log: seq<Event>, i: nat, a: Account) {
    i < |log| && log[i].Authorized? && log[i].account == a
  }

  /** Entry `i` is a successful explicit authorization of `a` that nothing since has ended. */
  predicate Grants(log: seq<Event>, i: nat, a: Account, t: Timings) {
    && GrantedAt(log, i, a)
    && forall j :: i < j < |log| ==>
         && !log[j].CheckFailed? && !log[j].Cleared?
         && (log[j].Expiry? ==> log[j].at < log[i].at + t.hardLimit && log[j].at < U64_MAX)
  }

  /** Explicit authorization only ever touches an account that is not active. */
  predicate Disciplined(log: seq<Event>, t: Timings) {
    forall k :: 0 <= k < |log| && (log[k].Attempt? || log[k].Authorized?) ==>
      !IsActive(Play(map[], log[..k], t), log[k].account)
  }

  lemma DisciplinedPrefix(log: seq<Event>, n: nat, t: Timings)
    requires Disciplined(log, t) && n <= |log|
    ensures Disciplined(log[..n], t)
  {
    forall k | 0 <= k < n && (log[k].Attempt? || log[k].Authorized?)
      ensures !IsActive(Play(map[], log[..n][..k], t), log[k].account)
    {
      assert log[..n][..k] == log[..k];
    }
  }

  /** One more event keeps a grant exactly when it is not one of those that end it. */
  lemma GrantsAppend(log: seq<Event>, e: Event, i: nat, a: Account, t: Timings)
    requires i < |log|
    ensures Grants(log + [e], i, a, t) <==>
              Grants(log, i, a, t) && !e.CheckFailed? && !e.Cleared?
              && (e.Expiry? ==> e.at < log[i].at + t.hardLimit && e.at < U64_MAX)
  {
    var longer := log + [e];
    assert longer[..|log|] == log;
    assert longer[|log|] == e;
    if Grants(longer, i, a, t) {
      assert forall j :: i < j < |log| ==> log[j] == longer[j];
    }
  }

  /** `a` holds a grant until `d`: one hard limit after its start, or the end of 64-bit time before that. */
  ghost predicate SomeGrant(log: seq<Event>, a: Account, d: nat, t: Timings) {
    exists i: nat :: Grants(log, i, a, t)
      && (d == log[i].at + t.hardLimit <= U64_MAX || d == U64_MAX < log[i].at + t.hardLimit)
  }

  lemma PlayLast(log: seq<Event>, t: Timings)
    requires log != []
    ensures Play(map[], log, t) == Step(Play(map[], log[..|log| - 1], t), log[|log| - 1], t)
  {
  }

  predicate ActiveUntil(r: Records, a: Account, d: nat) { IsActive(r, a) && r[a].hardDeadline == d }

  /** The events that end a grant until `d`. */
  predicate Ends(e: Event, d: nat) { e.CheckFailed? || e.Cleared? || (e.Expiry? && e.at >= d) }

  /** Between explicit authorizations of an account, its grant stands exactly until an event that ends it. */
  lemma StepKeepsGrant(r: Records, e: Event, a: Account, d: nat, t: Timings)
    requires (e.Attempt? || e.Authorized?) ==> e.account != a
    ensures ActiveUntil(Step(r, e, t), a, d) <==> ActiveUntil(r, a, d) && !Ends(e, d)
  {
  }

  lemma {:induction false} ActiveHasGrant(log: seq<Event>, a: Account, t: Timings)
    requires Disciplined(log, t) && IsActive(Play(map[], log, t), a)
    ensures SomeGrant(log, a, Play(map[], log, t)[a].hardDeadline, t)
  {
    hide Play;
    PlayNothing(t);
    var n := |log| - 1;
    var before := log[..n];
    assert log == before + [log[n]];
    DisciplinedPrefix(log, n, t);
    PlayLast(log, t);
    var d := Play(map[], log, t)[a].hardDeadline;
    if log[n].Authorized? && log[n].account == a {
      assert Grants(log, n, a, t);
    } else {
      AttemptEnds(Play(map[], before, t), log[n], a, t);
      StepKeepsGrant(Play(map[], before, t), log[n], a, d, t);
      hide Step;
      ActiveHasGrant(before, a, t);
      var i: nat :| Grants(before, i, a, t)
                    && (d == before[i].at + t.hardLimit <= U64_MAX || d == U64_MAX < before[i].at + t.hardLimit);
      GrantsAppend(before, log[n], i, a, t);
      assert Grants(log, i, a, t);
    }
  }

  lemma PlayNothing(t: Timings)
    ensures Play(map[], [], t) == map[]
  {
  }

  lemma AttemptEnds(r: Records, e: Event, a: Account, t: Timings)
    requires IsActive(Step(r, e, t), a)
    ensures !(e.Attempt? && e.account == a)
  {
  }

  lemma {:induction false} GrantIsActive(log: seq<Event>, i: nat, a: Account, t: Timings)
    requires Disciplined(log, t) && Grants(log, i, a, t)
    ensures ActiveUntil(Play(map[], log, t), a, Add(log[i].at, t.hardLimit))
  {
    hide Play;
    var n := |log| - 1;
    var before := log[..n];
    assert log == before + [log[n]];
    PlayLast(log, t);
    if i < n {
      hide Step;
      DisciplinedPrefix(log, n, t);
      GrantsAppend(before, log[n], i, a, t);
      GrantIsActive(before, i, a, t);
      StepKeepsGrant(Play(map[], before, t), log[n], a, Add(log[i].at, t.hardLimit), t);
    }
  }

  lemma GrantIsUnique(log: seq<Event>, i: nat, j: nat, a: Account, t: Timings)
    requires Disciplined(log, t) && Grants(log, i, a, t) && Grants(log, j, a, t)
    ensures i == j
  {
    if i < j { LaterGrantEndsEarlier(log, i, j, a, t); }
    if j < i { LaterGrantEndsEarlier(log, j, i, a, t); }
  }

  lemma LaterGrantEndsEarlier(log: seq<Event>, i: nat, j: nat, a: Account, t: Timings)
    requires Disciplined(log, t) && i < j && GrantedAt(log, j, a)
    ensures !Grants(log, i, a, t)
  {
    if Grants(log, i, a, t) {
      DisciplinedPrefix(log, j, t);
      assert Grants(log[..j], i, a, t);
      GrantIsActive(log[..j], i, a, t);
    }
  }

  lemma {:induction false} LawfulIsDisciplined(blocks: seq<Block>, t: Timings)
    requires Lawful(blocks, t)
    ensures Disciplined(History(blocks), t)
  {
    hide Play;
    hide Spell;
    hide Allowed;
    if blocks != [] {
      var n := |blocks| - 1;
      var earlier, b := blocks[..n], blocks[n];
      assert forall k :: 0 <= k < n ==> earlier[..k] == blocks[..k];
      LawfulIsDisciplined(earlier, t);
      var log: seq<Event>, more: seq<Event> := History(earlier), Spell(b);
      var whole: seq<Event> := log + more;
      forall k | 0 <= k < |whole| && (whole[k].Attempt? || whole[k].Authorized?)
        ensures !IsActive(Play(map[], whole[..k], t), whole[k].account)
      {
        if k < |log| {
          assert whole[..k] == log[..k];
        } else {
          assert whole[..k] == log + more[..k - |log|];
          PlayConcat(map[], log, more[..k - |log|], t);
          ExplicitTouchesInactive(Play(map[], log, t), b, k - |log|, t);
        }
      }
    }
  }

  lemma ExplicitTouchesInactive(r: Records, b: Block, k: nat, t: Timings)
    requires Allowed(r, b, t) && k < |Spell(b)| && (Spell(b)[k].Attempt? || Spell(b)[k].Authorized?)
    ensures !IsActive(Play(r, Spell(b)[..k], t), Spell(b)[k].account)
  {
    assert b.Explicit?;
    if k == 2 {
      var done := Spell(b)[..2];
      assert done[..1] == [Attempt(b.account, b.at)];
      assert done[..1][..0] == [];
      assert Play(r, done, t) == Play(r, done[..1], t);
    }
  }

  lemma DisciplinedMatches(log: seq<Event>, a: Account, d: nat, t: Timings)
    requires Disciplined(log, t)
    ensures IsActive(Play(map[], log, t), a) && Play(map[], log, t)[a].hardDeadline == d <==> SomeGrant(log, a, d, t)
  {
    if IsActive(Play(map[], log, t), a) { ActiveHasGrant(log, a, t); }
    if SomeGrant(log, a, d, t) {
      var i: nat :| Grants(log, i, a, t)
                    && (d == log[i].at + t.hardLimit <= U64_MAX || d == U64_MAX < log[i].at + t.hardLimit);
      GrantIsActive(log, i, a, t);
    }
  }

  /** In every history, `a` is active with deadline `d` exactly when some successful explicit
      authorization of `a` started `hardLimit` before `d` has since met neither a failed automatic
      check of any account, nor the final clear, nor an expiry sample a whole hard limit after its start
      (or at the end of 64-bit time). */
  lemma ActiveExactlyWhenGranted(blocks: seq<Block>, a: Account, d: nat, t: Timings)
    requires Lawful(blocks, t)
    ensures var r := Play(map[], History(blocks), t);
            IsActive(r, a) && r[a].hardDeadline == d <==> SomeGrant(History(blocks), a, d, t)
  {
    LawfulIsDisciplined(blocks, t);
    DisciplinedMatches(History(blocks), a, d, t);
  }

  /** That entry is unique. */
  lemma OneGrantPerAccount(blocks: seq<Block>, i: nat, j: nat, a: Account, t: Timings)
    requires Lawful(blocks, t) && Grants(History(blocks), i, a, t) && Grants(History(blocks), j, a, t)
    ensures i == j
  {
    LawfulIsDisciplined(blocks, t);
    GrantIsUnique(History(blocks), i, j, a, t);
  }
}
