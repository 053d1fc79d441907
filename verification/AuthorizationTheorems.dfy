/** What every lawful history shows: indivisible subprocess blocks, commands inside the hard limit,
    one budget per check, and maintenance that catches up. */
module AuthorizationTheorems {
  import opened Base
  import opened Clock
  import opened Messages
  import opened Authorization
  import S = Supervision

  // ---------------------------------------------------------------- the subprocess language

  /** The children attempted, in order: a child that could not be started is among them. */
  function Trace(log: seq<Event>): seq<Event> {
    if log == [] then []
    else Trace(log[..|log| - 1]) + (if log[|log| - 1].Ran? then [log[|log| - 1]] else [])
  }

  predicate Is(e: Event, program: Program, a: Account) { e.Ran? && e.program == program && e.account == a }

  predicate IsCommand(e: Event, a: Account) { e.Ran? && e.program.Command? && e.account == a }

  predicate Good(e: Event) { e.Ran? && Succeeded(e.run) }

  /** The five indivisible blocks. */
  predicate IsWord(w: seq<Event>) {
    |w| > 0 && w[0].Ran? &&
    var a := w[0].account;
    || (|w| == 1 && Is(w[0], ExplicitList, a))
    || (|w| == 1 && Is(w[0], Whoami, a) && !Good(w[0]))
    || (|w| == 2 && Is(w[0], Whoami, a) && Good(w[0]) && Is(w[1], CheckList, a))
    || (|w| == 3 && Is(w[0], Whoami, a) && Good(w[0]) && Is(w[1], CheckList, a) && Good(w[1]) && IsCommand(w[2], a))
  }

  predicate Words(ws: seq<seq<Event>>) { forall k :: 0 <= k < |ws| ==> IsWord(ws[k]) }

  function Join(ws: seq<seq<Event>>): seq<Event> {
    if ws == [] then [] else ws[0] + Join(ws[1..])
  }

  lemma {:induction false} JoinAppend(ws: seq<seq<Event>>, w: seq<Event>)
    ensures Join(ws + [w]) == Join(ws) + w
  {
    if ws == [] {
      assert Join([w]) == w + Join([w][1..]);
    } else {
      JoinAppend(ws[1..], w);
      assert (ws + [w])[1..] == ws[1..] + [w];
    }
  }

  lemma {:induction false} TraceConcat(log: seq<Event>, more: seq<Event>)
    ensures Trace(log + more) == Trace(log) + Trace(more)
  {
    if more == [] {
      assert log + more == log;
    } else {
      assert (log + more)[..|log + more| - 1] == log + more[..|more| - 1];
      TraceConcat(log, more[..|more| - 1]);
    }
  }

  /** The trace of a check: `whoami`, then `vault list` exactly when `whoami` exited 0. */
  function CheckWord(a: Account, c: Checked): seq<Event> {
    if Succeeded(c.whoami) then [Ran(Whoami, a, c.whoami), Ran(CheckList, a, c.vault)] else [Ran(Whoami, a, c.whoami)]
  }

  function WordOf(b: Block): seq<Event> {
    match b
    case Explicit(a, _, run, _) => [Ran(ExplicitList, a, run)]
    case Check(a, c) => CheckWord(a, c)
    case Execute(a, c, _, job, _, run) => CheckWord(a, c) + [Ran(Command(job), a, run)]
    case _ => []
  }

  /** Every child of a log is in its trace. */
  lemma {:induction false} TraceHas(log: seq<Event>, i: nat) returns (k: nat)
    requires i < |log| && log[i].Ran?
    ensures k < |Trace(log)| && Trace(log)[k] == log[i]
  {
    if i == |log| - 1 {
      k := |Trace(log)| - 1;
    } else {
      k := TraceHas(log[..|log| - 1], i);
    }
  }

  lemma TraceOfOne(e: Event)
    ensures Trace([e]) == if e.Ran? then [e] else []
  {
    assert [e][..0] == [];
  }

  lemma CheckTrace(a: Account, c: Checked)
    ensures Trace(CheckEvents(a, c)) == CheckWord(a, c)
  {
    hide Trace;
    var first, second := [Budget(a, c.at)], [Ran(Whoami, a, c.whoami)];
    TraceOfOne(first[0]);
    TraceOfOne(second[0]);
    TraceConcat(first, second);
    assert first + second == [Budget(a, c.at), Ran(Whoami, a, c.whoami)];
    var third, fourth := [Ran(CheckList, a, c.vault)], [Passed(a, c.checkedAt)];
    TraceOfOne(third[0]);
    TraceOfOne(fourth[0]);
    TraceConcat(third, fourth);
    TraceConcat(first + second, third);
    TraceConcat(first + second, third + fourth);
    assert third + fourth == [Ran(CheckList, a, c.vault), Passed(a, c.checkedAt)];
    assert first + second + [] == first + second;
  }

  lemma BlockTrace(b: Block)
    ensures Trace(Spell(b)) == WordOf(b)
  {
    hide Trace;
    hide CheckEvents;
    hide CheckWord;
    match b
    case Explicit(a, at, run, checkedAt) =>
      var first, second, third := [Attempt(a, at)], [Ran(ExplicitList, a, run)], [Authorized(a, at, checkedAt)];
      TraceOfOne(first[0]);
      TraceOfOne(second[0]);
      TraceOfOne(third[0]);
      TraceConcat(first, second);
      TraceConcat(first + second, third);
      assert first + second == [Attempt(a, at), Ran(ExplicitList, a, run)];
      assert first + second + [] == first + second;
    case Check(a, c) =>
      CheckTrace(a, c);
      TraceOfOne(CheckFailed(a));
      TraceConcat(CheckEvents(a, c), [CheckFailed(a)]);
      assert CheckEvents(a, c) + [] == CheckEvents(a, c);
    case Execute(a, c, guard, job, start, run) =>
      CheckTrace(a, c);
      TraceOfOne(Expiry(guard));
      TraceOfOne(Budget(a, start));
      TraceOfOne(Ran(Command(job), a, run));
      TraceConcat([Expiry(guard)], [Budget(a, start)]);
      TraceConcat([Expiry(guard)] + [Budget(a, start)], [Ran(Command(job), a, run)]);
      TraceConcat(CheckEvents(a, c), [Expiry(guard), Budget(a, start), Ran(Command(job), a, run)]);
      assert [Expiry(guard)] + [Budget(a, start)] + [Ran(Command(job), a, run)]
          == [Expiry(guard), Budget(a, start), Ran(Command(job), a, run)];
    case Expiring(at) => TraceOfOne(Expiry(at));
    case Clearing => TraceOfOne(Cleared);
  }

  lemma AllowedWord(r: Records, b: Block, t: Timings)
    requires Allowed(r, b, t) && WordOf(b) != []
    ensures IsWord(WordOf(b))
  {
  }

  /** Every history's subprocess trace is a concatenation of indivisible blocks. */
  lemma {:induction false} TraceIsWords(blocks: seq<Block>, t: Timings) returns (ws: seq<seq<Event>>)
    requires Lawful(blocks, t)
    ensures Words(ws) && Join(ws) == Trace(History(blocks))
  {
    hide Spell;
    hide Play;
    hide Allowed;
    hide IsWord;
    hide WordOf;
    ws := [];
    if blocks != [] {
      var n := |blocks| - 1;
      assert forall k :: 0 <= k < n ==> blocks[..n][..k] == blocks[..k];
      ws := TraceIsWords(blocks[..n], t);
      BlockTrace(blocks[n]);
      TraceConcat(History(blocks[..n]), Spell(blocks[n]));
      var w := WordOf(blocks[n]);
      if w != [] {
        AllowedWord(Play(map[], History(blocks[..n]), t), blocks[n], t);
        JoinAppend(ws, w);
        ws := ws + [w];
      }
    }
  }

  /** The length of the block a trace begins with, read off the trace alone. */
  function FirstLength(trace: seq<Event>): nat
    requires trace != []
  {
    if !trace[0].Ran? || !trace[0].program.Whoami? || !Good(trace[0]) then 1
    else if |trace| > 2 && trace[2].Ran? && trace[2].program.Command? then 3
    else 2
  }

  lemma FirstWord(ws: seq<seq<Event>>)
    requires Words(ws) && ws != []
    ensures Join(ws) != [] && |ws[0]| == FirstLength(Join(ws)) <= |Join(ws)|
    ensures Join(ws)[..|ws[0]|] == ws[0] && Join(ws)[|ws[0]|..] == Join(ws[1..])
  {
    assert IsWord(ws[0]);
    if ws[1..] != [] {
      assert IsWord(ws[1]);
      assert Join(ws[1..])[0] == ws[1][0];
    }
    assert forall i :: 0 <= i < |ws[0]| ==> Join(ws)[i] == ws[0][i];
    assert |Join(ws)| > |ws[0]| ==> Join(ws)[|ws[0]|] == Join(ws[1..])[0];
  }

  /** There is only one way to cut a trace into blocks, so no block can straddle two others. */
  lemma {:induction false} WordsAreUnique(ws: seq<seq<Event>>, vs: seq<seq<Event>>)
    requires Words(ws) && Words(vs) && Join(ws) == Join(vs)
    ensures ws == vs
  {
    if ws != [] { FirstWord(ws); }
    if vs != [] { FirstWord(vs); }
    if ws != [] && vs != [] {
      WordsAreUnique(ws[1..], vs[1..]);
      assert ws == [ws[0]] + ws[1..] && vs == [vs[0]] + vs[1..];
    }
  }

  // ---------------------------------------------------------------- the hard limit

  lemma GuardSurvivesCheck(r: Records, b: Block, t: Timings)
    requires b.Execute? && Allowed(r, b, t)
    ensures IsActive(Play(r, Guarded(b), t), b.account)
  {
    hide Play;
    hide CheckEvents;
    var events, guard, budget := CheckEvents(b.account, b.check), Expiry(b.guard), Budget(b.account, b.start);
    ChecksKeepHardDeadlines(r, b.account, b.check, t);
    PlayConcat(r, events, [guard, budget], t);
    PlayConcat(Play(r, events, t), [guard], [budget], t);
    PlayOne(Play(r, events, t), guard, t);
    PlayOne(Step(Play(r, events, t), guard, t), budget, t);
    assert [guard] + [budget] == [guard, budget];
  }

  /** Command `k` of the history ran on a grant of its account: the expiry sample before it was below
      that grant's start plus the hard limit, and its deadline counts from the sample right after. */
  ghost predicate WithinHardLimit(log: seq<Event>, k: nat, t: Timings)
    requires k < |log| && log[k].Ran? && log[k].program.Command?
  {
    && k > 1 && log[k - 2].Expiry? && log[k - 1].Budget? && log[k - 1].account == log[k].account
    && log[k - 2].at <= log[k - 1].at
    && var end := log[k - 1].at + log[k].program.job.limit;
    && (log[k].run.deadline == end <= U64_MAX || log[k].run.deadline == U64_MAX < end)
    && SomeGrantAfter(log[..k], log[k].account, log[k - 2].at, t)
  }

  /** `a` holds a grant whose hard limit is past `guard`. */
  ghost predicate SomeGrantAfter(log: seq<Event>, a: Account, guard: nat, t: Timings) {
    guard < U64_MAX && exists i: nat :: Grants(log, i, a, t) && guard < log[i].at + t.hardLimit
  }

  /** An execute block up to its command. */
  function Guarded(b: Block): seq<Event>
    requires b.Execute?
  {
    CheckEvents(b.account, b.check) + [Expiry(b.guard), Budget(b.account, b.start)]
  }

  lemma LawfulPrefix(blocks: seq<Block>, t: Timings)
    requires Lawful(blocks, t) && blocks != []
    ensures var n := |blocks| - 1;
            && Lawful(blocks[..n], t) && Allowed(Play(map[], History(blocks[..n]), t), blocks[n], t)
            && History(blocks) == History(blocks[..n]) + Spell(blocks[n])
  {
    var n := |blocks| - 1;
    assert forall m :: 0 <= m < n ==> blocks[..n][..m] == blocks[..m];
  }

  /** The command of an execute block is its last event. */
  lemma CommandClosesBlock(b: Block, k: nat)
    requires k < |Spell(b)| && Spell(b)[k].Ran? && Spell(b)[k].program.Command?
    ensures b.Execute? && Spell(b)[k] == Ran(Command(b.job), b.account, b.run)
    ensures Spell(b) == Guarded(b) + [Spell(b)[k]] && k == |Guarded(b)|
  {
  }

  lemma LastCommandWithinHardLimit(blocks: seq<Block>, k: nat, t: Timings)
    requires Lawful(blocks, t) && blocks != []
    requires |History(blocks[..|blocks| - 1])| <= k < |History(blocks)|
    requires History(blocks)[k].Ran? && History(blocks)[k].program.Command?
    ensures WithinHardLimit(History(blocks), k, t)
  {
    hide Play;
    hide History;
    hide Lawful;
    hide Spell;
    hide Guarded;
    hide Grants;
    var n := |blocks| - 1;
    var b, past, log := blocks[n], History(blocks[..n]), History(blocks);
    LawfulPrefix(blocks, t);
    assert log[k] == Spell(b)[k - |past|];
    CommandClosesBlock(b, k - |past|);
    assert log == past + Guarded(b) + [log[k]];
    CommandIsOnGrant(blocks[..n], b, t);
    CommandHasGuard(past, b, log[k], t);
    assert log[..k] == past + Guarded(b);
  }

  /** Once an execute block has passed its guard, its account holds a grant. */
  lemma CommandIsOnGrant(blocks: seq<Block>, b: Block, t: Timings)
    requires Lawful(blocks, t) && Allowed(Play(map[], History(blocks), t), b, t) && b.Execute?
    ensures SomeGrantAfter(History(blocks) + Guarded(b), b.account, b.guard, t)
  {
    hide Play;
    hide History;
    hide Lawful;
    hide Guarded;
    hide Disciplined;
    var past, log := History(blocks), History(blocks) + Guarded(b);
    GuardSurvivesCheck(Play(map[], past, t), b, t);
    PlayConcat(map[], past, Guarded(b), t);
    GuardedIsDisciplined(blocks, b, t);
    ActiveHasGrant(log, b.account, t);
    GuardedEnds(past, b);
    GuardIsBelowGrant(log, b, t);
  }

  lemma GuardedEnds(past: seq<Event>, b: Block)
    requires b.Execute?
    ensures var log := past + Guarded(b);
            |log| > 1 && log[|log| - 2] == Expiry(b.guard) && log[|log| - 1] == Budget(b.account, b.start)
  {
  }

  lemma GuardedIsDisciplined(blocks: seq<Block>, b: Block, t: Timings)
    requires Lawful(blocks, t) && Allowed(Play(map[], History(blocks), t), b, t) && b.Execute?
    ensures Disciplined(History(blocks) + Guarded(b), t)
  {
    hide Play;
    hide History;
    hide Lawful;
    hide Disciplined;
    LawfulExtends(blocks, b, t);
    LawfulIsDisciplined(blocks + [b], t);
    var log, whole := History(blocks) + Guarded(b), History(blocks + [b]);
    assert whole[..|log|] == log;
    DisciplinedPrefix(whole, |log|, t);
  }

  lemma GuardIsBelowGrant(log: seq<Event>, b: Block, t: Timings)
    requires b.Execute? && |log| > 1 && log[|log| - 2] == Expiry(b.guard) && log[|log| - 1].Budget?
    requires exists i: nat :: Grants(log, i, b.account, t)
    ensures SomeGrantAfter(log, b.account, b.guard, t)
  {
    var i: nat :| Grants(log, i, b.account, t);
    assert i < |log| - 2;
    assert log[|log| - 2].at < log[i].at + t.hardLimit;
  }

  /** What stands right before an execute block's command. */
  lemma CommandHasGuard(past: seq<Event>, b: Block, e: Event, t: Timings)
    requires b.Execute? && e == Ran(Command(b.job), b.account, b.run)
    requires b.guard <= b.start && b.run.deadline == Add(b.start, b.job.limit)
    requires SomeGrantAfter(past + Guarded(b), b.account, b.guard, t)
    ensures WithinHardLimit(past + Guarded(b) + [e], |past| + |Guarded(b)|, t)
  {
    hide SomeGrantAfter;
    var upTo := past + Guarded(b);
    var log, k := upTo + [e], |upTo|;
    assert log[..k] == upTo && log[k] == e;
    assert log[k - 1] == Guarded(b)[|Guarded(b)| - 1] && log[k - 2] == Guarded(b)[|Guarded(b)| - 2];
  }

  /** However many checks succeeded in between, no command starts past the hard limit of its
      account's latest explicit authorization. */
  lemma {:induction false} CommandsWithinHardLimit(blocks: seq<Block>, k: nat, t: Timings)
    requires Lawful(blocks, t) && k < |History(blocks)|
    requires History(blocks)[k].Ran? && History(blocks)[k].program.Command?
    ensures WithinHardLimit(History(blocks), k, t)
  {
    var n := |blocks| - 1;
    LawfulPrefix(blocks, t);
    var past := History(blocks[..n]);
    if k < |past| {
      CommandsWithinHardLimit(blocks[..n], k, t);
      assert History(blocks)[..k] == past[..k];
    } else {
      LastCommandWithinHardLimit(blocks, k, t);
    }
  }

  // ---------------------------------------------------------------- one budget per check

  predicate WithinBudget(log: seq<Event>, k: nat, t: Timings)
    requires k < |log| && log[k].Passed?
  {
    && k >= 3
    && var a := log[k].account;
    && log[k - 3].Budget? && Is(log[k - 2], Whoami, a) && Is(log[k - 1], CheckList, a)
    && log[k - 3].account == a && Good(log[k - 2]) && Good(log[k - 1])
    && var end := log[k - 3].at + t.checkTimeout;
    && log[k - 2].run.deadline == log[k - 1].run.deadline
    && (log[k - 1].run.deadline == end <= U64_MAX || log[k - 1].run.deadline == U64_MAX < end)
    && log[k - 3].at <= log[k - 2].run.latched <= log[k - 1].run.latched < end
    && log[k - 1].run.latched <= log[k].at && log[k - 1].run.latched < U64_MAX
  }

  lemma PassedWithinBudget(a: Account, c: Checked, k: nat, t: Timings)
    requires CheckAllowed(c, t) && k < |CheckEvents(a, c)| && CheckEvents(a, c)[k].Passed?
    ensures k == 3 && WithinBudget(CheckEvents(a, c), k, t)
  {
    assert Verdict(c) == Success;
  }

  lemma PassedIsInCheck(b: Block, k: nat)
    requires k < |Spell(b)| && Spell(b)[k].Passed?
    ensures (b.Check? || b.Execute?) && k < |CheckEvents(b.account, b.check)|
    ensures CheckEvents(b.account, b.check) <= Spell(b)
  {
  }

  /** A passed check ran both commands to exit 0, and the last sample of each was inside one limit
      counted from a single sample taken before the first. */
  lemma {:induction false} ChecksWithinOneBudget(blocks: seq<Block>, k: nat, t: Timings)
    requires Lawful(blocks, t) && k < |History(blocks)| && History(blocks)[k].Passed?
    ensures WithinBudget(History(blocks), k, t)
  {
    hide Play;
    hide Spell;
    hide CheckEvents;
    hide Lawful;
    var n := |blocks| - 1;
    LawfulPrefix(blocks, t);
    var past, b := History(blocks[..n]), blocks[n];
    if k < |past| {
      ChecksWithinOneBudget(blocks[..n], k, t);
    } else {
      var j := k - |past|;
      assert History(blocks)[k] == Spell(b)[j];
      PassedIsInCheck(b, j);
      var events := CheckEvents(b.account, b.check);
      assert events[j] == Spell(b)[j];
      PassedWithinBudget(b.account, b.check, j, t);
      assert forall i :: 0 <= i < |events| ==> History(blocks)[|past| + i] == events[i];
    }
  }

  // ---------------------------------------------------------------- what children decide

  /** An authorization follows its own prompt, which exited 0 before its deadline. */
  predicate Prompted(log: seq<Event>, k: nat, t: Timings)
    requires k < |log| && log[k].Authorized?
  {
    && k >= 2
    && var a := log[k].account;
    && log[k - 2] == Attempt(a, log[k].at) && Is(log[k - 1], ExplicitList, a)
    && log[k - 1].run.result == Ended(S.Exited(0)) && log[k - 1].run.latched < log[k].at + t.explicitTimeout
  }

  lemma AuthorizedInBlock(r: Records, b: Block, j: nat, t: Timings)
    requires Allowed(r, b, t) && j < |Spell(b)| && Spell(b)[j].Authorized?
    ensures j == 2 && Prompted(Spell(b), j, t)
  {
    assert b.Explicit?;
  }

  /** An account is authorized by nothing but a prompt for it that exited 0 in time. */
  lemma {:induction false} AuthorizedFollowsPrompt(blocks: seq<Block>, k: nat, t: Timings)
    requires Lawful(blocks, t) && k < |History(blocks)| && History(blocks)[k].Authorized?
    ensures Prompted(History(blocks), k, t)
  {
    hide Play;
    hide Spell;
    var n := |blocks| - 1;
    LawfulPrefix(blocks, t);
    var past, b := History(blocks[..n]), blocks[n];
    if k < |past| {
      AuthorizedFollowsPrompt(blocks[..n], k, t);
    } else {
      var j := k - |past|;
      assert History(blocks)[k] == Spell(b)[j];
      AuthorizedInBlock(Play(map[], past, t), b, j, t);
      assert forall i :: 0 <= i < |Spell(b)| ==> History(blocks)[|past| + i] == Spell(b)[i];
    }
  }

  predicate IsProbe(e: Event) { e.Ran? && (e.program.Whoami? || e.program.CheckList?) }

  /** A probe that was neither withdrawn nor cut short by a shutdown, and did not exit 0. */
  predicate Flunked(run: Run) {
    match run.result
    case NotRun => true
    case Ended(Exited(code)) => code != 0
    case Ended(Signaled(_)) => true
    case Ended(TimedOut) => true
    case Ended(Cancelled(_)) => false
    case Ended(Shutdown) => false
  }

  /** Whether event `k` is followed by the invalidation of all accounts. */
  predicate Invalidates(log: seq<Event>, k: nat)
    requires k < |log| && IsProbe(log[k])
  {
    k + 1 < |log| && log[k + 1] == CheckFailed(log[k].account)
  }

  lemma ProbesInBlock(r: Records, b: Block, t: Timings)
    requires Allowed(r, b, t)
    ensures Spell(b) != [] && !Spell(b)[0].CheckFailed?
    ensures forall j :: 0 <= j < |Spell(b)| && IsProbe(Spell(b)[j]) ==>
              (Invalidates(Spell(b), j) <==> Flunked(Spell(b)[j].run))
    ensures forall j :: 0 <= j < |Spell(b)| && Spell(b)[j].CheckFailed? ==>
              j > 0 && IsProbe(Spell(b)[j - 1]) && Invalidates(Spell(b), j - 1)
  {
    if b.Check? || b.Execute? {
      ProbesInCheck(b.account, b.check);
      var events := CheckEvents(b.account, b.check);
      assert events <= Spell(b);
      hide CheckEvents;
      hide Flunked;
    }
  }

  /** The probes of a check all succeed but a last one that decides it. */
  lemma ProbesInCheck(a: Account, c: Checked)
    ensures var events := CheckEvents(a, c);
            && |events| >= 2 && IsProbe(events[1]) && !events[0].CheckFailed?
            && (forall j :: 0 <= j < |events| && IsProbe(events[j]) ==>
                  events[j].account == a && (if j < |events| - 1 then !Flunked(events[j].run)
                                             else (Flunked(events[j].run) <==> Verdict(c) == Failed)))
            && (forall j :: 0 <= j < |events| ==> !events[j].CheckFailed?)
            && (Verdict(c) == Failed ==> IsProbe(events[|events| - 1]))
  {
  }

  /** All accounts are invalidated right after a probe that flunked, and after nothing else. */
  lemma {:induction false} ChecksFailExactlyWhen(blocks: seq<Block>, k: nat, t: Timings)
    requires Lawful(blocks, t) && k < |History(blocks)|
    ensures var log := History(blocks);
            && (IsProbe(log[k]) ==> (Invalidates(log, k) <==> Flunked(log[k].run)))
            && (log[k].CheckFailed? ==> k > 0 && IsProbe(log[k - 1]) && Flunked(log[k - 1].run))
  {
    hide Play;
    hide Spell;
    hide Flunked;
    hide IsProbe;
    var n := |blocks| - 1;
    LawfulPrefix(blocks, t);
    var past, b := History(blocks[..n]), blocks[n];
    ProbesInBlock(Play(map[], past, t), b, t);
    var log := History(blocks);
    if k < |past| {
      ChecksFailExactlyWhen(blocks[..n], k, t);
      assert log[k] == past[k] && (k + 1 < |past| ==> log[k + 1] == past[k + 1]);
      assert k + 1 == |past| ==> log[k + 1] == Spell(b)[0];
    } else {
      var j := k - |past|;
      assert log[k] == Spell(b)[j];
      assert j > 0 ==> log[k - 1] == Spell(b)[j - 1];
      assert j + 1 < |Spell(b)| ==> log[k + 1] == Spell(b)[j + 1];
    }
  }

  // ---------------------------------------------------------------- maintenance

  /** The sample of the latest success for `a`, explicit or automatic. */
  predicate SuccessAt(log: seq<Event>, j: nat, a: Account, at: nat) {
    && j < |log|
    && ((log[j].Authorized? && log[j].account == a && log[j].checkedAt == at)
        || (log[j].Passed? && log[j].account == a && log[j].at == at))
    && forall k :: j < k < |log| ==> !((log[k].Authorized? || log[k].Passed?) && log[k].account == a)
  }

  /** An active account's next probe is one interval after its latest success of either kind. */
  lemma {:induction false} NextProbeFollowsSuccess(log: seq<Event>, a: Account, t: Timings) returns (j: nat, at: nat)
    requires IsActive(Play(map[], log, t), a)
    ensures SuccessAt(log, j, a, at)
    ensures var next := Play(map[], log, t)[a].nextProbe;
            next == at + t.maintenanceInterval <= U64_MAX || next == U64_MAX < at + t.maintenanceInterval
  {
    var n := |log| - 1;
    var e := log[n];
    if e.Authorized? && e.account == a {
      j, at := n, e.checkedAt;
    } else if e.Passed? && e.account == a {
      j, at := n, e.at;
    } else {
      j, at := NextProbeFollowsSuccess(log[..n], a, t);
    }
  }

  function DueAt(r: Records, now: nat): set<Account> {
    set a | a in r && r[a].Active? && now >= r[a].nextProbe
  }

  /** A passed check takes a due account out of the due set of that instant, and only it, except at
      the very end of 64-bit time, where the next probe saturates. */
  lemma PassedIsNoLongerDue(r: Records, a: Account, at: nat, now: nat, t: Timings)
    requires a in DueAt(r, now) && now <= at && now <= U64_MAX && t.maintenanceInterval > 0
    ensures DueAt(Step(r, Passed(a, at), t), now) == if now < U64_MAX then DueAt(r, now) - {a} else DueAt(r, now)
  {
  }

  /** One maintenance check of an account due at `now`, sampled no earlier, that was not cut short. */
  predicate MaintainsDue(r: Records, b: Block, now: nat) {
    b.Check? && b.account in DueAt(r, now) && now <= b.check.checkedAt && Verdict(b.check) in {Success, Failed}
  }

  lemma MaintenanceShrinksDue(r: Records, b: Block, now: nat, t: Timings)
    requires MaintainsDue(r, b, now) && now < U64_MAX && t.maintenanceInterval > 0
    ensures |DueAt(After(r, b, t), now)| < |DueAt(r, now)|
  {
    var due := DueAt(r, now);
    assert |due - {b.account}| == |due| - 1;
    if Verdict(b.check) == Success {
      PassedIsNoLongerDue(r, b.account, b.check.checkedAt, now, t);
    } else {
      assert DueAt(After(r, b, t), now) == {};
    }
  }

  /** After a passed check at `at`, an account is due again exactly from one interval later on. */
  lemma CheckedIsDueAgain(r: Records, a: Account, at: nat, now: nat, t: Timings)
    requires IsActive(r, a)
    ensures a in DueAt(Step(r, Passed(a, at), t), now) <==> at + t.maintenanceInterval <= now || U64_MAX <= now
  {
  }

  /** The active accounts that come due before `end`. */
  function DueBefore(r: Records, end: nat): set<Account> {
    set a | a in r && r[a].Active? && r[a].nextProbe < end
  }

  lemma ExpiryDropsDue(r: Records, at: nat, end: nat)
    ensures DueBefore(Expire(r, at), end) <= DueBefore(r, end)
  {
  }

  /** A check that starts from a sample in the interval after `from` takes its account out of those that
      come due before its end, and adds none. */
  lemma CheckDropsDue(r: Records, b: Block, now: nat, from: nat, t: Timings)
    requires b.Check? && b.account in DueAt(r, now) && (Verdict(b.check) == Success || Verdict(b.check) == Failed)
    requires from <= now < Add(from, t.maintenanceInterval) && now <= b.check.checkedAt
    ensures var end := Add(from, t.maintenanceInterval);
            b.account in DueBefore(r, end) && DueBefore(After(r, b, t), end) <= DueBefore(r, end) - {b.account}
  {
  }

  // ---------------------------------------------------------------- blocks and records

  /** The records after several blocks. */
  function AfterAll(r: Records, blocks: seq<Block>, t: Timings): Records
    decreases |blocks|
  {
    if blocks == [] then r else After(AfterAll(r, blocks[..|blocks| - 1], t), blocks[|blocks| - 1], t)
  }

  /** A lawful history continues from any point by the effects of its blocks alone. */
  lemma {:induction false} HistoryLeads(blocks: seq<Block>, n: nat, t: Timings)
    requires Lawful(blocks, t) && n <= |blocks|
    ensures Play(map[], History(blocks), t) == AfterAll(Play(map[], History(blocks[..n]), t), blocks[n..], t)
    decreases |blocks|
  {
    hide Play;
    hide History;
    hide After;
    if n == |blocks| {
      assert blocks[..n] == blocks;
    } else {
      var last := |blocks| - 1;
      LawfulPrefix(blocks, t);
      HistoryLeads(blocks[..last], n, t);
      assert blocks[..last][..n] == blocks[..n];
      assert blocks[n..][..last - n] == blocks[..last][n..];
      LastBlockLeads(blocks, t);
    }
  }

  lemma LastBlockLeads(blocks: seq<Block>, t: Timings)
    requires Lawful(blocks, t) && blocks != []
    ensures var n := |blocks| - 1;
            Play(map[], History(blocks), t) == After(Play(map[], History(blocks[..n]), t), blocks[n], t)
  {
    hide Play;
    hide History;
    hide After;
    var n := |blocks| - 1;
    LawfulPrefix(blocks, t);
    SpellLeadsAfter(Play(map[], History(blocks[..n]), t), blocks[n], t);
    PlayConcat(map[], History(blocks[..n]), Spell(blocks[n]), t);
  }
}
