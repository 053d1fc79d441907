/** Iterations of the executor's loop (src/broker.rs), each with the clock samples it decided on, and
    what any run of them shows. */
module Rounds {
  import opened Base
  import opened Clock
  import opened Messages
  import opened Authorization
  import opened AuthorizationTheorems
  import opened Replies
  import opened Requests
  import S = Supervision

  /** One iteration that did not find the broker shutting down: the records it began with, the samples of
      its expiry, of the search for a due account and of the wait's length, the time it ended, what it
      received, the blocks after its expiry, the children run, the answers, and whether it left the loop
      or, at its end, shutdown was set. */
  datatype Report = Report(
    before: Records, expiry: nat, due: nat, waitAt: nat, end: nat,
    got: seq<Receipt>, tail: seq<Block>, children: seq<Child>, answers: seq<Sent>, left: bool, stopping: bool)
  {
    function Blocks(): seq<Block> { [Expiring(expiry)] + tail }

    /** The records an iteration works with. */
    function Fresh(): Records { Expire(before, expiry) }

    predicate Maintains() { |got| == 1 && got[0].message.Nothing? }

    /** Its check was cut short by a shutdown, which it then requests as well. */
    predicate Stops() { Maintains() && |tail| == 1 && tail[0].Check? && Verdict(tail[0].check) == ShuttingDown }

    function Uses(): seq<FlagUse> { [Load(false)] + if Stops() then [Store] else [] }
  }

  /** The instant an active account next needs the actor. */
  function Earliest(r: Record): nat
    requires r.Active?
  {
    Min(r.nextProbe, r.hardDeadline)
  }

  /** A wait from `now` ends just at `deadline`, or does not begin because that is past. */
  predicate EndsAt(now: nat, wait: nat, deadline: nat) { now + wait == deadline || (wait == 0 && deadline <= now) }

  /** A wait decided at `now` reaches past no active account's next probe or hard deadline, and is cut short by
      nothing else but the longest wait. */
  ghost predicate WaitFits(r: Records, now: nat, wait: nat) {
    && wait <= 100 * MILLISECOND
    && (forall a :: IsActive(r, a) && wait > 0 ==> now + wait <= r[a].nextProbe && now + wait <= r[a].hardDeadline)
    && (wait == 100 * MILLISECOND
        || exists a :: IsActive(r, a) && (EndsAt(now, wait, r[a].nextProbe) || EndsAt(now, wait, r[a].hardDeadline)))
  }

  /** One maintenance check, of an account due at the iteration's own sample. */
  predicate MaintenanceEffect(p: Report) {
    && |p.tail| == 1 && p.tail[0].Check?
    && p.tail[0].account in DueAt(p.Fresh(), p.due)
    && p.due <= p.tail[0].check.at && p.due <= p.tail[0].check.checkedAt
    && Verdict(p.tail[0].check) != Withdrawn
    && (Verdict(p.tail[0].check) == ShuttingDown ==> p.stopping)
  }

  /** What an iteration does, by what it receives. */
  ghost predicate RoundEffect(setup: Setup, p: Report) {
    && p.expiry <= p.due <= p.waitAt <= p.end
    && 1 <= |p.got| <= 2 && p.got[0].Polled?
    && (|p.got| == 2 ==>
          && p.got[0].message.Nothing? && DueAt(p.Fresh(), p.due) == {}
          && p.got[1].Waited? && WaitFits(p.Fresh(), p.waitAt, p.got[1].wait))
    && match p.got[|p.got| - 1].message
       case Stopped => p.left && p.tail == [] && p.children == [] && p.answers == []
       case Envelope(request, caller) =>
         && !p.left && |p.answers| == 1 && AllBy(p.children, caller)
         && Handled(setup, p.Fresh(), request, caller, p.tail, p.answers[0])
       case Nothing =>
         && !p.left && p.answers == [] && AllBy(p.children, Caller.Internal)
         && if |p.got| == 2 then p.tail == [] && p.children == [] else MaintenanceEffect(p)
  }

  // ---------------------------------------------------------------- runs of iterations

  function Outcome(p: Report, t: Timings): Records { AfterAll(p.before, p.Blocks(), t) }

  /** Each iteration continues where the one before it ended, unless that one was the last. */
  predicate ContinuesFrom(p: Report, q: Report, t: Timings) {
    q.before == Outcome(p, t) && p.end <= q.expiry && !p.left && !p.stopping
  }

  ghost predicate Linked(setup: Setup, ps: seq<Report>, t: Timings) {
    && (forall k :: 0 <= k < |ps| ==> RoundEffect(setup, ps[k]))
    && (forall k :: 0 < k < |ps| ==> ContinuesFrom(ps[k - 1], ps[k], t))
  }

  function AllBlocks(ps: seq<Report>): seq<Block> {
    if ps == [] then [] else AllBlocks(ps[..|ps| - 1]) + ps[|ps| - 1].Blocks()
  }

  function AllReceipts(ps: seq<Report>): seq<Receipt> {
    if ps == [] then [] else AllReceipts(ps[..|ps| - 1]) + ps[|ps| - 1].got
  }

  function AllAnswers(ps: seq<Report>): seq<Sent> {
    if ps == [] then [] else AllAnswers(ps[..|ps| - 1]) + ps[|ps| - 1].answers
  }

  function AllChildren(ps: seq<Report>): seq<Child> {
    if ps == [] then [] else AllChildren(ps[..|ps| - 1]) + ps[|ps| - 1].children
  }

  function AllUses(ps: seq<Report>): seq<FlagUse> {
    if ps == [] then [] else AllUses(ps[..|ps| - 1]) + ps[|ps| - 1].Uses()
  }

  /** Why a run of iterations is over: the last one left the loop, or the next found shutdown set. */
  function LastUses(ps: seq<Report>): seq<FlagUse> {
    if ps != [] && ps[|ps| - 1].left then [] else [Load(true)]
  }

  lemma NoRounds(setup: Setup, t: Timings)
    ensures Linked(setup, [], t) && AllBlocks([]) == [] && AllReceipts([]) == []
    ensures AllAnswers([]) == [] && AllChildren([]) == [] && AllUses([]) == []
  {
  }

  lemma LinkedAppend(setup: Setup, ps: seq<Report>, p: Report, t: Timings)
    requires Linked(setup, ps, t) && RoundEffect(setup, p)
    requires ps != [] ==> ContinuesFrom(ps[|ps| - 1], p, t)
    ensures Linked(setup, ps + [p], t)
  {
    hide RoundEffect;
    hide ContinuesFrom;
  }

  lemma AllAppend(ps: seq<Report>, p: Report)
    ensures AllBlocks(ps + [p]) == AllBlocks(ps) + p.Blocks()
    ensures AllReceipts(ps + [p]) == AllReceipts(ps) + p.got
    ensures AllAnswers(ps + [p]) == AllAnswers(ps) + p.answers
    ensures AllChildren(ps + [p]) == AllChildren(ps) + p.children
    ensures AllUses(ps + [p]) == AllUses(ps) + p.Uses()
  {
    assert (ps + [p])[..|ps|] == ps;
  }

  // ---------------------------------------------------------------- maintenance catches up

  /** The two ways a maintenance check that was not cut short can end. */
  lemma MaintenanceDropsDue(p: Report, from: nat, t: Timings)
    requires MaintenanceEffect(p) && !p.stopping && from <= p.due < Add(from, t.maintenanceInterval)
    ensures var end := Add(from, t.maintenanceInterval);
            |DueBefore(Outcome(p, t), end)| < |DueBefore(p.before, end)|
  {
    var end := Add(from, t.maintenanceInterval);
    var b := p.tail[0];
    OutcomeOfCheck(p, t);
    ExpiryDropsDue(p.before, p.expiry, end);
    CheckDropsDue(p.Fresh(), b, p.due, from, t);
    Smaller(DueBefore(Outcome(p, t), end), DueBefore(p.before, end), b.account);
  }

  lemma OutcomeOfCheck(p: Report, t: Timings)
    requires |p.tail| == 1
    ensures Outcome(p, t) == After(p.Fresh(), p.tail[0], t)
  {
    var blocks := p.Blocks();
    var first := [Expiring(p.expiry)];
    assert AfterAll(p.before, first, t) == p.Fresh() by { assert first[..0] == []; }
    assert blocks[..1] == first && blocks[1] == p.tail[0];
  }

  lemma Smaller(s: set<Account>, u: set<Account>, a: Account)
    requires a in u && s <= u - {a}
    ensures |s| < |u|
  {
    Cardinality(s, u - {a});
  }

  lemma {:induction false} Cardinality(s: set<Account>, u: set<Account>)
    requires s <= u
    ensures |s| <= |u|
  {
    if s != {} {
      var a :| a in s;
      Cardinality(s - {a}, u - {a});
    }
  }

  /** `ps` are consecutive maintenance iterations whose samples fall in the interval after `from`. */
  ghost predicate Burst(setup: Setup, ps: seq<Report>, from: nat, t: Timings) {
    && Linked(setup, ps, t)
    && forall k :: 0 <= k < |ps| ==> ps[k].Maintains() && from <= ps[k].due < Add(from, t.maintenanceInterval)
  }

  /** Consecutive maintenance, expiries and fresh samples between the checks included, is bounded: within
      one interval there are no more checks than accounts that came due in it. */
  lemma {:induction false} MaintenanceDrains(setup: Setup, ps: seq<Report>, from: nat, t: Timings)
    requires Burst(setup, ps, from, t) && ps != []
    ensures |ps| <= |DueBefore(ps[0].before, Add(from, t.maintenanceInterval))|
    decreases |ps|
  {
    hide RoundEffect;
    hide Outcome;
    hide DueBefore;
    MaintainsCheck(setup, ps[0]);
    if |ps| == 1 {
      SomethingWasDue(ps[0], from, t);
    } else {
      assert ContinuesFrom(ps[0], ps[1], t);
      MaintenanceDropsDue(ps[0], from, t);
      assert forall k :: 0 < k < |ps[1..]| ==> ContinuesFrom(ps[1..][k - 1], ps[1..][k], t) by {
        assert forall k :: 0 < k < |ps[1..]| ==> ContinuesFrom(ps[k], ps[k + 1], t);
      }
      MaintenanceDrains(setup, ps[1..], from, t);
    }
  }

  lemma MaintainsCheck(setup: Setup, p: Report)
    requires RoundEffect(setup, p) && p.Maintains()
    ensures MaintenanceEffect(p)
  {
  }

  lemma SomethingWasDue(p: Report, from: nat, t: Timings)
    requires MaintenanceEffect(p) && p.due < Add(from, t.maintenanceInterval)
    ensures |DueBefore(p.before, Add(from, t.maintenanceInterval))| >= 1
  {
    var end := Add(from, t.maintenanceInterval);
    assert p.tail[0].account in DueBefore(p.before, end);
    Cardinality({p.tail[0].account}, DueBefore(p.before, end));
  }

  // ---------------------------------------------------------------- the time condition is needed

  /** A child that exits 0 at once. */
  function QuickRun(now: nat, limit: nat): Run { Run(Add(now, limit), Ended(S.Exited(0)), now) }

  function QuickPoll(now: nat): S.Poll {
    S.Poll(S.Changed(S.ByExit(0)), false, false, 0, now, S.Delivered, now, now, S.Delivered, true, false, S.Absent, now)
  }

  function QuickCheck(now: nat, t: Timings): Checked {
    Checked(now, QuickRun(now, t.checkTimeout), QuickRun(now, t.checkTimeout), now)
  }

  /** A maintenance iteration in which no time passes. */
  function QuickRound(before: Records, a: Account, now: nat, t: Timings): Report {
    var run := QuickRun(now, t.checkTimeout);
    Report(before, now, now, now, now, [Polled(Nothing)], [Check(a, QuickCheck(now, t))],
           [Child(Whoami, a, Caller.Internal, run, [QuickPoll(now)]),
            Child(CheckList, a, Caller.Internal, run, [QuickPoll(now)])], [], false, false)
  }

  lemma QuickRoundEffect(setup: Setup, before: Records, a: Account, now: nat, t: Timings)
    requires IsActive(before, a) && before[a].nextProbe <= now < before[a].hardDeadline
    ensures RoundEffect(setup, QuickRound(before, a, now, t)) && MaintenanceEffect(QuickRound(before, a, now, t))
    ensures Outcome(QuickRound(before, a, now, t), t) == Step(Expire(before, now), Passed(a, now), t)
  {
    OutcomeOfCheck(QuickRound(before, a, now, t), t);
  }

  /** Such an iteration can follow any history that leads to its records at an earlier time. */
  lemma QuickRoundExtends(blocks: seq<Block>, before: Records, a: Account, now: nat, t: Timings)
    requires Lawful(blocks, t) && before == Play(map[], History(blocks), t)
    requires IsActive(before, a) && now < before[a].hardDeadline
    requires Chronological(History(blocks)) && LastSample(History(blocks)) <= now < U64_MAX && t.checkTimeout > 0
    ensures var p := QuickRound(before, a, now, t);
            var longer := blocks + p.Blocks();
            && Lawful(longer, t) && Play(map[], History(longer), t) == Outcome(p, t)
            && Chronological(History(longer)) && LastSample(History(longer)) == now
  {
    hide Lawful;
    hide Play;
    hide History;
    hide Chronological;
    hide LastSample;
    var p := QuickRound(before, a, now, t);
    var first, second := Expiring(now), Check(a, QuickCheck(now, t));
    LawfulExtends(blocks, first, t);
    var middle := blocks + [first];
    assert middle[..|blocks|] == blocks;
    LastBlockLeads(middle, t);
    LawfulExtends(middle, second, t);
    var longer := middle + [second];
    assert longer == blocks + p.Blocks();
    HistoryLeads(longer, |blocks|, t);
    assert longer[..|blocks|] == blocks && longer[|blocks|..] == p.Blocks();
    QuickSamples(History(blocks), first, second, now, t);
  }

  lemma QuickSamples(log: seq<Event>, first: Block, second: Block, now: nat, t: Timings)
    requires Chronological(log) && LastSample(log) <= now
    requires first == Expiring(now) && second.Check? && second.check == QuickCheck(now, t)
    ensures var longer := log + Spell(first) + Spell(second); Chronological(longer) && LastSample(longer) == now
  {
    hide Chronological;
    hide LastSample;
    var a, run := second.account, QuickRun(now, t.checkTimeout);
    var e1, e2, e3, e4, e5 :=
      Expiry(now), Budget(a, now), Ran(Whoami, a, run), Ran(CheckList, a, run), Passed(a, now);
    ChronologicalAppend(log, e1);
    ChronologicalAppend(log + [e1], e2);
    ChronologicalAppend(log + [e1] + [e2], e3);
    ChronologicalAppend(log + [e1] + [e2] + [e3], e4);
    ChronologicalAppend(log + [e1] + [e2] + [e3] + [e4], e5);
    assert Spell(second) == [e2] + [e3] + [e4] + [e5];
    assert log + Spell(first) + Spell(second) == log + [e1] + [e2] + [e3] + [e4] + [e5];
  }

  /** An authorization of `a` in which no time passes. */
  function QuickStart(a: Account, now: nat, t: Timings): Block {
    Explicit(a, now, QuickRun(now, t.explicitTimeout), now)
  }

  lemma OneBlock(b: Block, t: Timings)
    requires Allowed(map[], b, t)
    ensures Lawful([b], t) && History([b]) == Spell(b) && Play(map[], History([b]), t) == After(map[], b, t)
  {
    var none: seq<Block> := [];
    assert Lawful(none, t) && History(none) == [] && Play(map[], History(none), t) == map[];
    hide Lawful;
    hide History;
    hide Play;
    hide Spell;
    hide After;
    LawfulExtends(none, b, t);
    assert none + [b] == [b] && [] + Spell(b) == Spell(b);
    AllowedHasCheck(map[], b, t);
    SpellLeadsAfter(map[], b, t);
  }

  lemma QuickStartSamples(a: Account, now: nat, t: Timings)
    ensures var log := Spell(QuickStart(a, now, t)); Chronological(log) && LastSample(log) == now
  {
    var run := QuickRun(now, t.explicitTimeout);
    var e1, e2, e3 := Attempt(a, now), Ran(ExplicitList, a, run), Authorized(a, now, now);
    var none: seq<Event> := [];
    assert Chronological(none) && LastSample(none) == 0;
    hide Chronological;
    hide LastSample;
    ChronologicalAppend(none, e1);
    assert none + [e1] == [e1];
    ChronologicalAppend([e1], e2);
    ChronologicalAppend([e1] + [e2], e3);
    assert Spell(QuickStart(a, now, t)) == [e1] + [e2] + [e3];
  }

  /** Two consecutive maintenance iterations, the second sampled just when the interval that began with
      the first is over: one account, authorized at `now`, checked twice.  They end a history the broker
      can have. */
  lemma WindowIsNeeded(setup: Setup, a: Account, now: nat) returns (earlier: seq<Block>, ps: seq<Report>)
    requires now + DEFAULT_TIMINGS.hardLimit < U64_MAX
    ensures |ps| == 2
    ensures var t := DEFAULT_TIMINGS;
            var from := ps[0].due;
            && Linked(setup, ps, t) && ps[0].Maintains() && ps[1].Maintains()
            && ps[1].due == Add(from, t.maintenanceInterval)
            && |DueBefore(ps[0].before, Add(from, t.maintenanceInterval))| == 1
            && ps[0].before == Play(map[], History(earlier), t)
            && Lawful(earlier + AllBlocks(ps), t) && Chronological(History(earlier + AllBlocks(ps)))
  {
    hide RoundEffect;
    hide Outcome;
    hide Lawful;
    hide Play;
    hide History;
    hide Chronological;
    hide LastSample;
    var t := DEFAULT_TIMINGS;
    var b := QuickStart(a, now, t);
    earlier := [b];
    OneBlock(b, t);
    QuickStartSamples(a, now, t);
    var before := Play(map[], History(earlier), t);
    var once := now + t.maintenanceInterval;
    var twice := once + t.maintenanceInterval;
    var p := QuickRound(before, a, once, t);
    QuickRoundEffect(setup, before, a, once, t);
    QuickRoundExtends(earlier, before, a, once, t);
    var middle := Outcome(p, t);
    var q := QuickRound(middle, a, twice, t);
    QuickRoundEffect(setup, middle, a, twice, t);
    QuickRoundExtends(earlier + p.Blocks(), middle, a, twice, t);
    ps := [p, q];
    assert ContinuesFrom(p, q, t);
    TwoBlocks(p, q);
    assert earlier + AllBlocks(ps) == earlier + p.Blocks() + q.Blocks();
    assert DueBefore(before, Add(once, t.maintenanceInterval)) == {a};
  }

  lemma TwoBlocks(p: Report, q: Report)
    ensures AllBlocks([p, q]) == p.Blocks() + q.Blocks()
  {
    assert AllBlocks([]) == [];
    AllAppend([], p);
    AllAppend([p], q);
    assert [] + [p] == [p] && [p] + [q] == [p, q];
  }

  // ---------------------------------------------------------------- everything was asked for

  ghost predicate WasAsked(setup: Setup, got: seq<Receipt>, b: Block) {
    exists m :: 0 <= m < |got| && Asks(setup, got[m].message, b)
  }

  /** Every prompt comes from a received warned start with the pinned executable, and every command from a
      received exec for that account, with its arguments and its timeout. */
  ghost predicate Sourced(setup: Setup, blocks: seq<Block>, got: seq<Receipt>) {
    forall k :: 0 <= k < |blocks| && NeedsRequest(blocks[k]) ==> WasAsked(setup, got, blocks[k])
  }

  lemma RoundSourced(setup: Setup, p: Report)
    requires RoundEffect(setup, p)
    ensures Sourced(setup, p.Blocks(), p.got)
  {
    hide Handled;
    hide Asks;
    var last := p.got[|p.got| - 1].message;
    forall k | 0 <= k < |p.Blocks()| && NeedsRequest(p.Blocks()[k]) ensures WasAsked(setup, p.got, p.Blocks()[k]) {
      assert p.Blocks()[k] == p.tail[k - 1];
      HandledAsks(setup, p.Fresh(), last.request, last.caller, p.tail, p.answers[0], k - 1);
      assert Asks(setup, p.got[|p.got| - 1].message, p.Blocks()[k]);
    }
  }

  lemma SourcedAppend(setup: Setup, blocks: seq<Block>, more: seq<Block>, got: seq<Receipt>, others: seq<Receipt>)
    requires Sourced(setup, blocks, got) && Sourced(setup, more, others)
    ensures Sourced(setup, blocks + more, got + others)
  {
    hide Asks;
    var all := blocks + more;
    forall k | 0 <= k < |all| && NeedsRequest(all[k]) ensures WasAsked(setup, got + others, all[k]) {
      if k < |blocks| {
        var m :| 0 <= m < |got| && Asks(setup, got[m].message, blocks[k]);
        assert Asks(setup, (got + others)[m].message, all[k]);
      } else {
        var m :| 0 <= m < |others| && Asks(setup, others[m].message, more[k - |blocks|]);
        assert Asks(setup, (got + others)[|got| + m].message, all[k]);
      }
    }
  }

  lemma {:induction false} RunSourced(setup: Setup, ps: seq<Report>, t: Timings)
    requires Linked(setup, ps, t)
    ensures Sourced(setup, AllBlocks(ps), AllReceipts(ps))
    decreases |ps|
  {
    hide RoundEffect;
    hide Sourced;
    if ps == [] {
      assert Sourced(setup, [], []) by { NothingSourced(setup); }
    } else {
      var n := |ps| - 1;
      RunSourced(setup, ps[..n], t);
      RoundSourced(setup, ps[n]);
      SourcedAppend(setup, AllBlocks(ps[..n]), ps[n].Blocks(), AllReceipts(ps[..n]), ps[n].got);
    }
  }

  lemma NothingSourced(setup: Setup)
    ensures Sourced(setup, [], [])
  {
  }
}
