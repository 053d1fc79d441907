/** The promises the thread invariants add up to: the channel never overflows, every envelope is
    resolved once and in order, a stop reply means quiescence, and shutdown always finishes. */
module ThreadTheorems {
  import opened Threads
  import opened ThreadInvariants

  ghost predicate Reachable(s: State) {
    exists run, actions :: Execution(run, actions) && run[|run| - 1] == s
  }

  lemma ReachableSteps(s: State, a: Action)
    requires Reachable(s) && Enabled(s, a)
    ensures Reachable(Apply(s, a))
  {
    var run, actions :| Execution(run, actions) && run[|run| - 1] == s;
    var longer, more := run + [Apply(s, a)], actions + [a];
    assert Execution(longer, more) && longer[|longer| - 1] == Apply(s, a);
  }

  lemma ReachableKeeps(s: State)
    requires Reachable(s)
    ensures Inv(s)
  {
    var run, actions :| Execution(run, actions) && run[|run| - 1] == s;
    ExecutionKeeps(run, actions, |run| - 1);
  }

  // ---------------------------------------------------------------- the channel never overflows

  predicate AboutToSend(c: Client) { c.pc.Submitting? || c.pc.SendingStop? }

  /** Only main's own stop message can leave a handler without a place. */
  lemma RoomForEverySender(s: State, i: nat)
    requires Inv(s) && i < |s.clients| && AboutToSend(s.clients[i]) && MainStop !in s.channel.queue
    ensures |s.channel.queue| < MAX_CONNECTIONS
  {
    assert Placed(s, s.clients[i]);
    TotalGap(s.clients, i, Queued, Slot);
  }

  /** The exact guard of the full branch: main's stop is queued, and so is a message of every other
      connection there can be. */
  lemma FullExactlyWhen(s: State, i: nat)
    requires Inv(s) && i < |s.clients| && AboutToSend(s.clients[i])
    ensures |s.channel.queue| >= MAX_CONNECTIONS <==>
            MainStop in s.channel.queue && Total(s.clients, Queued) == MAX_CONNECTIONS - 1
  {
    if MainStop !in s.channel.queue { RoomForEverySender(s, i); }
  }

  predicate ToldFull(c: Client) { c.mailbox == Holding(QueueFull) || (c.pc.Replying? && c.pc.answer.QueueFull?) }

  predicate NobodyToldFull(s: State) { forall c :: c in s.clients ==> !ToldFull(c) }

  lemma MainTellsNobody(s: State, c: MainChoice)
    requires NobodyToldFull(s) && MainEnabled(s, c)
    ensures NobodyToldFull(ApplyMain(s, c))
  {
  }

  lemma ClientTellsNobody(s: State, i: nat, c: ClientChoice)
    requires NobodyToldFull(s) && ClientEnabled(s, i, c)
    requires AboutToSend(s.clients[i]) ==> |s.channel.queue| < MAX_CONNECTIONS
    ensures NobodyToldFull(ApplyClient(s, i, c))
  {
    var t := ApplyClient(s, i, c);
    assert !ToldFull(s.clients[i]);
    assert t.clients == s.clients[i := t.clients[i]];
  }

  /** The actor answers a handler itself, and never with a full queue. */
  lemma ActorTellsNobody(s: State, c: ActorChoice)
    requires NobodyToldFull(s) && ActorEnabled(s, c)
    ensures NobodyToldFull(ApplyActor(s, c))
  {
    hide HasRequest;
    hide Discarded;
    var t := ApplyActor(s, c);
    forall i | 0 <= i < |t.clients| ensures !ToldFull(t.clients[i]) { assert !ToldFull(s.clients[i]); }
  }

  predicate RoomForAll(s: State) {
    forall i :: 0 <= i < |s.clients| && AboutToSend(s.clients[i]) ==> |s.channel.queue| < MAX_CONNECTIONS
  }

  /** `accept` has never failed. */
  predicate AcceptNeverFailed(actions: seq<Action>) { MainStep(AcceptError) !in actions }

  predicate NoStopByMain(s: State) { !s.main.FailStoring? && !s.main.FailSending? && MainStop !in s.channel.queue }

  lemma ActorSendsNoStop(s: State, c: ActorChoice)
    requires NoStopByMain(s) && ActorEnabled(s, c)
    ensures NoStopByMain(ApplyActor(s, c))
  {
    hide Discarded;
    hide HasRequest;
  }

  lemma MainSendsNoStop(s: State, c: MainChoice)
    requires NoStopByMain(s) && MainEnabled(s, c) && !c.AcceptError?
    ensures NoStopByMain(ApplyMain(s, c))
  {
  }

  lemma ClientSendsNoStop(s: State, i: nat, c: ClientChoice)
    requires NoStopByMain(s) && ClientEnabled(s, i, c)
    ensures NoStopByMain(ApplyClient(s, i, c))
  {
  }

  lemma StepSendsNoStop(s: State, a: Action)
    requires NoStopByMain(s) && Enabled(s, a) && a != MainStep(AcceptError)
    ensures NoStopByMain(Apply(s, a))
  {
    hide ApplyMain;
    hide ApplyClient;
    hide ApplyActor;
    hide NoStopByMain;
    match a
    case MainStep(c) => MainSendsNoStop(s, c);
    case ClientStep(i, c) => ClientSendsNoStop(s, i, c);
    case ActorStep(c) => ActorSendsNoStop(s, c);
  }

  lemma {:induction false} NoStopWithoutAcceptError(run: seq<State>, actions: seq<Action>, k: nat)
    requires Execution(run, actions) && k < |run| && AcceptNeverFailed(actions[..k])
    ensures NoStopByMain(run[k])
  {
    hide Apply;
    if k > 0 {
      assert actions[..k] == actions[..k - 1] + [actions[k - 1]];
      NoStopWithoutAcceptError(run, actions, k - 1);
      StepSendsNoStop(run[k - 1], actions[k - 1]);
    }
  }

  lemma RoomWithoutStop(s: State)
    requires Inv(s) && NoStopByMain(s)
    ensures RoomForAll(s)
  {
    hide Inv;
    forall i | 0 <= i < |s.clients| && AboutToSend(s.clients[i]) ensures |s.channel.queue| < MAX_CONNECTIONS {
      RoomForEverySender(s, i);
    }
  }

  lemma StepTellsNobodyFull(s: State, a: Action)
    requires RoomForAll(s) && NobodyToldFull(s) && Enabled(s, a)
    ensures NobodyToldFull(Apply(s, a))
  {
    hide ApplyMain;
    hide ApplyClient;
    hide ApplyActor;
    hide NobodyToldFull;
    match a
    case MainStep(c) => MainTellsNobody(s, c);
    case ClientStep(i, c) => ClientTellsNobody(s, i, c);
    case ActorStep(c) => ActorTellsNobody(s, c);
  }

  /** As long as `accept` has not failed, and whatever else has, `try_send` never sees a full channel,
      the blocking stop send never blocks, and no client is ever told the queue is full. */
  lemma {:induction false} QueueNeverOverflows(run: seq<State>, actions: seq<Action>, k: nat)
    requires Execution(run, actions) && k < |run| && AcceptNeverFailed(actions[..k])
    ensures RoomForAll(run[k]) && NobodyToldFull(run[k])
  {
    hide Inv;
    hide Apply;
    hide RoomForAll;
    ExecutionKeeps(run, actions, k);
    NoStopWithoutAcceptError(run, actions, k);
    RoomWithoutStop(run[k]);
    if k > 0 {
      assert actions[..k] == actions[..k - 1] + [actions[k - 1]];
      QueueNeverOverflows(run, actions, k - 1);
      StepTellsNobodyFull(run[k - 1], actions[k - 1]);
    }
  }

  // ---------------------------------------------------------------- each envelope once, in order

  function Envelopes(rs: seq<Resolution>): (es: seq<nat>)
    ensures |es| == |rs|
  {
    seq(|rs|, k requires 0 <= k < |rs| => rs[k].envelope)
  }

  function Pending(queue: seq<Message>): seq<nat> {
    if queue == [] then []
    else EnvelopeOf(queue[0]) + Pending(queue[1..])
  }

  function InHand(a: ActorPc): seq<nat> { if a.Handling? then [a.envelope] else [] }

  function UpTo(n: nat): seq<nat> { seq(n, k requires 0 <= k < n => k) }

  /** Resolved, in the actor's hand, and queued envelopes are together exactly the submitted ones. */
  predicate Conserved(s: State) {
    Envelopes(s.channel.resolved) + InHand(s.actor) + Pending(s.channel.queue) == UpTo(s.channel.submitted)
  }

  predicate OnlyDroppedAtShutdown(s: State) {
    forall r :: r in s.channel.resolved && !r.fate.Answered? ==> s.flags.shutdown
  }

  function EnvelopeOf(m: Message): seq<nat> { if m.Request? then [m.envelope] else [] }

  lemma {:induction false} PendingAppend(queue: seq<Message>, m: Message)
    ensures Pending(queue + [m]) == Pending(queue) + EnvelopeOf(m)
  {
    hide EnvelopeOf;
    if queue == [] {
      assert queue + [m] == [m] && [m][1..] == [];
    } else {
      PendingAppend(queue[1..], m);
      var longer := queue + [m];
      assert longer[0] == queue[0] && longer[1..] == queue[1..] + [m];
      assert Pending(longer) == EnvelopeOf(queue[0]) + (Pending(queue[1..]) + EnvelopeOf(m));
    }
  }

  lemma EnvelopesAppend(rs: seq<Resolution>, qs: seq<Resolution>)
    ensures Envelopes(rs + qs) == Envelopes(rs) + Envelopes(qs)
  {
  }

  lemma {:induction false} DiscardedEnvelopes(queue: seq<Message>)
    ensures Envelopes(Discarded(queue)) == Pending(queue)
    ensures forall r :: r in Discarded(queue) ==> r.fate == DroppedWithReceiver
  {
    if queue != [] {
      DiscardedEnvelopes(queue[1..]);
      EnvelopesAppend(if queue[0].Request? then [Resolution(queue[0].envelope, DroppedWithReceiver)] else [],
                      Discarded(queue[1..]));
    }
  }

  /** What a handler's step does to the channel's books. */
  lemma ClientSubmits(s: State, i: nat, c: ClientChoice)
    requires ClientEnabled(s, i, c)
    ensures var before, after := s.channel, ApplyClient(s, i, c).channel;
            || after == before
            || after == before.(queue := before.queue + [Stop(i)])
            || after == before.(queue := before.queue + [Request(i, before.submitted)],
                                submitted := before.submitted + 1)
  {
  }

  lemma ClientConserves(s: State, i: nat, c: ClientChoice)
    requires Conserved(s) && OnlyDroppedAtShutdown(s) && ClientEnabled(s, i, c)
    ensures Conserved(ApplyClient(s, i, c)) && OnlyDroppedAtShutdown(ApplyClient(s, i, c))
  {
    hide ApplyClient;
    hide Pending;
    ClientShape(s, i, c);
    ClientFlags(s, i, c);
    ClientSubmits(s, i, c);
    PendingAppend(s.channel.queue, Request(i, s.channel.submitted));
    PendingAppend(s.channel.queue, Stop(i));
    assert UpTo(s.channel.submitted + 1) == UpTo(s.channel.submitted) + [s.channel.submitted];
  }

  lemma MainConserves(s: State, c: MainChoice)
    requires Conserved(s) && OnlyDroppedAtShutdown(s) && MainEnabled(s, c)
    ensures Conserved(ApplyMain(s, c)) && OnlyDroppedAtShutdown(ApplyMain(s, c))
  {
    PendingAppend(s.channel.queue, MainStop);
  }

  lemma ReceiveConserves(s: State, otherwise: ActorPc)
    requires Conserved(s) && OnlyDroppedAtShutdown(s)
    requires (s.actor.Polling? || s.actor.Idling?) && (otherwise.LoopHead? || otherwise.CheckingDue?)
    ensures Conserved(Take(s, otherwise)) && OnlyDroppedAtShutdown(Take(s, otherwise))
  {
  }

  /** One message out of the channel, and one resolution if it was a request. */
  lemma DrainShape(s: State)
    requires s.channel.queue != [] && s.actor.Draining?
    ensures var t, m := Drain(s), s.channel.queue[0];
            && t.actor == s.actor && t.flags == s.flags && t.channel.submitted == s.channel.submitted
            && t.channel.queue == s.channel.queue[1..]
            && t.channel.resolved == s.channel.resolved
                                     + if m.Request? then [Resolution(m.envelope, Answered(Operational))] else []
  {
  }

  lemma DrainConserves(s: State)
    requires Conserved(s) && OnlyDroppedAtShutdown(s) && s.actor.Draining?
    ensures Conserved(Drain(s)) && OnlyDroppedAtShutdown(Drain(s))
  {
    if s.channel.queue == [] {
      NothingToDrain(s);
    } else {
      hide Drain;
      var m := s.channel.queue[0];
      DrainShape(s);
      EnvelopesAppend(s.channel.resolved, if m.Request? then [Resolution(m.envelope, Answered(Operational))] else []);
    }
  }

  lemma DropConserves(s: State)
    requires Conserved(s) && OnlyDroppedAtShutdown(s) && Flagged(s) && s.actor.DroppingReceiver?
    ensures Conserved(DropReceiver(s)) && OnlyDroppedAtShutdown(DropReceiver(s))
  {
    DiscardedEnvelopes(s.channel.queue);
    EnvelopesAppend(s.channel.resolved, Discarded(s.channel.queue));
  }

  lemma ActorConserves(s: State, c: ActorChoice)
    requires Conserved(s) && OnlyDroppedAtShutdown(s) && Flagged(s) && ActorEnabled(s, c)
    ensures Conserved(ApplyActor(s, c)) && OnlyDroppedAtShutdown(ApplyActor(s, c))
  {
    hide Take;
    hide Drain;
    hide DropReceiver;
    hide Pending;
    match s.actor
    case Polling => ReceiveConserves(s, CheckingDue);
    case Idling => ReceiveConserves(s, LoopHead);
    case Handling(_, _) =>
      EnvelopesAppend(s.channel.resolved, [ApplyActor(s, c).channel.resolved[|s.channel.resolved|]]);
    case Draining => DrainConserves(s);
    case DroppingReceiver => DropConserves(s);
    case _ =>
  }

  /** Every submitted envelope is in exactly one place, and they are resolved in submission order. */
  lemma {:induction false} EnvelopesResolvedOnceInOrder(run: seq<State>, actions: seq<Action>, k: nat)
    requires Execution(run, actions) && k < |run|
    ensures Conserved(run[k])
    ensures OnlyDroppedAtShutdown(run[k])
  {
    if k > 0 {
      EnvelopesResolvedOnceInOrder(run, actions, k - 1);
      ExecutionKeeps(run, actions, k - 1);
      match actions[k - 1]
      case MainStep(c) => MainConserves(run[k - 1], c);
      case ClientStep(i, c) => ClientConserves(run[k - 1], i, c);
      case ActorStep(c) => ActorConserves(run[k - 1], c);
    }
  }

  /** A handler blocked in `recv` has its envelope queued or in the actor's hand, so none is left
      behind once the actor has returned. */
  lemma NobodyLeftWaiting(s: State, i: nat)
    requires Reachable(s) && i < |s.clients| && Unanswered(s.clients[i])
    ensures !s.actor.Returned?
    ensures HasRequest(s.channel.queue, i) != (s.actor.Handling? && s.actor.client == i)
  {
    ReachableKeeps(s);
    forall k | 0 <= k < |s.channel.queue| && s.channel.queue[k].Request? && s.channel.queue[k].client == i
      ensures s.clients[i].queued
    {
      assert Addressed(s.clients, s.channel.queue[k]);
    }
    if s.clients[i].queued {
      assert Sent(s.channel.queue, i);
      var k :| 0 <= k < |s.channel.queue| && From(s.channel.queue[k], i);
      assert Addressed(s.clients, s.channel.queue[k]);
      assert s.channel.queue[k].Request?;
    }
  }

  // ---------------------------------------------------------------- a stop reply means quiescence

  /** The actor has left its loop for good, and everything it owned is released. */
  predicate Quiescent(s: State) {
    ActorDone(s.actor) && s.res.recordsEmpty && !s.res.terminalOpen && !s.res.listening && s.res.removalAttempted
  }

  predicate Replied(s: State) {
    s.res.stopReplies > 0 || exists c :: c in s.clients && c.pc.WritingStopReply?
  }

  lemma QuiescenceLasts(s: State, a: Action)
    requires Quiescent(s) && Enabled(s, a)
    ensures Quiescent(Apply(s, a)) && Apply(s, a).res.spawns == s.res.spawns
  {
  }

  /** From the moment a stop reply is about to be written, the broker is and stays quiescent: no
      child is ever spawned again. */
  lemma {:induction false} StopReplyMeansQuiescence(run: seq<State>, actions: seq<Action>, k: nat, later: nat)
    requires Execution(run, actions) && k <= later < |run| && Replied(run[k])
    ensures Quiescent(run[later]) && run[later].res.spawns == run[k].res.spawns
    decreases later
  {
    if later == k {
      ExecutionKeeps(run, actions, k);
      if c :| c in run[k].clients && c.pc.WritingStopReply? { assert Placed(run[k], c); }
    } else {
      StopReplyMeansQuiescence(run, actions, k, later - 1);
      QuiescenceLasts(run[later - 1], actions[later - 1]);
    }
  }

  /** Main returns normally only after a stop was requested and a reply to it attempted. */
  lemma NormalReturnFollowsReply(s: State)
    requires Reachable(s) && s.main.Finished?
    ensures s.flags.stopRequested && s.flags.stopAcknowledged && s.res.stopReplies > 0 && s.actor.Returned?
  {
    ReachableKeeps(s);
  }

  // ---------------------------------------------------------------- shutdown always finishes

  /** The longest a handler can still run, counting the message it may still send. */
  function ClientRank(pc: ClientPc): nat {
    match pc
    case Gone => 0
    case Leaving => 1
    case Acknowledging => 2
    case WritingStopReply => 3
    case AwaitingRemoval => 4
    case AwaitingComplete => 5
    case SendingStop => 7
    case StoringShutdown => 8
    case StoringStop => 9
    case Replying(Monitored, _) => 2
    case AwaitingAnswer(Monitored) => 3
    case Submitting(Monitored) => 5
    case ReceivingWarned => 6
    case Replying(First, _) => 7
    case AwaitingAnswer(First) => 8
    case Submitting(First) => 10
    case Receiving => 11
    case Negotiating => 12
  }

  const MAX_CLIENT_RANK: nat := 12

  function MainRank(pc: MainPc): nat {
    match pc
    case Exited => 0
    case Failing => 1
    case FailSending => 3
    case FailStoring => 4
    case Finished => 0
    case Joining => 1
    case AwaitingAck => 2
    case LoadingStop => 3
    case MainAwaitingComplete => 4
    case SettingRemoved => 5
    case RemovingSocket => 6
    case ClosingListener => 7
    case AcceptHead => 8
    case Rejecting => 9
    case Spawning => 9 + MAX_CLIENT_RANK
    case Counting => 10 + MAX_CLIENT_RANK
    case Accepting => 11 + MAX_CLIENT_RANK
  }

  function ActorRank(pc: ActorPc): nat {
    match pc
    case Returned => 0
    case DroppingReceiver => 1
    case SettingComplete => 2
    case ClosingTerminal => 3
    case ClearingRecords => 4
    case Draining => 5
    case ActorStoringShutdown => 6
    case LoopHead => 7
    case Handling(_, _) => 8
    case Maintaining => 8
    case Idling => 9
    case CheckingDue => 10
    case Polling => 11
    case Expiring => 12
  }

  function TotalRank(cs: seq<Client>): nat {
    if cs == [] then 0 else TotalRank(cs[..|cs| - 1]) + ClientRank(cs[|cs| - 1].pc)
  }

  function Rank(s: State): nat {
    MainRank(s.main) + ActorRank(s.actor) + |s.channel.queue| + TotalRank(s.clients)
  }

  const LONGEST_SHUTDOWN: nat := 867

  lemma {:induction false} RankUpdate(cs: seq<Client>, i: nat, c: Client)
    requires i < |cs|
    ensures TotalRank(cs[i := c]) == TotalRank(cs) - ClientRank(cs[i].pc) + ClientRank(c.pc)
  {
    var last := |cs| - 1;
    if i == last {
      assert cs[i := c][..last] == cs[..last];
    } else {
      RankUpdate(cs[..last], i, c);
      assert cs[i := c][..last] == cs[..last][i := c];
    }
  }

  lemma RankAppend(cs: seq<Client>, c: Client)
    ensures TotalRank(cs + [c]) == TotalRank(cs) + ClientRank(c.pc)
  {
    assert (cs + [c])[..|cs|] == cs;
  }

  lemma {:induction false} RankSame(cs: seq<Client>, ds: seq<Client>)
    requires |cs| == |ds| && forall i :: 0 <= i < |cs| ==> cs[i].pc == ds[i].pc
    ensures TotalRank(cs) == TotalRank(ds)
  {
    if cs != [] { RankSame(cs[..|cs| - 1], ds[..|ds| - 1]); }
  }

  lemma {:induction false} RankOfLive(cs: seq<Client>)
    ensures TotalRank(cs) <= MAX_CLIENT_RANK * Total(cs, Live)
  {
    if cs != [] { RankOfLive(cs[..|cs| - 1]); }
  }

  /** Main pays for the handler it starts and for the message it sends. */
  lemma MainRankDrops(s: State, c: MainChoice)
    requires s.flags.shutdown && MainEnabled(s, c)
    ensures var main := ApplyMain(s, c).main;
            MainRank(main) + (if s.main.FailSending? then 1 else 0)
            + (if s.main.Spawning? && main.AcceptHead? then MAX_CLIENT_RANK else 0) < MainRank(s.main)
  {
  }

  lemma MainStarts(s: State, c: MainChoice)
    requires MainEnabled(s, c)
    ensures var t := ApplyMain(s, c);
            && (t.clients != s.clients ==> s.main.Spawning? && t.main.AcceptHead?)
            && (s.flags.shutdown ==> t.flags.shutdown)
  {
  }

  lemma MainDescends(s: State, c: MainChoice)
    requires s.flags.shutdown && MainEnabled(s, c)
    ensures ApplyMain(s, c).flags.shutdown && Rank(ApplyMain(s, c)) < Rank(s)
  {
    hide ApplyMain;
    hide MainRank;
    hide TotalRank;
    MainShape(s, c);
    MainStarts(s, c);
    MainRankDrops(s, c);
    RankAppend(s.clients, Client(Negotiating, Empty, false));
  }

  lemma ClientRankDrops(s: State, i: nat, c: ClientChoice)
    requires ClientEnabled(s, i, c)
    ensures var t := ApplyClient(s, i, c);
            ClientRank(t.clients[i].pc) + |t.channel.queue| < ClientRank(s.clients[i].pc) + |s.channel.queue|
  {
  }

  lemma ClientDescends(s: State, i: nat, c: ClientChoice)
    requires ClientEnabled(s, i, c)
    ensures (s.flags.shutdown ==> ApplyClient(s, i, c).flags.shutdown) && Rank(ApplyClient(s, i, c)) < Rank(s)
  {
    hide ApplyClient;
    hide ClientRank;
    hide TotalRank;
    ClientShape(s, i, c);
    ClientFlags(s, i, c);
    ClientRankDrops(s, i, c);
    RankUpdate(s.clients, i, ApplyClient(s, i, c).clients[i]);
  }

  predicate NobodyMoves(s: State, t: State) {
    && t.main == s.main && t.flags == s.flags && |t.clients| == |s.clients|
    && forall i :: 0 <= i < |s.clients| ==> t.clients[i].pc == s.clients[i].pc
  }

  lemma TakeMovesNobody(s: State, otherwise: ActorPc)
    ensures NobodyMoves(s, Take(s, otherwise))
  {
  }

  lemma DrainMovesNobody(s: State)
    ensures NobodyMoves(s, Drain(s))
  {
  }

  /** The executor moves no handler. */
  lemma ActorShape(s: State, c: ActorChoice)
    requires ActorEnabled(s, c)
    ensures var t := ApplyActor(s, c);
            && t.main == s.main && |t.clients| == |s.clients| && (s.flags.shutdown ==> t.flags.shutdown)
            && forall i :: 0 <= i < |s.clients| ==> t.clients[i].pc == s.clients[i].pc
  {
    hide Take;
    hide Drain;
    hide Discarded;
    hide HasRequest;
    match s.actor
    case Polling => TakeMovesNobody(s, CheckingDue);
    case Idling => TakeMovesNobody(s, LoopHead);
    case Draining => DrainMovesNobody(s);
    case _ =>
  }

  lemma TakeRankDrops(s: State, otherwise: ActorPc)
    requires ActorRank(otherwise) < ActorRank(s.actor) && ActorRank(s.actor) >= 9
    ensures var t := Take(s, otherwise);
            ActorRank(t.actor) + |t.channel.queue| < ActorRank(s.actor) + |s.channel.queue|
  {
  }

  lemma DrainRankDrops(s: State)
    requires s.actor.Draining?
    ensures ActorRank(Drain(s).actor) + |Drain(s).channel.queue| < ActorRank(s.actor) + |s.channel.queue|
  {
  }

  lemma ActorRankDrops(s: State, c: ActorChoice)
    requires s.flags.shutdown && ActorEnabled(s, c)
    ensures var t := ApplyActor(s, c);
            ActorRank(t.actor) + |t.channel.queue| < ActorRank(s.actor) + |s.channel.queue|
  {
    hide Take;
    hide Drain;
    hide Discarded;
    hide HasRequest;
    match s.actor
    case Polling => TakeRankDrops(s, CheckingDue);
    case Idling => TakeRankDrops(s, LoopHead);
    case Draining => DrainRankDrops(s);
    case _ =>
  }

  lemma ActorDescends(s: State, c: ActorChoice)
    requires s.flags.shutdown && ActorEnabled(s, c)
    ensures ApplyActor(s, c).flags.shutdown && Rank(ApplyActor(s, c)) < Rank(s)
  {
    hide ApplyActor;
    hide ActorRank;
    hide TotalRank;
    ActorShape(s, c);
    ActorRankDrops(s, c);
    RankSame(s.clients, ApplyActor(s, c).clients);
  }

  /** Every step of every thread brings a broker that is shutting down nearer its end. */
  lemma StepDescends(s: State, a: Action)
    requires s.flags.shutdown && Enabled(s, a)
    ensures Apply(s, a).flags.shutdown && Rank(Apply(s, a)) < Rank(s)
  {
    hide Rank;
    hide ApplyMain;
    hide ApplyClient;
    hide ApplyActor;
    match a
    case MainStep(c) => MainDescends(s, c);
    case ClientStep(i, c) => ClientDescends(s, i, c);
    case ActorStep(c) => ActorDescends(s, c);
  }

  /** Steps that wait for no peer: not a new connection, and no handler's socket call except the
      eight-byte stop reply, which is assumed to return. */
  predicate Unaided(s: State, a: Action) {
    && Enabled(s, a)
    && match a
       case MainStep(c) => !c.Connection?
       case ClientStep(i, c) => c.Continue? && !s.clients[i].pc.Replying?
       case ActorStep(_) => true
  }

  lemma ActorCanStep(s: State) returns (a: Action)
    requires !s.main.Finished? && !s.main.Exited? && !s.actor.Returned?
    ensures Unaided(s, a)
  {
    a := ActorStep(match s.actor
                   case Handling(_, _) => Reply(Completed, 0)
                   case CheckingDue => NotDue
                   case Maintaining => Checked(0, true)
                   case _ => Go);
  }

  /** No wait is stuck: until main has returned, some thread can step without help from a peer. */
  lemma SomeThreadCanStep(s: State) returns (a: Action)
    requires Inv(s) && s.flags.shutdown && !s.main.Finished? && !s.main.Exited?
    ensures Unaided(s, a)
  {
    match s.main {
      case Accepting => a := MainStep(NoConnection);
      case MainAwaitingComplete =>
        if s.flags.complete { a := MainStep(Proceed); } else { a := ActorCanStep(s); }
      case AwaitingAck =>
        if s.flags.stopAcknowledged {
          a := MainStep(Proceed);
        } else {
          assert s.flags.stopRequested;
          var i :| 0 <= i < |s.clients| && Stopping(s.clients[i].pc);
          if s.clients[i].pc.SendingStop? { RoomForEverySender(s, i); }
          a := ClientStep(i, Continue);
        }
      case Joining =>
        if s.actor.Returned? { a := MainStep(Proceed); } else { a := ActorCanStep(s); }
      case FailSending =>
        if Room(s) { a := MainStep(Proceed); } else { a := ActorCanStep(s); }
      case _ => a := MainStep(Proceed);
    }
  }

  lemma {:induction false} StepsAfterShutdown(run: seq<State>, actions: seq<Action>, k: nat, later: nat)
    requires Execution(run, actions) && k <= later < |run| && run[k].flags.shutdown
    ensures run[later].flags.shutdown && Rank(run[later]) + (later - k) <= Rank(run[k])
    decreases later
  {
    hide Rank;
    hide Enabled;
    hide Apply;
    if later > k {
      StepsAfterShutdown(run, actions, k, later - 1);
      StepDescends(run[later - 1], actions[later - 1]);
    }
  }

  lemma ShutdownIsShort(s: State)
    requires Inv(s)
    ensures Rank(s) <= LONGEST_SHUTDOWN
  {
    hide TotalRank;
    hide Total;
    RankOfLive(s.clients);
  }

  /** Once shutdown is set, every schedule ends within a fixed number of steps, and it can only end,
      or be left waiting on peers alone, with main having returned. */
  lemma ShutdownCompletes(run: seq<State>, actions: seq<Action>, k: nat)
    requires Execution(run, actions) && k < |run| && run[k].flags.shutdown
    ensures |run| - 1 - k <= LONGEST_SHUTDOWN
    ensures var end := run[|run| - 1];
            (forall a :: !Unaided(end, a)) ==> end.main.Finished? || end.main.Exited?
  {
    hide Inv;
    hide Rank;
    hide Apply;
    hide Enabled;
    var end := run[|run| - 1];
    StepsAfterShutdown(run, actions, k, |run| - 1);
    ExecutionKeeps(run, actions, k);
    ExecutionKeeps(run, actions, |run| - 1);
    ShutdownIsShort(run[k]);
    if !end.main.Finished? && !end.main.Exited? {
      var a := SomeThreadCanStep(end);
    }
  }

  // ---------------------------------------------------------------- the one way to overflow

  function Repeated(c: Client, n: nat): (cs: seq<Client>)
    ensures |cs| == n && forall i :: 0 <= i < n ==> cs[i] == c
  {
    seq(n, i => c)
  }

  /** `n` connections accepted with their requests read, the first `m` of them in the channel, and
      neither the actor nor the accept loop past its head. */
  function Backlog(n: nat, m: nat): State
    requires m <= n
  {
    INITIAL.(
      clients := Repeated(Client(AwaitingAnswer(Monitored), Empty, true), m)
                 + Repeated(Client(Submitting(Monitored), Empty, false), n - m),
      active := n,
      channel := Channel(seq(m, i requires 0 <= i < m => Request(i, i)), m, []))
  }

  /** Main accepts one more connection. */
  lemma AcceptanceReachable(s: State) returns (t: State)
    requires Reachable(s) && s.main.AcceptHead? && !s.flags.shutdown && s.active < MAX_CONNECTIONS
    ensures Reachable(t) && t == s.(active := s.active + 1, clients := s.clients + [Client(Negotiating, Empty, false)])
  {
    ReachableSteps(s, MainStep(Proceed));
    t := Apply(s, MainStep(Proceed));
    ReachableSteps(t, MainStep(Connection));
    t := Apply(t, MainStep(Connection));
    ReachableSteps(t, MainStep(Proceed));
    t := Apply(t, MainStep(Proceed));
    ReachableSteps(t, MainStep(Proceed));
    t := Apply(t, MainStep(Proceed));
  }

  lemma {:induction false} ConnectionsReachable(n: nat)
    requires n <= MAX_CONNECTIONS
    ensures Reachable(Backlog(n, 0))
  {
    if n == 0 {
      assert Execution([INITIAL], []);
      assert Backlog(0, 0) == INITIAL;
      assert [INITIAL][|[INITIAL]| - 1] == INITIAL;
    } else {
      ConnectionsReachable(n - 1);
      var s := AcceptanceReachable(Backlog(n - 1, 0));
      ReachableSteps(s, ClientStep(n - 1, ReadNormal));
      s := Apply(s, ClientStep(n - 1, ReadNormal));
      ReachableSteps(s, ClientStep(n - 1, ReadRequest));
      assert Apply(s, ClientStep(n - 1, ReadRequest)) == Backlog(n, 0);
    }
  }

  lemma {:induction false} BacklogReachable(n: nat, m: nat)
    requires m <= n <= MAX_CONNECTIONS
    ensures Reachable(Backlog(n, m))
  {
    if m == 0 {
      ConnectionsReachable(n);
    } else {
      BacklogReachable(n, m - 1);
      ReachableSteps(Backlog(n, m - 1), ClientStep(m - 1, Continue));
      assert Apply(Backlog(n, m - 1), ClientStep(m - 1, Continue)) == Backlog(n, m);
    }
  }

  /** `accept` failed, and main queued its own stop message behind `MAX_CONNECTIONS - 1` requests. */
  function Overfull(): State {
    var s := Backlog(MAX_CONNECTIONS, MAX_CONNECTIONS - 1);
    s.(main := Failing, flags := s.flags.(shutdown := true),
       channel := s.channel.(queue := s.channel.queue + [MainStop]))
  }

  lemma OverfullReachable()
    ensures Reachable(Overfull())
  {
    BacklogReachable(MAX_CONNECTIONS, MAX_CONNECTIONS - 1);
    var s := Backlog(MAX_CONNECTIONS, MAX_CONNECTIONS - 1);
    ReachableSteps(s, MainStep(Proceed));
    s := Apply(s, MainStep(Proceed));
    ReachableSteps(s, MainStep(AcceptError));
    s := Apply(s, MainStep(AcceptError));
    ReachableSteps(s, MainStep(Proceed));
    s := Apply(s, MainStep(Proceed));
    ReachableSteps(s, MainStep(Proceed));
    assert Apply(s, MainStep(Proceed)) == Overfull();
  }

  /** The condition of `QueueNeverOverflows` is needed, and `FullExactlyWhen` does happen: when `accept`
      fails with every connection in use, main's own stop message takes the last place and a client is
      told the queue is full. */
  lemma AcceptErrorCanOverflow() returns (s: State)
    ensures Reachable(s) && s.main.Failing? && !NobodyToldFull(s)
  {
    OverfullReachable();
    var last := ClientStep(MAX_CONNECTIONS - 1, Continue);
    ReachableSteps(Overfull(), last);
    s := Apply(Overfull(), last);
    assert ToldFull(s.clients[MAX_CONNECTIONS - 1]);
  }
}
