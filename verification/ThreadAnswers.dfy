/** What handlers tell their clients: the answer their own envelope was resolved with, over every schedule. */
module ThreadAnswers {
  import opened Threads
  import opened ThreadInvariants
  import opened ThreadTheorems

  // ---------------------------------------------------------------- what a handler did last

  datatype Submission = Never | Numbered(envelope: nat) | Refused

  /** The request a handler read last, and the envelope it submitted last. */
  datatype Story = Story(read: ClientChoice, sent: Submission)

  /** What one step adds, read off the states before and after it: an envelope is numbered by the
      submissions before it, and a submission the channel did not take was refused. */
  ghost function Next(s: State, a: Action, t: State, stories: seq<Story>): (r: seq<Story>)
    requires |stories| == |s.clients| && Enabled(s, a)
  {
    match a
    case MainStep(_) => if |t.clients| > |s.clients| then stories + [Story(Continue, Never)] else stories
    case ClientStep(i, c) =>
      (match s.clients[i].pc
       case Receiving => stories[i := stories[i].(read := c)]
       case ReceivingWarned => stories[i := stories[i].(read := c)]
       case Submitting(_) =>
         var taken := t.channel.submitted > s.channel.submitted;
         stories[i := stories[i].(sent := if taken then Numbered(s.channel.submitted) else Refused)]
       case _ => stories)
    case ActorStep(_) => stories
  }

  lemma NextFits(s: State, a: Action, stories: seq<Story>)
    requires |stories| == |s.clients| && Enabled(s, a)
    ensures |Next(s, a, Apply(s, a), stories)| == |Apply(s, a).clients|
  {
    hide ApplyMain;
    hide ApplyClient;
    hide ApplyActor;
    match a
    case MainStep(c) => MainShape(s, c);
    case ClientStep(i, c) => ClientShape(s, i, c);
    case ActorStep(c) => ActorShape(s, c);
  }

  /** Each handler's story after `k` steps. */
  ghost function Stories(run: seq<State>, actions: seq<Action>, k: nat): (stories: seq<Story>)
    requires Execution(run, actions) && k < |run|
    ensures |stories| == |run[k].clients|
  {
    if k == 0 then []
    else
      NextFits(run[k - 1], actions[k - 1], Stories(run, actions, k - 1));
      Next(run[k - 1], actions[k - 1], run[k], Stories(run, actions, k - 1))
  }

  // ---------------------------------------------------------------- the invariant

  /** A handler that may be told `answer`: its last envelope was resolved so, or the channel was full. */
  predicate Due(s: State, y: Story, answer: Answer) {
    || (y.sent.Numbered? && Resolution(y.sent.envelope, Answered(answer)) in s.channel.resolved)
    || (y.sent.Refused? && answer == QueueFull)
  }

  predicate Dropped(s: State, y: Story) {
    && y.sent.Numbered?
    && exists r :: r in s.channel.resolved && r.envelope == y.sent.envelope && !r.fate.Answered?
  }

  predicate InPhase(pc: ClientPc, phase: Phase) {
    match pc
    case Submitting(p) => p == phase
    case AwaitingAnswer(p) => p == phase
    case Replying(p, _) => p == phase
    case _ => false
  }

  /** What a handler's state says about its story. */
  predicate Tells(s: State, c: Client, y: Story) {
    && (c.pc.Replying? ==> Due(s, y, c.pc.answer))
    && (c.pc.AwaitingAnswer? ==>
          match c.mailbox
          case Empty => y.sent.Numbered?
          case Holding(answer) => Due(s, y, answer)
          case SenderDropped => Dropped(s, y))
    && (c.pc.ReceivingWarned? ==> y.sent.Numbered? && Due(s, y, NeedWarning))
    && (InPhase(c.pc, First) || c.pc.ReceivingWarned? ==> y.read.ReadUnwarnedStart?)
    && (InPhase(c.pc, Monitored) ==> y.read.ReadRequest?)
  }

  /** Every request in the channel, and the one in the actor's hand, is what its sender submitted last. */
  predicate Carried(s: State, stories: seq<Story>) {
    && (forall k :: 0 <= k < |s.channel.queue| && s.channel.queue[k].Request? ==>
          var m := s.channel.queue[k]; m.client < |stories| && stories[m.client].sent == Numbered(m.envelope))
    && (s.actor.Handling? ==> s.actor.client < |stories| && stories[s.actor.client].sent == Numbered(s.actor.envelope))
  }

  predicate Told(s: State, stories: seq<Story>) {
    && |stories| == |s.clients| && Carried(s, stories)
    && forall i :: 0 <= i < |stories| ==> Tells(s, s.clients[i], stories[i])
  }

  /** Resolutions are never taken back. */
  lemma TellsStill(s: State, t: State, c: Client, y: Story)
    requires Tells(s, c, y) && s.channel.resolved <= t.channel.resolved
    ensures Tells(t, c, y)
  {
    assert forall r :: r in s.channel.resolved ==> r in t.channel.resolved;
  }

  // ---------------------------------------------------------------- main and handlers

  lemma MainTold(s: State, c: MainChoice, stories: seq<Story>)
    requires Told(s, stories) && MainEnabled(s, c)
    ensures var t := ApplyMain(s, c);
            Told(t, if |t.clients| > |s.clients| then stories + [Story(Continue, Never)] else stories)
  {
  }

  /** What a handler's step leaves of the channel's resolutions and of the actor. */
  lemma ClientResolvesNothing(s: State, i: nat, c: ClientChoice)
    requires ClientEnabled(s, i, c)
    ensures var t := ApplyClient(s, i, c);
            && t.channel.resolved == s.channel.resolved && t.actor == s.actor
            && (!s.clients[i].pc.Submitting? ==>
                  t.channel.submitted == s.channel.submitted
                  && (t.channel.queue == s.channel.queue || t.channel.queue == s.channel.queue + [Stop(i)]))
  {
  }

  /** The moving handler itself, when it does not submit. */
  lemma MoverTells(s: State, i: nat, c: ClientChoice, y: Story)
    requires ClientEnabled(s, i, c) && Tells(s, s.clients[i], y) && !s.clients[i].pc.Submitting?
    ensures var t, pc := ApplyClient(s, i, c), s.clients[i].pc;
            Tells(t, t.clients[i], if pc.Receiving? || pc.ReceivingWarned? then y.(read := c) else y)
  {
  }

  /** The moving handler when it submits: it is leaving, refused, or its fresh envelope ends the channel. */
  lemma SubmitterTells(s: State, i: nat, phase: Phase, y: Story)
    requires i < |s.clients| && s.clients[i].pc == Submitting(phase) && Tells(s, s.clients[i], y)
    ensures var t := Submit(s, i, phase);
            var taken := t.channel.submitted > s.channel.submitted;
            && Tells(t, t.clients[i], y.(sent := if taken then Numbered(s.channel.submitted) else Refused))
            && t.channel.resolved == s.channel.resolved && t.actor == s.actor
            && t.channel.queue == s.channel.queue + if taken then [Request(i, s.channel.submitted)] else []
  {
  }

  /** A handler about to submit has nothing in the channel and is not in the actor's hand. */
  lemma SubmitterIsFree(s: State, i: nat)
    requires Inv(s) && i < |s.clients| && s.clients[i].pc.Submitting?
    ensures forall k :: 0 <= k < |s.channel.queue| && s.channel.queue[k].Request? ==> s.channel.queue[k].client != i
    ensures s.actor.Handling? ==> s.actor.client != i
  {
    forall k | 0 <= k < |s.channel.queue| && s.channel.queue[k].Request? ensures s.channel.queue[k].client != i {
      assert Addressed(s.clients, s.channel.queue[k]);
    }
  }

  lemma SubmitterTold(s: State, i: nat, phase: Phase, stories: seq<Story>)
    requires Inv(s) && Told(s, stories) && i < |s.clients| && s.clients[i].pc == Submitting(phase)
    requires var t := Submit(s, i, phase); t.clients == s.clients[i := t.clients[i]]
    ensures var t := Submit(s, i, phase);
            var taken := t.channel.submitted > s.channel.submitted;
            Told(t, stories[i := stories[i].(sent := if taken then Numbered(s.channel.submitted) else Refused)])
  {
    SubmitterIsFree(s, i);
    hide Tells;
    hide Inv;
    var t := Submit(s, i, phase);
    SubmitterTells(s, i, phase, stories[i]);
    hide Submit;
    forall j | 0 <= j < |stories| && j != i ensures Tells(t, t.clients[j], stories[j]) {
      TellsStill(s, t, s.clients[j], stories[j]);
    }
  }

  lemma MoverTold(s: State, i: nat, c: ClientChoice, stories: seq<Story>)
    requires Told(s, stories) && ClientEnabled(s, i, c) && !s.clients[i].pc.Submitting?
    ensures var pc, y := s.clients[i].pc, stories[i];
            Told(ApplyClient(s, i, c), stories[i := if pc.Receiving? || pc.ReceivingWarned? then y.(read := c) else y])
  {
    hide Tells;
    var t := ApplyClient(s, i, c);
    ClientShape(s, i, c);
    ClientResolvesNothing(s, i, c);
    MoverTells(s, i, c, stories[i]);
    hide ApplyClient;
    forall j | 0 <= j < |stories| && j != i ensures Tells(t, t.clients[j], stories[j]) {
      TellsStill(s, t, s.clients[j], stories[j]);
    }
  }

  lemma ClientTold(s: State, i: nat, c: ClientChoice, stories: seq<Story>)
    requires Inv(s) && Told(s, stories) && Enabled(s, ClientStep(i, c))
    ensures Told(ApplyClient(s, i, c), Next(s, ClientStep(i, c), ApplyClient(s, i, c), stories))
  {
    hide Told;
    hide Inv;
    hide Submit;
    ClientShape(s, i, c);
    assert |stories| == |s.clients| by { ToldOfEach(s, stories); }
    if s.clients[i].pc.Submitting? {
      SubmitterTold(s, i, s.clients[i].pc.phase, stories);
    } else {
      MoverTold(s, i, c, stories);
      assert stories[i := stories[i]] == stories;
    }
  }

  lemma ToldOfEach(s: State, stories: seq<Story>)
    requires Told(s, stories)
    ensures |stories| == |s.clients|
  {
  }

  // ---------------------------------------------------------------- the actor

  lemma TakeTold(s: State, otherwise: ActorPc, stories: seq<Story>)
    requires Told(s, stories) && !otherwise.Handling? && !s.actor.Handling?
    ensures Told(Take(s, otherwise), stories)
  {
    hide Tells;
    if s.channel.queue == [] {
      OnlyActorMoves(s, Take(s, otherwise), stories);
    } else {
      DequeueTold(s, stories);
      var u := Dequeue(s);
      forall i | 0 <= i < |stories| ensures Tells(Take(s, otherwise), u.clients[i], stories[i]) {
        TellsStill(u, Take(s, otherwise), u.clients[i], stories[i]);
      }
    }
  }

  /** Resolving the last envelope of handler `i` with `f`. */
  lemma ResolveTold(s: State, i: nat, f: Fate, stories: seq<Story>)
    requires Told(s, stories) && i < |stories| && stories[i].sent.Numbered?
    ensures Told(Resolve(s, i, stories[i].sent.envelope, f), stories)
  {
    hide InPhase;
    var t := Resolve(s, i, stories[i].sent.envelope, f);
    var r := Resolution(stories[i].sent.envelope, f);
    assert r in t.channel.resolved;
    forall j | 0 <= j < |stories| ensures Tells(t, t.clients[j], stories[j]) {
      TellsStill(s, t, s.clients[j], stories[j]);
    }
  }

  lemma {:induction false} DiscardedHas(queue: seq<Message>, k: nat)
    requires k < |queue| && queue[k].Request?
    ensures Resolution(queue[k].envelope, DroppedWithReceiver) in Discarded(queue)
  {
    if k > 0 { DiscardedHas(queue[1..], k - 1); }
  }

  lemma DropTold(s: State, stories: seq<Story>)
    requires Told(s, stories) && s.actor.DroppingReceiver?
    requires forall i :: 0 <= i < |s.clients| && HasRequest(s.channel.queue, i) ==> Unanswered(s.clients[i])
    ensures Told(DropReceiver(s), stories)
  {
    hide InPhase;
    hide Discarded;
    var t := DropReceiver(s);
    forall j | 0 <= j < |stories| ensures Tells(t, t.clients[j], stories[j]) {
      TellsStill(s, t, s.clients[j], stories[j]);
      if HasRequest(s.channel.queue, j) {
        var k :| 0 <= k < |s.channel.queue| && s.channel.queue[k].Request? && s.channel.queue[k].client == j;
        DiscardedHas(s.channel.queue, k);
        assert Resolution(stories[j].sent.envelope, DroppedWithReceiver) in t.channel.resolved;
      }
    }
  }

  lemma DrainTold(s: State, stories: seq<Story>)
    requires Told(s, stories) && s.actor.Draining? && AllAddressed(s.clients, s.channel.queue)
    ensures Told(Drain(s), stories)
  {
    hide Tells;
    if s.channel.queue != [] {
      var m, u := s.channel.queue[0], Dequeue(s);
      assert Addressed(s.clients, m);
      DequeueTold(s, stories);
      if m.Request? {
        assert stories[m.client].sent == Numbered(m.envelope);
        ResolveTold(u, m.client, Answered(Operational), stories);
      }
    } else {
      assert forall i :: 0 <= i < |stories| ==> Tells(s, s.clients[i], stories[i]);
      NothingDrained(s, stories);
    }
  }

  lemma NothingDrained(s: State, stories: seq<Story>)
    requires Told(s, stories) && s.actor.Draining? && s.channel.queue == []
    ensures Told(Drain(s), stories)
  {
  }

  lemma DequeueTold(s: State, stories: seq<Story>)
    requires Told(s, stories) && s.channel.queue != []
    ensures Told(Dequeue(s), stories)
  {
  }

  lemma ReplyTold(s: State, c: ActorChoice, stories: seq<Story>)
    requires Told(s, stories) && ActorEnabled(s, c) && s.actor.Handling?
    ensures Told(ApplyActor(s, c), stories)
  {
    hide Tells;
    hide Resolve;
    var fate := if c.Reply? then Answered(c.answer) else DroppedByActor;
    ResolveTold(s, s.actor.client, fate, stories);
    var u := Resolve(s, s.actor.client, s.actor.envelope, fate);
    var t := ApplyActor(s, c);
    OnlyActorMoves(u, t, stories);
  }

  /** Nothing said about a handler depends on the actor or on what it owns. */
  lemma OnlyActorMoves(s: State, t: State, stories: seq<Story>)
    requires Told(s, stories) && t.clients == s.clients && t.channel == s.channel && !t.actor.Handling?
    ensures Told(t, stories)
  {
    forall i | 0 <= i < |stories| ensures Tells(t, t.clients[i], stories[i]) {
      TellsStill(s, t, s.clients[i], stories[i]);
    }
  }

  lemma QueuedAreUnanswered(s: State)
    requires AllAddressed(s.clients, s.channel.queue)
    ensures forall i :: 0 <= i < |s.clients| && HasRequest(s.channel.queue, i) ==> Unanswered(s.clients[i])
  {
    forall i | 0 <= i < |s.clients| && HasRequest(s.channel.queue, i) ensures Unanswered(s.clients[i]) {
      var k :| 0 <= k < |s.channel.queue| && s.channel.queue[k].Request? && s.channel.queue[k].client == i;
      assert Addressed(s.clients, s.channel.queue[k]);
    }
  }

  lemma ActorTold(s: State, c: ActorChoice, stories: seq<Story>)
    requires Inv(s) && Told(s, stories) && ActorEnabled(s, c)
    ensures Told(ApplyActor(s, c), stories)
  {
    hide Take;
    hide Drain;
    hide DropReceiver;
    hide Resolve;
    hide Told;
    match s.actor
    case Polling => TakeTold(s, CheckingDue, stories);
    case Idling => TakeTold(s, LoopHead, stories);
    case Handling(_, _) => ReplyTold(s, c, stories);
    case Draining => DrainTold(s, stories);
    case DroppingReceiver =>
      QueuedAreUnanswered(s);
      DropTold(s, stories);
    case Returned => assert false;
    case _ => OnlyActorMoves(s, ApplyActor(s, c), stories);
  }

  // ---------------------------------------------------------------- every schedule

  lemma StepTold(s: State, a: Action, stories: seq<Story>)
    requires Inv(s) && Enabled(s, a) && Told(s, stories)
    ensures Told(Apply(s, a), Next(s, a, Apply(s, a), stories))
  {
    hide ApplyMain;
    hide ApplyClient;
    hide ApplyActor;
    match a
    case MainStep(c) => MainTold(s, c, stories);
    case ClientStep(i, c) => ClientTold(s, i, c, stories);
    case ActorStep(c) => ActorTold(s, c, stories);
  }

  lemma {:induction false} StoriesAreTold(run: seq<State>, actions: seq<Action>, k: nat)
    requires Execution(run, actions) && k < |run|
    ensures Told(run[k], Stories(run, actions, k))
  {
    hide Told;
    hide Inv;
    if k == 0 {
      NobodyTold();
    } else {
      StoriesAreTold(run, actions, k - 1);
      ExecutionKeeps(run, actions, k - 1);
      StepTold(run[k - 1], actions[k - 1], Stories(run, actions, k - 1));
    }
  }

  lemma NobodyTold()
    ensures Told(INITIAL, [])
  {
  }

  /** In every state of every schedule, a handler that replies passes on what its own envelope was resolved
      with, or that the channel refused it; it reads a second, warned start only when its first, unwarned one
      was answered that a warning is needed. */
  lemma HandlersPassOnAnswers(run: seq<State>, actions: seq<Action>, k: nat, i: nat)
    requires Execution(run, actions) && k < |run| && i < |run[k].clients|
    ensures var pc, story := run[k].clients[i].pc, Stories(run, actions, k)[i];
            && (pc.Replying? ==>
                  match story.sent
                  case Never => false
                  case Numbered(envelope) => Resolution(envelope, Answered(pc.answer)) in run[k].channel.resolved
                  case Refused => pc.answer == QueueFull)
            && (pc.ReceivingWarned? ==>
                  && story.read == ReadUnwarnedStart && story.sent.Numbered?
                  && Resolution(story.sent.envelope, Answered(NeedWarning)) in run[k].channel.resolved)
  {
    StoriesAreTold(run, actions, k);
    assert Tells(run[k], run[k].clients[i], Stories(run, actions, k)[i]);
  }

  // ---------------------------------------------------------------- where answers come from

  /** Step `a` of the actor resolves an envelope as `r`: with its own answer to the request in hand or, of
      requests it no longer handles, as failed or not at all. */
  predicate Resolves(s: State, a: Action, r: Resolution) {
    a.ActorStep? &&
    match s.actor
    case Handling(_, envelope) =>
      && r.envelope == envelope
      && r.fate == (if a.actor.Reply? then Answered(a.actor.answer) else DroppedByActor)
    case Draining =>
      s.channel.queue != [] && s.channel.queue[0].Request?
      && r == Resolution(s.channel.queue[0].envelope, Answered(Operational))
    case DroppingReceiver => r.fate == DroppedWithReceiver && r.envelope in Pending(s.channel.queue)
    case _ => false
  }

  lemma {:induction false} DiscardedAreDropped(queue: seq<Message>, r: Resolution)
    requires r in Discarded(queue)
    ensures r.fate == DroppedWithReceiver && r.envelope in Pending(queue)
  {
    if !(queue[0].Request? && r == Resolution(queue[0].envelope, DroppedWithReceiver)) {
      DiscardedAreDropped(queue[1..], r);
    }
  }

  lemma StepResolves(s: State, a: Action, r: Resolution)
    requires Enabled(s, a) && r in Apply(s, a).channel.resolved && r !in s.channel.resolved
    ensures Resolves(s, a, r)
  {
    hide ApplyMain;
    hide ApplyClient;
    hide ApplyActor;
    match a
    case MainStep(c) => MainResolvesNothing(s, c);
    case ClientStep(i, c) => ClientResolvesNothing(s, i, c);
    case ActorStep(c) => ActorResolves(s, c, r);
  }

  lemma MainResolvesNothing(s: State, c: MainChoice)
    requires MainEnabled(s, c)
    ensures ApplyMain(s, c).channel.resolved == s.channel.resolved
  {
  }

  lemma ActorResolves(s: State, c: ActorChoice, r: Resolution)
    requires ActorEnabled(s, c) && r in ApplyActor(s, c).channel.resolved && r !in s.channel.resolved
    ensures Resolves(s, ActorStep(c), r)
  {
    hide Pending;
    hide Discarded;
    hide HasRequest;
    if s.actor.DroppingReceiver? { DiscardedAreDropped(s.channel.queue, r); }
  }

  /** Every resolution was made by one step of the actor, with the answer that step chose. */
  lemma {:induction false} AnswersAreChosen(run: seq<State>, actions: seq<Action>, k: nat, r: Resolution)
    returns (j: nat)
    requires Execution(run, actions) && k < |run| && r in run[k].channel.resolved
    ensures j < k && Resolves(run[j], actions[j], r)
  {
    hide Apply;
    hide Enabled;
    hide Resolves;
    if r in run[k - 1].channel.resolved {
      j := AnswersAreChosen(run, actions, k - 1, r);
    } else {
      j := k - 1;
      StepResolves(run[j], actions[j], r);
    }
  }

  // ---------------------------------------------------------------- a warned start

  /** The first handler has asked without a warning and waits for its answer. */
  function Unwarned(): State {
    INITIAL.(clients := [Client(AwaitingAnswer(First), Empty, true)], active := 1,
             channel := Channel([Request(0, 0)], 1, []))
  }

  lemma UnwarnedReachable()
    ensures Reachable(Unwarned())
  {
    ConnectionsReachable(0);
    var s := AcceptanceReachable(Backlog(0, 0));
    ReachableSteps(s, ClientStep(0, ReadNormal));
    s := Apply(s, ClientStep(0, ReadNormal));
    ReachableSteps(s, ClientStep(0, ReadUnwarnedStart));
    s := Apply(s, ClientStep(0, ReadUnwarnedStart));
    ReachableSteps(s, ClientStep(0, Continue));
    assert Apply(s, ClientStep(0, Continue)) == Unwarned();
  }

  /** The actor has answered it that a warning is needed. */
  function Warned(): State {
    Unwarned().(actor := LoopHead,
                clients := [Client(AwaitingAnswer(First), Holding(NeedWarning), false)],
                channel := Channel([], 1, [Resolution(0, Answered(NeedWarning))]),
                res := INITIAL.res.(recordsEmpty := false))
  }

  lemma AnsweredReachable()
    ensures Reachable(Warned())
  {
    UnwarnedReachable();
    var s := Unwarned();
    ReachableSteps(s, ActorStep(Go));
    s := Apply(s, ActorStep(Go));
    ReachableSteps(s, ActorStep(Go));
    s := Apply(s, ActorStep(Go));
    ReachableSteps(s, ActorStep(Go));
    s := Apply(s, ActorStep(Go));
    assert s.actor == Handling(0, 0);
    ReachableSteps(s, ActorStep(Reply(NeedWarning, 0)));
    assert Apply(s, ActorStep(Reply(NeedWarning, 0))) == Warned();
  }

  /** The handler has passed that on and read the next request. */
  lemma WarnedReachable()
    ensures Reachable(Warned().(clients := [Client(Submitting(Monitored), Empty, false)]))
  {
    AnsweredReachable();
    var s := Warned();
    ReachableSteps(s, ClientStep(0, Continue));
    s := Apply(s, ClientStep(0, Continue));
    assert s == Warned().(clients := [Client(Replying(First, NeedWarning), Empty, false)]);
    ReachableSteps(s, ClientStep(0, Continue));
    s := Apply(s, ClientStep(0, Continue));
    assert s == Warned().(clients := [Client(ReceivingWarned, Empty, false)]);
    ReachableSteps(s, ClientStep(0, ReadRequest));
    s := Apply(s, ClientStep(0, ReadRequest));
  }

  /** An unwarned start can be answered that a warning is needed, and its handler then submits the warned one. */
  lemma WarnedStartIsSubmitted() returns (s: State)
    ensures Reachable(s) && |s.clients| == 1 && s.clients[0].pc == AwaitingAnswer(Monitored)
    ensures s.channel.resolved == [Resolution(0, Answered(NeedWarning))] && s.channel.queue == [Request(0, 1)]
  {
    WarnedReachable();
    s := Warned().(clients := [Client(Submitting(Monitored), Empty, false)]);
    ReachableSteps(s, ClientStep(0, Continue));
    s := Apply(s, ClientStep(0, Continue));
  }
}
