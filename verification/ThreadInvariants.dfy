/** What every interleaving of the broker's threads keeps. */
module ThreadInvariants {
  import opened Threads

  // ---------------------------------------------------------------- sums over the handlers

  datatype Measure = Live | Slot | Queued

  function Of(m: Measure, c: Client): nat {
    match m
    case Live => if !c.pc.Gone? then 1 else 0
    case Slot => if !c.pc.Gone? || c.queued then 1 else 0
    case Queued => if c.queued then 1 else 0
  }

  function Total(cs: seq<Client>, m: Measure): nat {
    if cs == [] then 0 else Total(cs[..|cs| - 1], m) + Of(m, cs[|cs| - 1])
  }

  lemma {:induction false} TotalUpdate(cs: seq<Client>, i: nat, c: Client, m: Measure)
    requires i < |cs|
    ensures Total(cs[i := c], m) == Total(cs, m) - Of(m, cs[i]) + Of(m, c)
  {
    var last := |cs| - 1;
    if i == last {
      assert cs[i := c][..last] == cs[..last];
    } else {
      TotalUpdate(cs[..last], i, c, m);
      assert cs[i := c][..last] == cs[..last][i := c];
    }
  }

  lemma TotalAppend(cs: seq<Client>, c: Client, m: Measure)
    ensures Total(cs + [c], m) == Total(cs, m) + Of(m, c)
  {
    assert (cs + [c])[..|cs|] == cs;
  }

  lemma {:induction false} TotalMonotone(cs: seq<Client>, ds: seq<Client>, m: Measure, n: Measure)
    requires |cs| == |ds|
    requires forall i :: 0 <= i < |cs| ==> Of(m, cs[i]) <= Of(n, ds[i])
    ensures Total(cs, m) <= Total(ds, n)
  {
    if cs != [] {
      TotalMonotone(cs[..|cs| - 1], ds[..|ds| - 1], m, n);
    }
  }

  /** A handler that strictly lowers one measure below another leaves room for itself. */
  lemma TotalGap(cs: seq<Client>, i: nat, m: Measure, n: Measure)
    requires i < |cs|
    requires forall k :: 0 <= k < |cs| ==> Of(m, cs[k]) <= Of(n, cs[k])
    requires Of(m, cs[i]) < Of(n, cs[i])
    ensures Total(cs, m) < Total(cs, n)
  {
    var low := Client(Gone, Empty, false);
    TotalUpdate(cs, i, low, m);
    TotalUpdate(cs, i, low, n);
    TotalMonotone(cs[i := low], cs[i := low], m, n);
  }

  // ---------------------------------------------------------------- the invariant

  predicate InAcceptLoop(m: MainPc) {
    m.AcceptHead? || m.Accepting? || m.Counting? || m.Rejecting? || m.Spawning?
  }

  predicate Failed(m: MainPc) { m.FailStoring? || m.FailSending? || m.Failing? || m.Exited? }

  predicate SocketGone(m: MainPc) {
    m.MainAwaitingComplete? || m.LoadingStop? || m.AwaitingAck? || m.Joining? || m.Finished?
  }

  predicate ActorDone(a: ActorPc) { a.DroppingReceiver? || a.Returned? }

  predicate PastLoop(a: ActorPc) {
    || a.ActorStoringShutdown? || a.Draining? || a.ClearingRecords? || a.ClosingTerminal? || a.SettingComplete?
    || ActorDone(a)
  }

  predicate SentStop(pc: ClientPc) {
    pc.AwaitingComplete? || pc.AwaitingRemoval? || pc.WritingStopReply? || pc.Acknowledging? || pc.Leaving? || pc.Gone?
  }

  predicate Stopping(pc: ClientPc) {
    pc.StoringShutdown? || pc.SendingStop? || pc.AwaitingComplete? || pc.AwaitingRemoval?
    || pc.WritingStopReply? || pc.Acknowledging?
  }

  /** Past the wait for the socket's removal. */
  predicate PastRemoval(c: Client) {
    c.pc.WritingStopReply? || c.pc.Acknowledging? || ((c.pc.Leaving? || c.pc.Gone?) && c.queued)
  }

  predicate Unanswered(c: Client) { c.pc.AwaitingAnswer? && c.mailbox.Empty? }

  /** A connection main has counted and not yet handed over or turned away. */
  function Unassigned(m: MainPc): nat { if m.Rejecting? || m.Spawning? then 1 else 0 }

  /** One live handler per counted connection, and never more than the cap. */
  predicate Counted(s: State) {
    && Total(s.clients, Live) <= s.active
    && (!s.main.Failing? && !s.main.Exited? ==>
          s.active == Total(s.clients, Live) + Unassigned(s.main))
    && Total(s.clients, Live) <= MAX_CONNECTIONS
    && (s.main.Spawning? ==> Total(s.clients, Live) < MAX_CONNECTIONS)
  }

  /** A handler holds its slot until it is gone and its message has left the channel. */
  predicate Slotted(s: State) {
    && Total(s.clients, Slot) <= MAX_CONNECTIONS
    && (InAcceptLoop(s.main) ==> Total(s.clients, Slot) == Total(s.clients, Live))
  }

  /** The channel holds at most one message per handler, and one from a failing main. */
  predicate Occupied(s: State) {
    && |s.channel.queue| == Total(s.clients, Queued) + (if MainStop in s.channel.queue then 1 else 0)
    && |s.channel.queue| <= MAX_CONNECTIONS
    && (MainStop in s.channel.queue ==> s.main.Failing? || s.main.Exited?)
    && (s.actor.Returned? ==> s.channel.queue == [])
  }

  /** What a handler's own state says about the rest. */
  predicate Placed(s: State, c: Client) {
    && (c.queued ==> Unanswered(c) || SentStop(c.pc))
    && (PastRemoval(c) ==> s.flags.socketRemoved)
    && (PastRemoval(c) || c.pc.AwaitingRemoval? ==> s.flags.complete)
    && (c.mailbox.SenderDropped? ==> s.flags.shutdown)
    && (Stopping(c.pc) ==> s.flags.stopRequested)
    && (Stopping(c.pc) && !c.pc.StoringShutdown? ==> s.flags.shutdown)
    && (c.pc.Acknowledging? ==> s.res.stopReplies > 0)
  }

  predicate AllPlaced(s: State) { forall c :: c in s.clients ==> Placed(s, c) }

  /** A request in the channel has its sender waiting; a stop was stored before it was sent. */
  predicate Addressed(cs: seq<Client>, m: Message) {
    match m
    case MainStop => true
    case Request(i, _) => i < |cs| && cs[i].queued && Unanswered(cs[i])
    case Stop(i) => i < |cs| && cs[i].queued && SentStop(cs[i].pc)
  }

  predicate AllAddressed(cs: seq<Client>, queue: seq<Message>) {
    forall k :: 0 <= k < |queue| ==> Addressed(cs, queue[k])
  }

  predicate SameSender(m: Message, n: Message) {
    (m.MainStop? && n.MainStop?) || (!m.MainStop? && !n.MainStop? && m.client == n.client)
  }

  predicate Distinct(queue: seq<Message>) {
    forall j, k :: 0 <= j < k < |queue| ==> !SameSender(queue[j], queue[k])
  }

  /** Exactly the envelope in the actor's hand is neither queued nor answered. */
  predicate Held(s: State) {
    && (s.actor.Handling? ==>
          s.actor.client < |s.clients| && Unanswered(s.clients[s.actor.client]) && !s.clients[s.actor.client].queued)
    && (forall i :: 0 <= i < |s.clients| && Unanswered(s.clients[i]) && !s.clients[i].queued ==>
          s.actor.Handling? && s.actor.client == i)
  }

  predicate From(m: Message, i: nat) { !m.MainStop? && m.client == i }

  ghost predicate Sent(queue: seq<Message>, i: nat) { exists k :: 0 <= k < |queue| && From(queue[k], i) }

  ghost predicate Backed(s: State) {
    forall i :: 0 <= i < |s.clients| && s.clients[i].queued ==> Sent(s.channel.queue, i)
  }

  predicate Flagged(s: State) {
    && (s.flags.complete <==> ActorDone(s.actor))
    && (s.flags.socketRemoved <==> SocketGone(s.main))
    && (s.main.RemovingSocket? || s.main.SettingRemoved? || s.flags.socketRemoved ==> !s.res.listening)
    && (s.main.SettingRemoved? || s.flags.socketRemoved ==> s.res.removalAttempted)
    && (PastLoop(s.actor) ==> s.flags.shutdown)
    && (s.actor.ClosingTerminal? || s.actor.SettingComplete? || s.flags.complete ==> s.res.recordsEmpty)
    && (s.actor.SettingComplete? || s.flags.complete ==> !s.res.terminalOpen)
    && (s.main.LoadingStop? || s.main.AwaitingAck? || s.main.Joining? || s.main.Finished? ==> s.flags.complete)
    && (s.main.Finished? ==> s.actor.Returned?)
  }

  /** Who asked for the shutdown. */
  predicate Requested(s: State) {
    && (s.flags.shutdown ==> s.flags.stopRequested || Failed(s.main))
    && (s.main.FailSending? || MainStop in s.channel.queue ==> s.flags.shutdown)
    && (s.main.ClosingListener? || s.main.RemovingSocket? || s.main.SettingRemoved? || s.flags.socketRemoved ==>
          s.flags.shutdown)
    && (s.flags.stopAcknowledged ==> s.res.stopReplies > 0)
    && (s.res.stopReplies > 0 ==> s.flags.complete && s.flags.socketRemoved)
    && (s.main.Joining? || s.main.Finished? ==> s.flags.stopAcknowledged)
  }

  /** Who still owes the acknowledgement. */
  ghost predicate Owed(s: State) {
    s.flags.stopRequested && !s.flags.stopAcknowledged ==> exists i :: 0 <= i < |s.clients| && Stopping(s.clients[i].pc)
  }

  ghost predicate Inv(s: State) {
    && Counted(s) && Slotted(s) && Occupied(s)
    && AllPlaced(s) && AllAddressed(s.clients, s.channel.queue) && Distinct(s.channel.queue) && Held(s) && Backed(s)
    && Flagged(s) && Requested(s) && Owed(s)
  }

  // ---------------------------------------------------------------- preservation: main

  /** What a step of main can do to the handlers and the channel. */
  lemma MainShape(s: State, c: MainChoice)
    requires MainEnabled(s, c)
    ensures var t := ApplyMain(s, c);
            && t.actor == s.actor
            && (t.clients == s.clients
                || (s.main.Spawning? && t.clients == s.clients + [Client(Negotiating, Empty, false)]))
            && (t.channel.queue == s.channel.queue
                || (s.main.FailSending? && t.channel.queue == s.channel.queue + [MainStop] && !s.actor.Returned?
                    && |s.channel.queue| < MAX_CONNECTIONS))
            && (s.main.FailSending? ==> t.main.Failing?)
  {
  }

  /** Main's own step through its program, with the handlers it counts. */
  lemma MainCounting(s: State, c: MainChoice)
    requires MainEnabled(s, c) && (s.main.Rejecting? ==> s.active > 0)
    ensures var t := ApplyMain(s, c);
            var started := if t.clients == s.clients then 0 else 1;
            && (InAcceptLoop(t.main) ==> InAcceptLoop(s.main))
            && (t.main.Spawning? ==> s.main.Counting? && s.active < MAX_CONNECTIONS)
            && (started == 1 ==> t.main.AcceptHead?)
            && (!t.main.Failing? && !t.main.Exited? ==>
                  t.active - Unassigned(t.main) == s.active - Unassigned(s.main) + started)
            && t.active + (if s.main.Rejecting? then 1 else 0) >= s.active
  {
  }

  lemma MainEnds(s: State, c: MainChoice)
    requires MainEnabled(s, c)
    ensures s.main.Failing? || s.main.Exited? ==> ApplyMain(s, c).main.Exited?
  {
  }

  lemma MainKeepsCounts(s: State, c: MainChoice)
    requires Counted(s) && Slotted(s) && Occupied(s) && MainEnabled(s, c)
    ensures var t := ApplyMain(s, c); Counted(t) && Slotted(t) && Occupied(t)
  {
    MainKeepsCounted(s, c);
    MainKeepsSlotted(s, c);
    MainKeepsOccupied(s, c);
  }

  lemma MainKeepsCounted(s: State, c: MainChoice)
    requires Counted(s) && MainEnabled(s, c)
    ensures Counted(ApplyMain(s, c))
  {
    hide Total;
    hide ApplyMain;
    MainShape(s, c);
    MainEnds(s, c);
    MainCounting(s, c);
    TotalAppend(s.clients, Client(Negotiating, Empty, false), Live);
  }

  lemma MainKeepsSlotted(s: State, c: MainChoice)
    requires Counted(s) && Slotted(s) && MainEnabled(s, c)
    ensures Slotted(ApplyMain(s, c))
  {
    hide Total;
    hide ApplyMain;
    MainShape(s, c);
    MainCounting(s, c);
    var started := Client(Negotiating, Empty, false);
    TotalAppend(s.clients, started, Live);
    TotalAppend(s.clients, started, Slot);
  }

  lemma MainKeepsOccupied(s: State, c: MainChoice)
    requires Occupied(s) && MainEnabled(s, c)
    ensures Occupied(ApplyMain(s, c))
  {
    hide Total;
    hide ApplyMain;
    MainShape(s, c);
    MainEnds(s, c);
    TotalAppend(s.clients, Client(Negotiating, Empty, false), Queued);
  }

  lemma MainKeepsPlaces(s: State, c: MainChoice)
    requires AllPlaced(s) && MainEnabled(s, c) && Flagged(s)
    ensures AllPlaced(ApplyMain(s, c))
  {
    var t := ApplyMain(s, c);
    forall d | d in t.clients ensures Placed(t, d) {
      if d in s.clients { assert Placed(s, d); }
    }
  }

  lemma MainKeepsChannel(s: State, c: MainChoice)
    requires AllAddressed(s.clients, s.channel.queue) && Distinct(s.channel.queue) && Held(s) && Backed(s)
    requires Occupied(s) && MainEnabled(s, c)
    ensures var t := ApplyMain(s, c);
            AllAddressed(t.clients, t.channel.queue) && Distinct(t.channel.queue) && Held(t) && Backed(t)
  {
    hide ApplyMain;
    hide Total;
    MainShape(s, c);
    var t := ApplyMain(s, c);
    forall k | 0 <= k < |t.channel.queue| ensures Addressed(t.clients, t.channel.queue[k]) {
      if k < |s.channel.queue| { assert Addressed(s.clients, s.channel.queue[k]); }
    }
    BackedExtends(s, t);
  }

  /** Appending to the channel loses no sender. */
  lemma BackedExtends(s: State, t: State)
    requires Backed(s) && s.channel.queue <= t.channel.queue && |s.clients| <= |t.clients|
    requires forall i :: 0 <= i < |t.clients| && t.clients[i].queued ==>
               (i < |s.clients| && s.clients[i].queued) || Sent(t.channel.queue, i)
    ensures Backed(t)
  {
    forall i | 0 <= i < |t.clients| && t.clients[i].queued ensures Sent(t.channel.queue, i) {
      if i < |s.clients| && s.clients[i].queued {
        var k :| 0 <= k < |s.channel.queue| && From(s.channel.queue[k], i);
        assert From(t.channel.queue[k], i);
      }
    }
  }

  lemma MainKeepsFlags(s: State, c: MainChoice)
    requires Flagged(s) && MainEnabled(s, c)
    ensures Flagged(ApplyMain(s, c))
  {
  }

  lemma MainKeepsRequests(s: State, c: MainChoice)
    requires Flagged(s) && Requested(s) && Owed(s) && MainEnabled(s, c)
    ensures var t := ApplyMain(s, c); Requested(t) && Owed(t)
  {
    hide ApplyMain;
    hide Flagged;
    MainShape(s, c);
    MainKeepsRequested(s, c);
    MainKeepsStops(s, c);
    OwedPersists(s, ApplyMain(s, c));
  }

  lemma MainKeepsStops(s: State, c: MainChoice)
    requires MainEnabled(s, c)
    ensures var t := ApplyMain(s, c);
            t.flags.stopRequested == s.flags.stopRequested && t.flags.stopAcknowledged == s.flags.stopAcknowledged
  {
  }

  lemma MainKeepsRequested(s: State, c: MainChoice)
    requires Flagged(s) && Requested(s) && MainEnabled(s, c)
    ensures Requested(ApplyMain(s, c))
  {
  }

  lemma OwedPersists(s: State, t: State)
    requires Owed(s) && |s.clients| <= |t.clients|
    requires t.flags.stopRequested == s.flags.stopRequested && t.flags.stopAcknowledged == s.flags.stopAcknowledged
    requires forall i :: 0 <= i < |s.clients| && Stopping(s.clients[i].pc) ==> Stopping(t.clients[i].pc)
    ensures Owed(t)
  {
    if s.flags.stopRequested && !s.flags.stopAcknowledged {
      var i :| 0 <= i < |s.clients| && Stopping(s.clients[i].pc);
      assert Stopping(t.clients[i].pc);
    }
  }

  // ---------------------------------------------------------------- preservation: handlers

  /** What a step of a handler can change. */
  lemma ClientShape(s: State, i: nat, c: ClientChoice)
    requires ClientEnabled(s, i, c)
    ensures var t := ApplyClient(s, i, c);
            && t.clients == s.clients[i := t.clients[i]] && t.main == s.main && t.actor == s.actor
            && t.active == (if s.clients[i].pc.Leaving? then Decrement(s.active) else s.active)
            && (t.clients[i].pc.Gone? <==> s.clients[i].pc.Leaving?) && !s.clients[i].pc.Gone?
            && (s.clients[i].pc.Leaving? ==> t.clients[i].queued == s.clients[i].queued)
  {
  }

  /** The flags and resources a handler's step sets, and from where. */
  lemma ClientFlags(s: State, i: nat, c: ClientChoice)
    requires ClientEnabled(s, i, c)
    ensures var t, pc := ApplyClient(s, i, c), s.clients[i].pc;
            && t.flags == s.flags.(stopRequested := s.flags.stopRequested || pc.StoringStop?,
                                   shutdown := s.flags.shutdown || pc.StoringShutdown?,
                                   stopAcknowledged := s.flags.stopAcknowledged || pc.Acknowledging?)
            && t.res == s.res.(stopReplies := s.res.stopReplies + if pc.WritingStopReply? then 1 else 0)
  {
    hide Submit;
    match s.clients[i].pc
    case Submitting(_) => SubmitSetsNothing(s, i, s.clients[i].pc.phase);
    case _ => hide Send;
  }

  lemma SubmitSetsNothing(s: State, i: nat, phase: Phase)
    requires i < |s.clients|
    ensures Submit(s, i, phase).flags == s.flags && Submit(s, i, phase).res == s.res
  {
  }

  lemma ClientKeepsCounts(s: State, i: nat, c: ClientChoice)
    requires Counted(s) && ClientEnabled(s, i, c)
    ensures Counted(ApplyClient(s, i, c))
  {
    hide ApplyClient;
    hide Total;
    ClientShape(s, i, c);
    TotalUpdate(s.clients, i, ApplyClient(s, i, c).clients[i], Live);
  }

  lemma ClientKeepsSlots(s: State, i: nat, c: ClientChoice)
    requires Slotted(s) && AllPlaced(s) && Flagged(s) && ClientEnabled(s, i, c)
    ensures Slotted(ApplyClient(s, i, c))
  {
    hide ApplyClient;
    hide Total;
    var t := ApplyClient(s, i, c);
    assert Placed(s, s.clients[i]);
    ClientShape(s, i, c);
    TotalUpdate(s.clients, i, t.clients[i], Live);
    TotalUpdate(s.clients, i, t.clients[i], Slot);
  }

  lemma ClientFindsRoom(s: State, i: nat, c: ClientChoice)
    requires ClientEnabled(s, i, c) && |s.channel.queue| <= MAX_CONNECTIONS
    ensures |ApplyClient(s, i, c).channel.queue| <= MAX_CONNECTIONS
  {
  }

  lemma ClientKeepsOccupancy(s: State, i: nat, c: ClientChoice)
    requires Occupied(s) && AllPlaced(s) && Held(s) && ClientEnabled(s, i, c)
    ensures Occupied(ApplyClient(s, i, c))
  {
    hide ApplyClient;
    hide Total;
    ClientShape(s, i, c);
    ClientMoves(s, i, c);
    ClientFindsRoom(s, i, c);
    ClientSendsNoMainStop(s, i, c);
    TotalUpdate(s.clients, i, ApplyClient(s, i, c).clients[i], Queued);
  }

  lemma ClientSendsNoMainStop(s: State, i: nat, c: ClientChoice)
    requires ClientEnabled(s, i, c) && (s.actor.Returned? ==> s.channel.queue == [])
    ensures MainStop in ApplyClient(s, i, c).channel.queue <==> MainStop in s.channel.queue
    ensures s.actor.Returned? ==> ApplyClient(s, i, c).channel.queue == []
  {
  }

  lemma MoverStaysPlaced(s: State, i: nat, c: ClientChoice)
    requires ClientEnabled(s, i, c) && Placed(s, s.clients[i]) && Flagged(s)
    ensures |ApplyClient(s, i, c).clients| == |s.clients|
    ensures Placed(ApplyClient(s, i, c), ApplyClient(s, i, c).clients[i])
  {
    ClientShape(s, i, c);
    hide Submit;
    match s.clients[i].pc
    case Submitting(_) => SubmitterStaysPlaced(s, i, s.clients[i].pc.phase);
    case _ =>
  }

  lemma SubmitterStaysPlaced(s: State, i: nat, phase: Phase)
    requires i < |s.clients| && Placed(s, s.clients[i]) && s.clients[i].pc.Submitting? && Flagged(s)
    ensures Placed(Submit(s, i, phase), Submit(s, i, phase).clients[i])
  {
  }

  lemma ClientKeepsPlaces(s: State, i: nat, c: ClientChoice)
    requires AllPlaced(s) && Flagged(s) && ClientEnabled(s, i, c)
    ensures AllPlaced(ApplyClient(s, i, c))
  {
    hide ApplyClient;
    hide Flagged;
    var t := ApplyClient(s, i, c);
    assert Placed(s, s.clients[i]);
    MoverStaysPlaced(s, i, c);
    ClientShape(s, i, c);
    ClientFlags(s, i, c);
    forall d | d in t.clients ensures Placed(t, d) {
      if d in s.clients { assert Placed(s, d); }
    }
  }

  /** The one handler that moves keeps any message of its own addressed, and adds at most one. */
  lemma ClientMoves(s: State, i: nat, c: ClientChoice)
    requires AllPlaced(s) && Held(s) && ClientEnabled(s, i, c) && (s.actor.Returned? ==> s.channel.queue == [])
    ensures var t := ApplyClient(s, i, c);
            && t.clients == s.clients[i := t.clients[i]] && t.actor == s.actor
            && (s.clients[i].queued ==>
                  t.clients[i].queued && t.channel.queue == s.channel.queue
                  && (SentStop(s.clients[i].pc) ==> SentStop(t.clients[i].pc))
                  && !Unanswered(s.clients[i]))
            && (!s.clients[i].queued && t.clients[i].queued ==>
                  exists m :: t.channel.queue == s.channel.queue + [m] && From(m, i) && Addressed(t.clients, m))
            && (!s.clients[i].queued && !t.clients[i].queued ==>
                  t.channel.queue == s.channel.queue && !Unanswered(t.clients[i]) && !Unanswered(s.clients[i]))
  {
    var t := ApplyClient(s, i, c);
    assert Placed(s, s.clients[i]);
    assert t.clients == s.clients[i := t.clients[i]];
    match s.clients[i].pc
    case Submitting(_) =>
      if t.clients[i].queued {
        var m := Request(i, s.channel.submitted);
        assert t.channel.queue == s.channel.queue + [m] && From(m, i) && Addressed(t.clients, m);
      }
    case SendingStop =>
      if t.clients[i].queued {
        var m := Stop(i);
        assert t.channel.queue == s.channel.queue + [m] && From(m, i) && Addressed(t.clients, m);
      }
    case _ =>
  }

  lemma ClientKeepsChannel(s: State, i: nat, c: ClientChoice)
    requires AllAddressed(s.clients, s.channel.queue) && Distinct(s.channel.queue) && Held(s) && Backed(s)
    requires AllPlaced(s) && Occupied(s) && ClientEnabled(s, i, c)
    ensures var t := ApplyClient(s, i, c);
            AllAddressed(t.clients, t.channel.queue) && Distinct(t.channel.queue) && Held(t) && Backed(t)
  {
    var t := ApplyClient(s, i, c);
    ClientMoves(s, i, c);
    assert Placed(s, s.clients[i]);
    forall k | 0 <= k < |t.channel.queue| ensures Addressed(t.clients, t.channel.queue[k]) {
      if k < |s.channel.queue| { assert Addressed(s.clients, s.channel.queue[k]); }
    }
    forall j, k | 0 <= j < k < |t.channel.queue| ensures !SameSender(t.channel.queue[j], t.channel.queue[k]) {
      assert Addressed(s.clients, s.channel.queue[j]);
    }
    if t.clients[i].queued && !s.clients[i].queued {
      assert From(t.channel.queue[|s.channel.queue|], i);
    }
    BackedExtends(s, t);
  }

  lemma ClientKeepsFlags(s: State, i: nat, c: ClientChoice)
    requires AllPlaced(s) && Flagged(s) && Requested(s) && ClientEnabled(s, i, c)
    requires s.actor.Returned? ==> s.channel.queue == []
    ensures var t := ApplyClient(s, i, c); Flagged(t) && Requested(t)
  {
    hide ApplyClient;
    assert Placed(s, s.clients[i]);
    ClientShape(s, i, c);
    ClientFlags(s, i, c);
    ClientSendsNoMainStop(s, i, c);
  }

  lemma ClientKeepsDebt(s: State, i: nat, c: ClientChoice)
    requires Owed(s) && ClientEnabled(s, i, c)
    ensures Owed(ApplyClient(s, i, c))
  {
    var t := ApplyClient(s, i, c);
    assert t.clients == s.clients[i := t.clients[i]];
    if t.flags.stopRequested && !t.flags.stopAcknowledged {
      if s.flags.stopRequested {
        var j :| 0 <= j < |s.clients| && Stopping(s.clients[j].pc);
        assert Stopping(t.clients[j].pc);
      } else {
        assert Stopping(t.clients[i].pc);
      }
    }
  }

  // ---------------------------------------------------------------- preservation: actor

  lemma DequeueKeepsCounts(s: State)
    requires Inv(s) && s.channel.queue != [] && !s.actor.Handling? && !ActorDone(s.actor)
    ensures var t := Dequeue(s); Counted(t) && Slotted(t) && Occupied(t)
  {
    hide Flagged;
    hide Requested;
    hide Held;
    hide Backed;
    hide Owed;
    hide Total;
    var t, m := Dequeue(s), s.channel.queue[0];
    assert s.channel.queue == [m] + t.channel.queue;
    assert Addressed(s.clients, m);
    if m.MainStop? {
      forall k | 0 <= k < |t.channel.queue| ensures t.channel.queue[k] != MainStop {
        assert !SameSender(s.channel.queue[0], s.channel.queue[k + 1]);
      }
    } else {
      assert Placed(s, s.clients[m.client]);
      TotalUpdate(s.clients, m.client, t.clients[m.client], Live);
      TotalUpdate(s.clients, m.client, t.clients[m.client], Slot);
      TotalUpdate(s.clients, m.client, t.clients[m.client], Queued);
      TotalMonotone(t.clients, t.clients, Live, Slot);
    }
  }

  /** Everything but the envelope just taken is undisturbed by a receive. */
  lemma DequeueKeeps(s: State, t: State)
    requires Inv(s) && s.channel.queue != [] && !s.actor.Handling? && !ActorDone(s.actor)
    requires t == Dequeue(s)
    ensures Counted(t) && Slotted(t) && Occupied(t) && Backed(t) && Owed(t)
    ensures AllAddressed(t.clients, t.channel.queue) && Distinct(t.channel.queue)
    ensures |t.clients| == |s.clients|
    ensures forall i :: 0 <= i < |s.clients| ==>
              t.clients[i] == s.clients[i].(queued := s.clients[i].queued && !From(s.channel.queue[0], i))
  {
    hide Placed;
    hide Total;
    hide Flagged;
    hide Requested;
    hide Held;
    DequeueKeepsCounts(s);
    hide Counted;
    hide Slotted;
    hide Occupied;
    var m := s.channel.queue[0];
    assert s.channel.queue == [m] + t.channel.queue;
    assert Addressed(s.clients, m);
    forall k | 0 <= k < |t.channel.queue| ensures Addressed(t.clients, t.channel.queue[k]) {
      assert Addressed(s.clients, s.channel.queue[k + 1]);
      assert !SameSender(s.channel.queue[0], s.channel.queue[k + 1]);
    }
    forall j, k | 0 <= j < k < |t.channel.queue| ensures !SameSender(t.channel.queue[j], t.channel.queue[k]) {
      assert !SameSender(s.channel.queue[j + 1], s.channel.queue[k + 1]);
    }
    forall i | 0 <= i < |t.clients| && t.clients[i].queued ensures Sent(t.channel.queue, i) {
      assert Sent(s.channel.queue, i);
      var k :| 0 <= k < |s.channel.queue| && From(s.channel.queue[k], i);
      assert From(t.channel.queue[k - 1], i);
    }
    OwedPersists(s, t);
  }

  lemma TakeKeepsPlaces(s: State, otherwise: ActorPc)
    requires Inv(s) && (s.actor.Polling? || s.actor.Idling?) && (otherwise.LoopHead? || otherwise.CheckingDue?)
    ensures AllPlaced(Take(s, otherwise))
  {
    var t := Take(s, otherwise);
    if s.channel.queue != [] { DequeueKeeps(s, Dequeue(s)); }
    forall d | d in t.clients ensures Placed(t, d) {
      var i :| 0 <= i < |t.clients| && t.clients[i] == d;
      assert Placed(s, s.clients[i]);
    }
  }

  lemma TakeKeepsHeld(s: State, otherwise: ActorPc)
    requires Inv(s) && (s.actor.Polling? || s.actor.Idling?) && (otherwise.LoopHead? || otherwise.CheckingDue?)
    ensures Held(Take(s, otherwise))
  {
    if s.channel.queue != [] {
      DequeueKeeps(s, Dequeue(s));
      assert Addressed(s.clients, s.channel.queue[0]);
    }
  }

  lemma TakeKeepsFlags(s: State, otherwise: ActorPc)
    requires Inv(s) && (s.actor.Polling? || s.actor.Idling?) && (otherwise.LoopHead? || otherwise.CheckingDue?)
    ensures Flagged(Take(s, otherwise)) && Requested(Take(s, otherwise))
  {
    if s.channel.queue != [] && !s.channel.queue[0].Request? { SenderOfStop(s); }
  }

  lemma TakeKeeps(s: State, otherwise: ActorPc)
    requires Inv(s) && (s.actor.Polling? || s.actor.Idling?) && (otherwise.LoopHead? || otherwise.CheckingDue?)
    ensures Inv(Take(s, otherwise))
  {
    TakeKeepsPlaces(s, otherwise);
    TakeKeepsHeld(s, otherwise);
    TakeKeepsFlags(s, otherwise);
    if s.channel.queue == [] { OwedPersists(s, Take(s, otherwise)); } else { DequeueKeeps(s, Dequeue(s)); }
  }

  /** A stop in the channel was preceded by its sender's store; the main thread's by its own. */
  lemma SenderOfStop(s: State)
    requires AllPlaced(s) && AllAddressed(s.clients, s.channel.queue) && Flagged(s) && Requested(s)
    requires s.channel.queue != [] && !s.channel.queue[0].Request? && !ActorDone(s.actor)
    ensures s.flags.shutdown
  {
    var m := s.channel.queue[0];
    assert Addressed(s.clients, m);
    if m.Stop? { assert Placed(s, s.clients[m.client]); }
  }

  lemma ResolveKeepsCounts(s: State, i: nat, envelope: nat, f: Fate)
    requires Counted(s) && Slotted(s) && Occupied(s) && i < |s.clients|
    ensures var t := Resolve(s, i, envelope, f); Counted(t) && Slotted(t) && Occupied(t)
  {
    var t := Resolve(s, i, envelope, f);
    TotalUpdate(s.clients, i, t.clients[i], Live);
    TotalUpdate(s.clients, i, t.clients[i], Slot);
    TotalUpdate(s.clients, i, t.clients[i], Queued);
  }

  /** Answering the handler whose envelope is in hand disturbs no queued message. */
  lemma ResolveKeepsChannel(s: State, i: nat, envelope: nat, f: Fate)
    requires AllAddressed(s.clients, s.channel.queue) && Backed(s) && Owed(s)
    requires i < |s.clients| && !s.clients[i].queued
    ensures var t := Resolve(s, i, envelope, f);
            AllAddressed(t.clients, t.channel.queue) && Backed(t) && Owed(t)
  {
    var t := Resolve(s, i, envelope, f);
    forall k | 0 <= k < |t.channel.queue| ensures Addressed(t.clients, t.channel.queue[k]) {
      assert Addressed(s.clients, s.channel.queue[k]);
    }
    forall j | 0 <= j < |t.clients| && t.clients[j].queued ensures Sent(t.channel.queue, j) {
      assert s.clients[j].queued;
    }
    OwedPersists(s, t);
  }

  lemma HandlingKeeps(s: State, c: ActorChoice)
    requires Inv(s) && s.actor.Handling? && ActorEnabled(s, c)
    ensures Inv(ApplyActor(s, c))
  {
    var t := ApplyActor(s, c);
    var i := s.actor.client;
    var f := if c.Reply? then Answered(c.answer) else DroppedByActor;
    ResolveKeepsCounts(s, i, s.actor.envelope, f);
    ResolveKeepsChannel(s, i, s.actor.envelope, f);
    assert Placed(s, s.clients[i]);
    forall d | d in t.clients ensures Placed(t, d) {
      if d in s.clients { assert Placed(s, d); }
    }
    OwedPersists(s, t);
  }

  lemma DrainKeepsPlaces(s: State)
    requires Inv(s) && s.actor.Draining?
    ensures AllPlaced(Drain(s)) && Held(Drain(s))
  {
    hide Total;
    var t := Drain(s);
    if s.channel.queue == [] {
      NothingToDrain(s);
    } else {
      DrainClients(s);
      assert Addressed(s.clients, s.channel.queue[0]);
    }
    hide Drain;
    forall d | d in t.clients ensures Placed(t, d) {
      var i :| 0 <= i < |t.clients| && t.clients[i] == d;
      assert Placed(s, s.clients[i]);
    }
  }

  /** A drained request's sender is answered; nobody else changes but for the queued mark. */
  lemma DrainClients(s: State)
    requires Inv(s) && s.actor.Draining? && s.channel.queue != []
    ensures var t, m := Drain(s), s.channel.queue[0];
            && t.main == s.main && t.actor == s.actor && t.flags == s.flags && t.res == s.res
            && |t.clients| == |s.clients|
            && forall i :: 0 <= i < |s.clients| ==>
                 t.clients[i] == if From(m, i)
                                 then s.clients[i].(queued := false,
                                                    mailbox := if m.Request? then Holding(Operational)
                                                               else s.clients[i].mailbox)
                                 else s.clients[i]
  {
    hide Inv;
    DequeueKeeps(s, Dequeue(s));
  }

  lemma DrainKeepsChannel(s: State)
    requires Inv(s) && s.actor.Draining? && s.channel.queue != []
    ensures var t := Drain(s); Counted(t) && Slotted(t) && Occupied(t) && Backed(t) && Owed(t)
                               && AllAddressed(t.clients, t.channel.queue) && Distinct(t.channel.queue)
  {
    var u := Dequeue(s);
    DequeueKeeps(s, u);
    var m := s.channel.queue[0];
    assert Addressed(s.clients, m);
    if m.Request? {
      ResolveKeepsCounts(u, m.client, m.envelope, Answered(Operational));
      ResolveKeepsChannel(u, m.client, m.envelope, Answered(Operational));
    }
  }

  lemma DrainKeeps(s: State)
    requires Inv(s) && s.actor.Draining?
    ensures Inv(Drain(s))
  {
    hide Drain;
    hide Placed;
    hide Addressed;
    DrainKeepsPlaces(s);
    DrainKeepsFlags(s);
    if s.channel.queue == [] {
      NothingToDrain(s);
      OwedPersists(s, Drain(s));
    } else {
      DrainKeepsChannel(s);
    }
  }

  lemma NothingToDrain(s: State)
    requires s.channel.queue == []
    ensures Drain(s) == s.(actor := ClearingRecords)
  {
  }

  lemma DrainKeepsFlags(s: State)
    requires Flagged(s) && Requested(s) && s.actor.Draining?
    ensures Flagged(Drain(s)) && Requested(Drain(s))
  {
  }

  lemma {:induction false} NothingQueued(cs: seq<Client>)
    requires forall i :: 0 <= i < |cs| ==> !cs[i].queued
    ensures Total(cs, Queued) == 0
  {
    if cs != [] { NothingQueued(cs[..|cs| - 1]); }
  }

  lemma DropKeepsCounts(s: State)
    requires Inv(s) && s.actor.DroppingReceiver?
    ensures var t := DropReceiver(s); Counted(t) && Slotted(t) && Occupied(t)
  {
    var t := DropReceiver(s);
    TotalMonotone(t.clients, s.clients, Live, Live);
    TotalMonotone(s.clients, t.clients, Live, Live);
    TotalMonotone(t.clients, s.clients, Slot, Slot);
    TotalMonotone(s.clients, t.clients, Live, Slot);
    NothingQueued(t.clients);
  }

  lemma DropKeepsPlaces(s: State)
    requires Inv(s) && s.actor.DroppingReceiver?
    ensures var t := DropReceiver(s); AllPlaced(t) && Held(t)
  {
    hide Total;
    var t := DropReceiver(s);
    forall i | 0 <= i < |t.clients| ensures Placed(t, t.clients[i]) && !Unanswered(t.clients[i]) {
      assert Placed(s, s.clients[i]);
      if Unanswered(s.clients[i]) {
        assert Sent(s.channel.queue, i);
        var k :| 0 <= k < |s.channel.queue| && From(s.channel.queue[k], i);
        assert Addressed(s.clients, s.channel.queue[k]);
      }
    }
  }

  lemma DropKeeps(s: State)
    requires Inv(s) && s.actor.DroppingReceiver?
    ensures Inv(DropReceiver(s))
  {
    hide Placed;
    hide Addressed;
    DropKeepsCounts(s);
    DropKeepsPlaces(s);
    OwedPersists(s, DropReceiver(s));
  }

  lemma ActorKeeps(s: State, c: ActorChoice)
    requires Inv(s) && ActorEnabled(s, c)
    ensures Inv(ApplyActor(s, c))
  {
    match s.actor
    case Polling => TakeKeeps(s, CheckingDue);
    case Idling => TakeKeeps(s, LoopHead);
    case Draining => DrainKeeps(s);
    case Handling(_, _) => HandlingKeeps(s, c);
    case DroppingReceiver => DropKeeps(s);
    case _ => ActorKeepsQuietly(s, c);
  }

  predicate TouchesNoHandler(a: ActorPc) {
    !a.Polling? && !a.Idling? && !a.Draining? && !a.Handling? && !a.DroppingReceiver?
  }

  lemma QuietShape(s: State, c: ActorChoice)
    requires ActorEnabled(s, c) && TouchesNoHandler(s.actor)
    ensures var t := ApplyActor(s, c);
            && t.clients == s.clients && t.channel == s.channel && t.main == s.main && t.active == s.active
            && (t.actor.Returned? ==> s.actor.Returned?) && !t.actor.Handling?
            && t.flags.stopRequested == s.flags.stopRequested && t.flags.stopAcknowledged == s.flags.stopAcknowledged
            && t.flags.socketRemoved == s.flags.socketRemoved && t.res.stopReplies == s.res.stopReplies
            && (s.flags.shutdown ==> t.flags.shutdown) && (s.flags.complete ==> t.flags.complete)
  {
  }

  lemma QuietKeepsFlags(s: State, c: ActorChoice)
    requires Flagged(s) && Requested(s) && ActorEnabled(s, c) && TouchesNoHandler(s.actor)
    ensures Flagged(ApplyActor(s, c)) && (ApplyActor(s, c).flags.shutdown ==> s.flags.shutdown || PastLoop(s.actor))
  {
  }

  /** The actor's steps that touch neither the channel nor a handler. */
  lemma ActorKeepsQuietly(s: State, c: ActorChoice)
    requires Inv(s) && ActorEnabled(s, c) && TouchesNoHandler(s.actor)
    ensures Inv(ApplyActor(s, c))
  {
    hide ApplyActor;
    hide Total;
    var t := ApplyActor(s, c);
    QuietShape(s, c);
    QuietKeepsFlags(s, c);
    forall d | d in t.clients ensures Placed(t, d) { assert Placed(s, d); }
    forall i | 0 <= i < |t.clients| && t.clients[i].queued ensures Sent(t.channel.queue, i) {
      assert Sent(s.channel.queue, i);
    }
    OwedPersists(s, t);
  }

  lemma StepKeeps(s: State, a: Action)
    requires Inv(s) && Enabled(s, a)
    ensures Inv(Apply(s, a))
  {
    match a
    case MainStep(c) =>
      MainKeepsCounts(s, c); MainKeepsPlaces(s, c); MainKeepsChannel(s, c);
      MainKeepsFlags(s, c); MainKeepsRequests(s, c);
    case ClientStep(i, c) =>
      ClientKeepsCounts(s, i, c); ClientKeepsSlots(s, i, c); ClientKeepsOccupancy(s, i, c); ClientKeepsPlaces(s, i, c);
      ClientKeepsChannel(s, i, c); ClientKeepsFlags(s, i, c); ClientKeepsDebt(s, i, c);
    case ActorStep(c) => ActorKeeps(s, c);
  }

  lemma InitialHolds()
    ensures Inv(INITIAL)
  {
    hide Total;
    forall m: Measure ensures Total([], m) == 0 { TotalOfNone(m); }
  }

  lemma TotalOfNone(m: Measure)
    ensures Total([], m) == 0
  {
  }

  lemma {:induction false} ExecutionKeeps(run: seq<State>, actions: seq<Action>, k: nat)
    requires Execution(run, actions) && k < |run|
    ensures Inv(run[k])
  {
    hide Apply;
    if k == 0 {
      InitialHolds();
    } else {
      hide Inv;
      ExecutionKeeps(run, actions, k - 1);
      StepKeeps(run[k - 1], actions[k - 1]);
    }
  }
}
