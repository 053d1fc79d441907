/** The broker process as a system of interleaved threads: the accept loop (`Main`), one handler
    thread per connection, and the executor (`Actor`).  Each action is one shared-memory operation
    of one thread; every schedule and every peer behaviour is a sequence of actions.  Atomics are
    sequentially consistent, and waiting on a condition variable is "enabled once the flag is set". */
module Threads {

  /** One constant caps the live handlers and sizes the channel. */
  const MAX_CONNECTIONS: nat := 64

  // ---------------------------------------------------------------- handlers

  datatype Answer = NeedWarning | Completed | Operational | QueueFull

  /** The receiving end of a handler's private response channel. */
  datatype Mailbox = Empty | Holding(answer: Answer) | SenderDropped

  /** `First` is the unmonitored submission of an unwarned start, `Monitored` every other one. */
  datatype Phase = First | Monitored

  datatype ClientPc =
    | Negotiating
    | StoringStop
    | StoringShutdown
    | SendingStop
    | AwaitingComplete
    | AwaitingRemoval
    | WritingStopReply
    | Acknowledging
    | Receiving
    | Submitting(phase: Phase)
    | AwaitingAnswer(phase: Phase)
    | Replying(phase: Phase, answer: Answer)
    | ReceivingWarned
    | Leaving
    | Gone

  /** `queued` says that a message this handler sent is still in the channel. */
  datatype Client = Client(pc: ClientPc, mailbox: Mailbox, queued: bool)

  datatype Message = Request(client: nat, envelope: nat) | Stop(client: nat) | MainStop

  datatype Fate = Answered(answer: Answer) | DroppedByActor | DroppedWithReceiver
  datatype Resolution = Resolution(envelope: nat, fate: Fate)

  // ---------------------------------------------------------------- main and actor

  datatype MainPc =
    | AcceptHead | Accepting | Counting | Rejecting | Spawning
    | ClosingListener | RemovingSocket | SettingRemoved
    | MainAwaitingComplete | LoadingStop | AwaitingAck | Joining | Finished
    | FailStoring | FailSending | Failing | Exited

  datatype ActorPc =
    | LoopHead | Expiring | Polling | Handling(client: nat, envelope: nat)
    | CheckingDue | Maintaining | Idling
    | ActorStoringShutdown | Draining | ClearingRecords | ClosingTerminal | SettingComplete
    | DroppingReceiver | Returned

  /** The bounded channel.  `submitted` counts the envelopes it accepted (they are numbered in that
      order) and `resolved` lists what became of them, in the order it happened. */
  datatype Channel = Channel(queue: seq<Message>, submitted: nat, resolved: seq<Resolution>)

  /** The two shared atomics and the three condition-variable flags. */
  datatype Flags = Flags(
    shutdown: bool, stopRequested: bool, complete: bool, socketRemoved: bool, stopAcknowledged: bool)

  /** Resources: `spawns` counts children started, `stopReplies` attempted writes of the stop response. */
  datatype Resources = Resources(
    listening: bool, removalAttempted: bool, recordsEmpty: bool, terminalOpen: bool, spawns: nat, stopReplies: nat)

  datatype State = State(
    main: MainPc, actor: ActorPc, clients: seq<Client>, active: nat,
    channel: Channel, flags: Flags, res: Resources)

  const INITIAL: State := State(
    AcceptHead, LoopHead, [], 0, Channel([], 0, []),
    Flags(false, false, false, false, false), Resources(true, false, true, true, 0, 0))

  predicate ReceiverAlive(s: State) { !s.actor.Returned? }

  // ---------------------------------------------------------------- actions

  /** What the environment decides: what a socket call returned, which branch a subprocess outcome
      or the clock selects, and how many children that branch started. */
  datatype MainChoice = Proceed | Connection | NoConnection | AcceptError | SetupError
  datatype ClientChoice = Continue | ReadStop | ReadNormal | ReadUnwarnedStart | ReadRequest | PeerFailed
  datatype ActorChoice = Go | Reply(answer: Answer, children: nat) | NoReply(children: nat)
                       | Due | NotDue | Checked(children: nat, alive: bool)

  datatype Action =
    | MainStep(main: MainChoice)
    | ClientStep(client: nat, choice: ClientChoice)
    | ActorStep(actor: ActorChoice)

  predicate Room(s: State) { |s.channel.queue| < MAX_CONNECTIONS || !ReceiverAlive(s) }

  predicate MainEnabled(s: State, c: MainChoice) {
    match s.main
    case Accepting => c.Connection? || c.NoConnection? || c.AcceptError? || c.SetupError?
    case Spawning => c.Proceed? || c.SetupError?
    case MainAwaitingComplete => c.Proceed? && s.flags.complete
    case AwaitingAck => c.Proceed? && s.flags.stopAcknowledged
    case Joining => c.Proceed? && s.actor.Returned?
    case FailSending => c.Proceed? && Room(s)
    case Finished => false
    case Exited => false
    case _ => c.Proceed?
  }

  predicate ClientEnabled(s: State, i: nat, c: ClientChoice) {
    i < |s.clients| &&
    match s.clients[i].pc
    case Negotiating => c.ReadStop? || c.ReadNormal? || c.PeerFailed?
    case Receiving => c.ReadUnwarnedStart? || c.ReadRequest? || c.PeerFailed?
    case Replying(_, _) => c.Continue? || c.PeerFailed?
    case ReceivingWarned => c.ReadRequest? || c.PeerFailed?
    case AwaitingAnswer(_) => c.Continue? && !s.clients[i].mailbox.Empty?
    case SendingStop => c.Continue? && Room(s)
    case AwaitingComplete => c.Continue? && s.flags.complete
    case AwaitingRemoval => c.Continue? && s.flags.socketRemoved
    case Gone => false
    case _ => c.Continue?
  }

  predicate ActorEnabled(s: State, c: ActorChoice) {
    match s.actor
    case Handling(_, _) =>
      (c.Reply? && (c.answer.NeedWarning? || c.answer.Completed?)) || (c.NoReply? && s.flags.shutdown)
    case CheckingDue => c.Due? || c.NotDue?
    case Maintaining => c.Checked? && (!c.alive ==> s.flags.shutdown)
    case Returned => false
    case _ => c.Go?
  }

  /** Once main has returned the process is gone, and every thread with it. */
  predicate Enabled(s: State, a: Action) {
    !(s.main.Finished? || s.main.Exited?) &&
    match a
    case MainStep(c) => MainEnabled(s, c)
    case ClientStep(i, c) => ClientEnabled(s, i, c)
    case ActorStep(c) => ActorEnabled(s, c)
  }

  function ApplyMain(s: State, c: MainChoice): State
    requires MainEnabled(s, c)
  {
    match s.main
    case AcceptHead => s.(main := if s.flags.shutdown then ClosingListener else Accepting)
    case Accepting =>
      (match c
       case Connection => s.(main := Counting)
       case NoConnection => s.(main := AcceptHead)
       case AcceptError => s.(main := FailStoring)
       case _ => s.(main := Failing))
    case Counting =>
      s.(active := s.active + 1, main := if s.active >= MAX_CONNECTIONS then Rejecting else Spawning)
    case Rejecting => s.(active := Decrement(s.active), main := AcceptHead)
    case Spawning =>
      if c.SetupError? then s.(main := Failing)
      else s.(clients := s.clients + [Client(Negotiating, Empty, false)], main := AcceptHead)
    case ClosingListener => s.(res := s.res.(listening := false), main := RemovingSocket)
    case RemovingSocket => s.(res := s.res.(removalAttempted := true), main := SettingRemoved)
    case SettingRemoved => s.(flags := s.flags.(socketRemoved := true), main := MainAwaitingComplete)
    case MainAwaitingComplete => s.(main := LoadingStop)
    case LoadingStop => s.(main := if s.flags.stopRequested then AwaitingAck else Joining)
    case AwaitingAck => s.(main := Joining)
    case Joining => s.(main := Finished)
    case FailStoring => s.(flags := s.flags.(shutdown := true), main := FailSending)
    case FailSending => s.(channel := s.channel.(queue := Send(s, MainStop)), main := Failing)
    case Failing => s.(main := Exited)
    case _ => s
  }

  function Decrement(n: nat): nat { if n == 0 then 0 else n - 1 }

  /** A send into the channel: lost when the receiver has been dropped. */
  function Send(s: State, m: Message): seq<Message> {
    if ReceiverAlive(s) then s.channel.queue + [m] else s.channel.queue
  }

  function Move(s: State, i: nat, pc: ClientPc): State
    requires i < |s.clients|
  {
    s.(clients := s.clients[i := s.clients[i].(pc := pc)])
  }

  /** `submit`: a non-blocking send of a fresh envelope. */
  function Submit(s: State, i: nat, phase: Phase): State
    requires i < |s.clients|
  {
    if !ReceiverAlive(s) then Move(s, i, Leaving)
    else if |s.channel.queue| >= MAX_CONNECTIONS then
      s.(clients := s.clients[i := s.clients[i].(pc := AwaitingAnswer(phase), mailbox := Holding(QueueFull))])
    else
      s.(clients := s.clients[i := Client(AwaitingAnswer(phase), Empty, true)],
         channel := s.channel.(queue := s.channel.queue + [Request(i, s.channel.submitted)],
                               submitted := s.channel.submitted + 1))
  }

  function ApplyClient(s: State, i: nat, c: ClientChoice): State
    requires ClientEnabled(s, i, c)
  {
    var me := s.clients[i];
    match me.pc
    case Negotiating =>
      Move(s, i, if c.ReadStop? then StoringStop else if c.ReadNormal? then Receiving else Leaving)
    case StoringStop => Move(s, i, StoringShutdown).(flags := s.flags.(stopRequested := true))
    case StoringShutdown => Move(s, i, SendingStop).(flags := s.flags.(shutdown := true))
    case SendingStop =>
      s.(clients := s.clients[i := me.(pc := AwaitingComplete, queued := ReceiverAlive(s))],
         channel := s.channel.(queue := Send(s, Stop(i))))
    case AwaitingComplete => Move(s, i, AwaitingRemoval)
    case AwaitingRemoval => Move(s, i, WritingStopReply)
    case WritingStopReply => Move(s, i, Acknowledging).(res := s.res.(stopReplies := s.res.stopReplies + 1))
    case Acknowledging => Move(s, i, Leaving).(flags := s.flags.(stopAcknowledged := true))
    case Receiving =>
      Move(s, i, if c.ReadUnwarnedStart? then Submitting(First)
                 else if c.ReadRequest? then Submitting(Monitored) else Leaving)
    case Submitting(phase) => Submit(s, i, phase)
    case AwaitingAnswer(phase) =>
      if me.mailbox.Holding?
      then s.(clients := s.clients[i := me.(pc := Replying(phase, me.mailbox.answer), mailbox := Empty)])
      else s.(clients := s.clients[i := me.(pc := Leaving, mailbox := Empty)])
    case Replying(phase, answer) =>
      Move(s, i, if c.Continue? && phase == First && answer == NeedWarning then ReceivingWarned else Leaving)
    case ReceivingWarned => Move(s, i, if c.ReadRequest? then Submitting(Monitored) else Leaving)
    case Leaving => Move(s, i, Gone).(active := Decrement(s.active))
    case Gone => s
  }

  /** The handler's channel once its envelope has been consumed with fate `f`. */
  function Delivered(f: Fate): Mailbox {
    match f
    case Answered(answer) => Holding(answer)
    case _ => SenderDropped
  }

  function Resolve(s: State, i: nat, envelope: nat, f: Fate): State {
    var t := s.(channel := s.channel.(resolved := s.channel.resolved + [Resolution(envelope, f)]));
    if i < |s.clients| then t.(clients := s.clients[i := s.clients[i].(mailbox := Delivered(f))]) else t
  }

  /** The receiver takes the oldest message. */
  function Dequeue(s: State): State
    requires s.channel.queue != []
  {
    var t := s.(channel := s.channel.(queue := s.channel.queue[1..]));
    match s.channel.queue[0]
    case MainStop => t
    case m =>
      if m.client < |s.clients|
      then t.(clients := s.clients[m.client := s.clients[m.client].(queued := false)])
      else t
  }

  /** `try_recv`/`recv_timeout` in the main loop, with `otherwise` the next step on an empty channel. */
  function Take(s: State, otherwise: ActorPc): State {
    if s.channel.queue == [] then s.(actor := otherwise)
    else match s.channel.queue[0]
      case Request(client, envelope) => Dequeue(s).(actor := Handling(client, envelope))
      case _ => Dequeue(s).(actor := ActorStoringShutdown)
  }

  function Drain(s: State): State {
    if s.channel.queue == [] then s.(actor := ClearingRecords)
    else match s.channel.queue[0]
      case Request(client, envelope) => Resolve(Dequeue(s), client, envelope, Answered(Operational))
      case _ => Dequeue(s)
  }

  predicate HasRequest(queue: seq<Message>, i: nat) {
    exists k :: 0 <= k < |queue| && queue[k].Request? && queue[k].client == i
  }

  function Discarded(queue: seq<Message>): seq<Resolution> {
    if queue == [] then []
    else (if queue[0].Request? then [Resolution(queue[0].envelope, DroppedWithReceiver)] else [])
         + Discarded(queue[1..])
  }

  /** Dropping the receiver discards every queued message, and with each request its response sender. */
  function DropReceiver(s: State): State {
    s.(actor := Returned,
       clients := seq(|s.clients|, i requires 0 <= i < |s.clients| =>
         s.clients[i].(queued := false,
                       mailbox := if HasRequest(s.channel.queue, i) then SenderDropped else s.clients[i].mailbox)),
       channel := s.channel.(queue := [], resolved := s.channel.resolved + Discarded(s.channel.queue)))
  }

  function ApplyActor(s: State, c: ActorChoice): State
    requires ActorEnabled(s, c)
  {
    match s.actor
    case LoopHead => s.(actor := if s.flags.shutdown then ActorStoringShutdown else Expiring)
    case Expiring => s.(actor := Polling)
    case Polling => Take(s, CheckingDue)
    case Handling(client, envelope) =>
      Resolve(s, client, envelope, if c.Reply? then Answered(c.answer) else DroppedByActor)
        .(actor := LoopHead, res := s.res.(recordsEmpty := false, spawns := s.res.spawns + c.children))
    case CheckingDue => s.(actor := if c.Due? then Maintaining else Idling)
    case Maintaining => s.(actor := LoopHead, res := s.res.(spawns := s.res.spawns + c.children),
         flags := s.flags.(shutdown := s.flags.shutdown || !c.alive))
    case Idling => Take(s, LoopHead)
    case ActorStoringShutdown => s.(actor := Draining, flags := s.flags.(shutdown := true))
    case Draining => Drain(s)
    case ClearingRecords => s.(actor := ClosingTerminal, res := s.res.(recordsEmpty := true))
    case ClosingTerminal => s.(actor := SettingComplete, res := s.res.(terminalOpen := false))
    case SettingComplete => s.(actor := DroppingReceiver, flags := s.flags.(complete := true))
    case DroppingReceiver => DropReceiver(s)
    case Returned => s
  }

  function Apply(s: State, a: Action): State
    requires Enabled(s, a)
  {
    match a
    case MainStep(c) => ApplyMain(s, c)
    case ClientStep(i, c) => ApplyClient(s, i, c)
    case ActorStep(c) => ApplyActor(s, c)
  }

  /** `run` is what the schedule `actions` does from the initial state. */
  ghost predicate Execution(run: seq<State>, actions: seq<Action>) {
    && |run| == |actions| + 1
    && run[0] == INITIAL
    && forall k :: 0 <= k < |actions| ==> Enabled(run[k], actions[k]) && run[k + 1] == Apply(run[k], actions[k])
  }
}
