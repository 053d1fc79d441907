/** A request's control and the thread that monitors its connection (src/process.rs, src/broker.rs).
    The executor reads the three atomics at any time, also between two stores of one event. */
module Control {
  import opened Base
  import opened Messages
  import opened Replies
  import opened Frames

  datatype Store = StoreSignal(signal: int) | StoreCancelled | StoreStreamsClosed

  datatype Atomics = Atomics(cancelled: bool, streamsClosed: bool, signal: int)

  const UNSET: Atomics := Atomics(false, false, 0)

  function Apply(a: Atomics, s: Store): Atomics {
    match s
    case StoreSignal(signal) => a.(signal := signal)
    case StoreCancelled => a.(cancelled := true)
    case StoreStreamsClosed => a.(streamsClosed := true)
  }

  function ApplyAll(a: Atomics, stores: seq<Store>): Atomics
    decreases |stores|
  {
    if stores == [] then a else Apply(ApplyAll(a, stores[..|stores| - 1]), stores[|stores| - 1])
  }

  function EventStores(e: ClientEvent): seq<Store> {
    match e
    case StreamsClosed => [StoreStreamsClosed]
    case Cancel(signal) => [StoreSignal(signal), StoreCancelled]
  }

  const HANGUP: seq<Store> := [StoreStreamsClosed, StoreCancelled]

  function StoresOf(events: seq<ClientEvent>): seq<Store> {
    if events == [] then [] else StoresOf(events[..|events| - 1]) + EventStores(events[|events| - 1])
  }

  /** All stores of a monitor that hears `events` and then nothing more. */
  function Stores(events: seq<ClientEvent>): seq<Store> { StoresOf(events) + HANGUP }

  class RequestControl {
    var cancelled: bool
    var streamsClosed: bool
    var signal: int
    /** Every store so far, in order: the executor may look between any two. */
    ghost var stores: seq<Store>

    ghost predicate Valid()
      reads this
    {
      Atomics(cancelled, streamsClosed, signal) == ApplyAll(UNSET, stores)
    }

    constructor ()
      ensures Valid() && stores == []
    {
      cancelled, streamsClosed, signal := false, false, 0;
      stores := [];
    }

    /** One atomic store. */
    method Put(s: Store)
      requires Valid()
      modifies this
      ensures Valid() && stores == old(stores) + [s]
    {
      match s {
        case StoreSignal(number) => signal := number;
        case StoreCancelled => cancelled := true;
        case StoreStreamsClosed => streamsClosed := true;
      }
      stores := stores + [s];
    }

    /** `cancel`: the signal is there before the flag. */
    method CancelWith(number: int)
      requires Valid()
      modifies this
      ensures Valid() && stores == old(stores) + [StoreSignal(number), StoreCancelled]
    {
      Put(StoreSignal(number));
      Put(StoreCancelled);
    }

    method Disconnect()
      requires Valid()
      modifies this
      ensures Valid() && stores == old(stores) + [StoreStreamsClosed, StoreCancelled]
    {
      Put(StoreStreamsClosed);
      Put(StoreCancelled);
    }

    method CloseStreams()
      requires Valid()
      modifies this
      ensures Valid() && stores == old(stores) + [StoreStreamsClosed]
    {
      Put(StoreStreamsClosed);
    }
  }

  // ---------------------------------------------------------------- the monitor

  predicate FromCaller(e: ClientEvent) { e.Cancel? ==> IsCallerSignal(e.signal) }

  predicate AllFromCaller(events: seq<ClientEvent>) { forall k :: 0 <= k < |events| ==> FromCaller(events[k]) }

  /** The events of a connection in its stream. */
  function Conversation(events: seq<ClientEvent>): seq<Cell>
    requires AllFromCaller(events)
  {
    if events == [] then []
    else
      assert FromCaller(events[0]);
      Laid(EventFrame(events[0]).value) + Conversation(events[1..])
  }

  /** `send_client_event`. */
  method SendEvent(stream: Stream, e: ClientEvent) returns (ok: bool)
    modifies stream
    ensures ok == FromCaller(e)
    ensures stream.cells == old(stream.cells) + if ok then Laid(EventFrame(e).value) else []
  {
    var frame := EventFrame(e);
    if frame.Invalid? { return false; }
    ok := SendFrame(stream, frame.value);
  }

  /** `receive_client_event`. */
  method ReceiveEvent(stream: Stream) returns (r: Result<ClientEvent>, ghost chunk: nat)
    modifies stream
    ensures chunk <= HEADER && chunk <= |old(stream.cells)| && (chunk == 0 <==> old(stream.cells) == [])
    ensures r == match Receive(old(stream.cells), chunk)
                 case Ok(got) => ReadEvent(got.frame)
                 case Invalid => Invalid
    ensures r.Ok? ==> stream.cells == Receive(old(stream.cells), chunk).value.rest
  {
    var frame;
    frame, chunk := ReceiveFrame(stream);
    r := if frame.Ok? then ReadEvent(frame.value) else Invalid;
  }

  lemma StoresAppend(events: seq<ClientEvent>, e: ClientEvent)
    ensures StoresOf(events + [e]) == StoresOf(events) + EventStores(e)
  {
    assert (events + [e])[..|events|] == events;
  }

  /** The next event of a conversation is received as it was sent, and at its end nothing is. */
  lemma NextEvent(sent: seq<ClientEvent>, chunk: nat)
    requires AllFromCaller(sent) && sent != [] && 0 < chunk <= HEADER
    ensures chunk <= |Conversation(sent)| && Receive(Conversation(sent), chunk).Ok?
    ensures var got := Receive(Conversation(sent), chunk).value;
            ReadEvent(got.frame) == Ok(sent[0]) && got.rest == Conversation(sent[1..])
  {
    assert FromCaller(sent[0]);
    var f := EventFrame(sent[0]).value;
    EventRoundTrip(sent[0], f);
    FrameRoundTrip(f, Conversation(sent[1..]), chunk);
  }

  /** The monitor's reaction to an event. */
  method React(control: RequestControl, e: ClientEvent)
    requires control.Valid()
    modifies control
    ensures control.Valid() && control.stores == old(control.stores) + EventStores(e)
  {
    match e {
      case StreamsClosed => control.CloseStreams();
      case Cancel(signal) => control.CancelWith(signal);
    }
  }

  /** Hearing goes as it should: `ahead` is what remains of the conversation `sent` after `heard`. */
  ghost predicate OnCourse(heard: seq<ClientEvent>, sent: seq<ClientEvent>, ahead: seq<Cell>)
    requires AllFromCaller(sent)
  {
    heard <= sent && ahead == Conversation(sent[|heard|..])
  }

  lemma HearsNext(heard: seq<ClientEvent>, sent: seq<ClientEvent>, ahead: seq<Cell>, chunk: nat)
    requires AllFromCaller(sent) && OnCourse(heard, sent, ahead)
    requires chunk <= HEADER && chunk <= |ahead| && (chunk == 0 <==> ahead == [])
    ensures Receive(ahead, chunk).Invalid? ==> heard == sent
    ensures Receive(ahead, chunk).Ok? ==>
              var got := Receive(ahead, chunk).value;
              ReadEvent(got.frame).Ok? && OnCourse(heard + [ReadEvent(got.frame).value], sent, got.rest)
  {
    var rest := sent[|heard|..];
    if rest != [] {
      assert FromCaller(rest[0]);
      assert |Conversation(rest)| > 0;
      NextEvent(rest, chunk);
      assert rest[1..] == sent[|heard| + 1..];
      assert heard + [rest[0]] <= sent;
    }
  }

  /** The monitor thread: it makes exactly the stores of the events it heard and then hangs up; of a
      client that sent `sent` and disconnected it heard exactly that. */
  method Monitor(stream: Stream, control: RequestControl, ghost sent: seq<ClientEvent>)
    returns (ghost heard: seq<ClientEvent>)
    requires AllFromCaller(sent) && control.Valid() && control.stores == []
    modifies stream, control
    ensures AllFromCaller(heard) && control.Valid() && control.stores == Stores(heard)
    ensures old(stream.cells) == Conversation(sent) ==> heard == sent
  {
    hide Receive;
    hide ReadEvent;
    hide Conversation;
    heard := [];
    var listening := true;
    while listening
      invariant AllFromCaller(heard) && control.Valid()
      invariant control.stores == if listening then StoresOf(heard) else Stores(heard)
      invariant old(stream.cells) == Conversation(sent) ==>
                  if listening then OnCourse(heard, sent, stream.cells) else heard == sent
      decreases listening, |stream.cells|
    {
      ghost var ahead := stream.cells;
      var event, chunk := ReceiveEvent(stream);
      if old(stream.cells) == Conversation(sent) { HearsNext(heard, sent, ahead, chunk); }
      if event.Ok? {
        FrameShrinks(ahead, chunk);
        ReadFromCaller(Receive(ahead, chunk).value.frame);
        StoresAppend(heard, event.value);
        React(control, event.value);
        heard := heard + [event.value];
      } else {
        control.Disconnect();
        listening := false;
      }
    }
  }

  lemma FrameShrinks(cells: seq<Cell>, chunk: nat)
    requires chunk <= HEADER && chunk <= |cells| && Receive(cells, chunk).Ok?
    ensures |Receive(cells, chunk).value.rest| < |cells|
  {
  }

  lemma ReadFromCaller(f: Frame)
    requires ReadEvent(f).Ok?
    ensures FromCaller(ReadEvent(f).value)
  {
  }

  // ---------------------------------------------------------------- what the executor can see

  /** The atomics after the monitor's first `n` stores. */
  function Seen(events: seq<ClientEvent>, n: nat): Atomics
    requires n <= |Stores(events)|
  {
    ApplyAll(UNSET, Stores(events)[..n])
  }

  predicate HasCancel(events: seq<ClientEvent>) { exists e :: e in events && e.Cancel? }

  /** `signal` is that of the last cancellation among `events`, and 0 if there is none. */
  ghost predicate LastCancel(events: seq<ClientEvent>, signal: int) {
    if HasCancel(events) then
      exists k :: 0 <= k < |events| && events[k] == Cancel(signal)
                  && forall j :: k < j < |events| ==> events[j] == StreamsClosed
    else signal == 0
  }

  lemma LastCancelAppend(events: seq<ClientEvent>, e: ClientEvent, signal: int)
    requires LastCancel(events, signal)
    ensures LastCancel(events + [e], if e.Cancel? then e.signal else signal)
    ensures HasCancel(events + [e]) <==> HasCancel(events) || e.Cancel?
  {
    var longer := events + [e];
    if e.Cancel? {
      assert longer[|events|] == Cancel(e.signal);
    } else if HasCancel(events) {
      var k :| 0 <= k < |events| && events[k] == Cancel(signal)
               && forall j :: k < j < |events| ==> events[j] == StreamsClosed;
      assert longer[k] == Cancel(signal);
    }
  }

  lemma ApplyMore(a: Atomics, stores: seq<Store>, s: Store)
    ensures ApplyAll(a, stores + [s]) == Apply(ApplyAll(a, stores), s)
  {
    assert (stores + [s])[..|stores|] == stores;
  }

  /** Once all stores of some events are made, the atomics show exactly those events. */
  lemma {:induction false} SeenAfter(events: seq<ClientEvent>)
    ensures var a := ApplyAll(UNSET, StoresOf(events));
            && LastCancel(events, a.signal)
            && (a.cancelled <==> HasCancel(events)) && (a.streamsClosed <==> StreamsClosed in events)
  {
    if events != [] {
      var last := |events| - 1;
      var before, e := events[..last], events[last];
      assert events == before + [e];
      SeenAfter(before);
      LastCancelAppend(before, e, ApplyAll(UNSET, StoresOf(before)).signal);
      EventApplies(StoresOf(before), e);
    }
  }

  /** What the stores of one event add, and the first of them already. */
  lemma EventApplies(stores: seq<Store>, e: ClientEvent)
    ensures var a, b := ApplyAll(UNSET, stores), ApplyAll(UNSET, stores + EventStores(e));
            match e
            case StreamsClosed => b == a.(streamsClosed := true)
            case Cancel(signal) => b == a.(signal := signal, cancelled := true)
    ensures 1 <= |EventStores(e)| <= 2 && (e.StreamsClosed? ==> |EventStores(e)| == 1)
    ensures e.Cancel? ==>
              ApplyAll(UNSET, stores + EventStores(e)[..1]) == ApplyAll(UNSET, stores).(signal := e.signal)
  {
    match e
    case StreamsClosed => ApplyMore(UNSET, stores, StoreStreamsClosed);
    case Cancel(signal) =>
      ApplyMore(UNSET, stores, StoreSignal(signal));
      ApplyMore(UNSET, stores + [StoreSignal(signal)], StoreCancelled);
      assert stores + [StoreSignal(signal)] + [StoreCancelled] == stores + EventStores(e);
      assert EventStores(e)[..1] == [StoreSignal(signal)];
  }

  /** Of the first `m` events the monitor has made a store, of no other, when it has made `n` in all. */
  predicate Begun(events: seq<ClientEvent>, m: nat, n: nat)
    requires m <= |events|
  {
    (m > 0 ==> |StoresOf(events[..m - 1])| < n) && (n <= |StoresOf(events[..m])| || m == |events|)
  }

  /** Between two stores the signal is that of the last cancellation begun, the streams are closed if
      that was begun, and the flag is set by a whole cancellation or the hang-up. */
  ghost predicate Shows(a: Atomics, events: seq<ClientEvent>, m: nat, n: nat)
    requires m <= |events|
  {
    && LastCancel(events[..m], a.signal)
    && (a.streamsClosed <==> StreamsClosed in events[..m] || n > |StoresOf(events)|)
    && (a.cancelled <==> n == |Stores(events)|
                         || HasCancel(events[..if m > 0 && n < |StoresOf(events[..m])| then m - 1 else m]))
  }

  /** Whatever the monitor has done so far, the atomics show exactly the events it has begun. */
  lemma {:induction false} SeenBetween(events: seq<ClientEvent>, n: nat) returns (m: nat)
    requires n <= |Stores(events)|
    ensures m <= |events| && Begun(events, m, n) && Shows(Seen(events, n), events, m, n)
    ensures n >= |StoresOf(events)| ==> m == |events|
    decreases |events|
  {
    if n >= |StoresOf(events)| {
      m := |events|;
      SeenAtEnd(events, n);
    } else if n <= |StoresOf(events[..|events| - 1])| {
      m := SeenBetween(events[..|events| - 1], n);
      SeenEarlier(events, m, n);
    } else {
      m := |events|;
      SeenInside(events, n);
    }
  }

  lemma SeenAtEnd(events: seq<ClientEvent>, n: nat)
    requires |StoresOf(events)| <= n <= |Stores(events)|
    ensures Begun(events, |events|, n) && Shows(Seen(events, n), events, |events|, n)
  {
    hide LastCancel;
    hide HasCancel;
    hide ApplyAll;
    assert events[..|events|] == events;
    SeenAfter(events);
    HangupApplies(events, n);
    if events != [] { assert |StoresOf(events[..|events| - 1])| < |StoresOf(events)|; }
  }

  lemma SeenEarlier(events: seq<ClientEvent>, m: nat, n: nat)
    requires events != [] && m < |events| && n <= |StoresOf(events[..|events| - 1])|
    requires var before := events[..|events| - 1];
             Begun(before, m, n) && Shows(Seen(before, n), before, m, n)
    ensures Begun(events, m, n) && Shows(Seen(events, n), events, m, n)
  {
    hide LastCancel;
    hide HasCancel;
    hide ApplyAll;
    hide EventStores;
    var before := events[..|events| - 1];
    assert StoresOf(events) == StoresOf(before) + EventStores(events[|events| - 1]);
    assert Stores(events)[..n] == StoresOf(before)[..n] == Stores(before)[..n];
    assert before[..m] == events[..m];
    assert m > 0 ==> before[..m - 1] == events[..m - 1];
  }

  lemma SeenInside(events: seq<ClientEvent>, n: nat)
    requires events != [] && |StoresOf(events[..|events| - 1])| < n < |StoresOf(events)|
    ensures Begun(events, |events|, n) && Shows(Seen(events, n), events, |events|, n)
  {
    hide LastCancel;
    hide HasCancel;
    hide ApplyAll;
    var before, e := events[..|events| - 1], events[|events| - 1];
    var stores := StoresOf(before);
    assert events[..|events|] == before + [e];
    assert events == before + [e];
    assert StoresOf(events) == stores + EventStores(e);
    SeenAfter(before);
    LastCancelAppend(before, e, ApplyAll(UNSET, stores).signal);
    EventApplies(stores, e);
    assert Stores(events)[..n] == stores + EventStores(e)[..1];
  }

  lemma HangupApplies(events: seq<ClientEvent>, n: nat)
    requires |StoresOf(events)| <= n <= |Stores(events)|
    ensures var a, b := ApplyAll(UNSET, StoresOf(events)), Seen(events, n);
            && b.signal == a.signal && (b.streamsClosed <==> a.streamsClosed || n > |StoresOf(events)|)
            && (b.cancelled <==> a.cancelled || n == |Stores(events)|)
  {
    var all := StoresOf(events);
    ApplyMore(UNSET, all, HANGUP[0]);
    ApplyMore(UNSET, all + [HANGUP[0]], HANGUP[1]);
    assert Stores(events) == all + [HANGUP[0]] + [HANGUP[1]];
    assert Stores(events)[..|all|] == all && Stores(events)[..|all| + 1] == all + [HANGUP[0]];
    assert Stores(events)[..|all| + 2] == Stores(events);
  }

  lemma CancelledStays(events: seq<ClientEvent>, i: nat, j: nat)
    requires i <= j <= |Stores(events)| && Seen(events, i).cancelled
    ensures Seen(events, j).cancelled
    decreases j - i
  {
    if i < j {
      assert Stores(events)[..i + 1] == Stores(events)[..i] + [Stores(events)[i]];
      ApplyMore(UNSET, Stores(events)[..i], Stores(events)[i]);
      CancelledStays(events, i + 1, j);
    }
  }

  lemma {:induction false} StoresPrefix(events: seq<ClientEvent>, m: nat)
    requires m <= |events|
    ensures StoresOf(events[..m]) <= StoresOf(events)
    decreases |events|
  {
    if m < |events| {
      var before := events[..|events| - 1];
      StoresPrefix(before, m);
      assert before[..m] == events[..m];
    } else {
      assert events[..m] == events;
    }
  }

  /** From when all stores of a cancellation are made, or the monitor has hung up, the request is cancelled. */
  lemma CancelledFrom(events: seq<ClientEvent>, k: nat, n: nat)
    requires k <= |events| && n <= |Stores(events)|
    requires if k < |events| then events[k].Cancel? && |StoresOf(events[..k + 1])| <= n else n == |Stores(events)|
    ensures Seen(events, n).cancelled
  {
    if k < |events| {
      var begun := events[..k + 1];
      assert begun[k].Cancel?;
      StoresPrefix(events, k + 1);
      SeenAfter(begun);
      assert Stores(events)[..|StoresOf(begun)|] == StoresOf(begun);
      CancelledStays(events, |StoresOf(begun)|, n);
    } else {
      HangupApplies(events, n);
    }
  }

  /** Whenever the executor finds a request cancelled and then reads its signal, it gets one the client
      sent, or zero because the client hung up without ever sending one. */
  lemma CancelledSignal(events: seq<ClientEvent>, i: nat, j: nat)
    requires i <= j <= |Stores(events)| && Seen(events, i).cancelled
    ensures var signal := Seen(events, j).signal;
            Cancel(signal) in events || (signal == 0 && !HasCancel(events))
  {
    CancelledStays(events, i, j);
    var m := SeenBetween(events, j);
    var signal := Seen(events, j).signal;
    if HasCancel(events[..m]) {
      var k :| 0 <= k < m && events[..m][k] == Cancel(signal);
      assert events[k] == Cancel(signal);
    } else {
      assert m > 0 && HasCancel(events[..m - 1]) ==> HasCancel(events[..m]) by {
        assert m > 0 ==> events[..m] == events[..m - 1] + [events[m - 1]];
      }
      assert events[..m] == events;
    }
  }
}
