/**
 Every run of the runtime sockets of one coordinator instance: attachment, the pre-attach frame buffer and the
 hand-over to the serialised queue (aws/postgres-coordinator.ts:231-275, 482-513, 1115-1122, 1174-1208, 1339-1349).
 JavaScript runs one synchronous stretch at a time.  Each event is one such stretch, so frames and closes may arrive
 between any two of them: between the steps of an attachment, too.
 */
module SocketRuns {
  import opened Common

  type SocketId = nat
  type RuntimeId = nat

  const MAX_FRAMES: nat := 8
  const MAX_BYTES: nat := 256 * 1024

  datatype Frame = Frame(content: nat, bytes: nat)

  function Bytes(frames: seq<Frame>): nat {
    if frames == [] then 0 else Bytes(frames[..|frames| - 1]) + frames[|frames| - 1].bytes
  }

  /** What waits in the promise chain `#tail`. */
  datatype Task =
    | Message(socket: SocketId, frame: Frame)
    | Attach(socket: SocketId, runtime: RuntimeId)
    | Detach(socket: SocketId)
    | Restart

  /** The serialised operation in progress, suspended at an `await`. */
  datatype Operation = NoOperation | Attaching(socket: SocketId) | Flushing(socket: SocketId, rest: seq<Frame>)

  function Queued(queue: seq<Task>, s: SocketId): seq<Frame> {
    if queue == [] then []
    else
      (if queue[0].Message? && queue[0].socket == s then [queue[0].frame] else []) + Queued(queue[1..], s)
  }

  lemma {:induction false} QueuedAppend(queue: seq<Task>, t: Task, s: SocketId)
    ensures Queued(queue + [t], s) == Queued(queue, s) + if t.Message? && t.socket == s then [t.frame] else []
  {
    if queue == [] {
      assert (queue + [t])[1..] == [];
    } else {
      QueuedAppend(queue[1..], t, s);
      assert (queue + [t])[1..] == queue[1..] + [t];
    }
  }

  lemma QueuedMessage(queue: seq<Task>, s: SocketId, f: Frame)
    ensures Queued(queue + [Message(s, f)], s) == Queued(queue, s) + [f]
    ensures forall t :: t != s ==> Queued(queue + [Message(s, f)], t) == Queued(queue, t)
  {
    QueuedAppend(queue, Message(s, f), s);
    forall t | t != s ensures Queued(queue + [Message(s, f)], t) == Queued(queue, t) {
      QueuedAppend(queue, Message(s, f), t);
    }
  }

  function Get(m: map<SocketId, seq<Frame>>, s: SocketId): seq<Frame> { if s in m then m[s] else [] }

  /** Everything that concerns one socket. */
  datatype Channel = Channel(
    attached: bool, attaching: bool, open: bool,
    arrived: seq<Frame>, handled: seq<Frame>, flushing: seq<Frame>, buffered: seq<Frame>, queued: seq<Frame>)

  /**
   Every frame of an open socket is handled or on its way, once each and in arrival order; frames wait in the
   buffer before attachment, in the queue afterwards.
   */
  ghost predicate ChannelOk(c: Channel) {
    && |c.buffered| <= MAX_FRAMES && Bytes(c.buffered) <= MAX_BYTES
    && (c.open ==> c.arrived == c.handled + c.flushing + c.buffered + c.queued)
    && (c.open && !c.attached ==> c.queued == [] && c.flushing == [])
    && (c.open && c.attached && !c.attaching ==> c.buffered == [])
    && (c.attaching ==> c.attached && c.flushing == [])
  }

  lemma FrameQueued(c: Channel, f: Frame)
    requires ChannelOk(c)
    requires c.open ==> c.attached
    ensures ChannelOk(c.(arrived := c.arrived + [f], queued := c.queued + [f]))
  {
    var before := c.handled + c.flushing + c.buffered;
    assert before + (c.queued + [f]) == before + c.queued + [f];
  }

  lemma FrameBuffered(c: Channel, f: Frame)
    requires ChannelOk(c) && !c.attached && !c.attaching
    requires |c.buffered| < MAX_FRAMES && Bytes(c.buffered) + f.bytes <= MAX_BYTES
    ensures ChannelOk(c.(arrived := c.arrived + [f], buffered := c.buffered + [f]))
  {
    assert (c.buffered + [f])[..|c.buffered|] == c.buffered;
    var before := c.handled + c.flushing;
    assert before + (c.buffered + [f]) + [] == before + c.buffered + [] + [f];
  }

  lemma QueuedFrameHandled(c: Channel, f: Frame, rest: seq<Frame>)
    requires ChannelOk(c) && c.attached && !c.attaching && c.flushing == [] && c.queued == [f] + rest
    ensures ChannelOk(c.(handled := c.handled + [f], queued := rest))
  {
    assert c.handled + [] + c.buffered + ([f] + rest) == c.handled + c.buffered + [f] + rest;
    if c.open {
      assert c.handled + [] + [] + ([f] + rest) == (c.handled + [f]) + [] + [] + rest;
    }
  }

  lemma BufferTaken(c: Channel)
    requires ChannelOk(c) && c.attaching
    ensures ChannelOk(c.(attaching := false, flushing := c.buffered, buffered := []))
  {
    assert c.handled + [] + c.buffered == c.handled + c.buffered + [];
  }

  lemma BufferedFrameHandled(c: Channel)
    requires ChannelOk(c) && !c.attaching && c.flushing != []
    ensures ChannelOk(c.(handled := c.handled + [c.flushing[0]], flushing := c.flushing[1..]))
  {
    assert c.handled + c.flushing == c.handled + [c.flushing[0]] + c.flushing[1..];
  }

  /** `arrived`, `handled` and `ejected` are history: frames in, frames handled, sockets the coordinator detached. */
  datatype Sockets = Sockets(
    attached: map<SocketId, RuntimeId>, closed: set<SocketId>, overflowed: set<SocketId>,
    buffered: map<SocketId, seq<Frame>>, queue: seq<Task>, operation: Operation,
    arrived: map<SocketId, seq<Frame>>, handled: map<SocketId, seq<Frame>>, ejected: set<SocketId>)

  const INITIAL := Sockets(map[], {}, {}, map[], [], NoOperation, map[], map[], {})

  datatype Event =
    | FrameArrives(socket: SocketId, frame: Frame)
    | Enqueue(task: Task)
    | SocketCloses(socket: SocketId)
    | RunMessage
    | RunDetach
    | RunRestart
    | RunAttach(active: bool)
    | BeginFlush
    | FlushFrame
    | FinishAttach(sent: bool)

  /** The next task of the promise chain starts once the operation before it has finished. */
  predicate Next(st: Sockets) { st.operation.NoOperation? && st.queue != [] }

  predicate Enabled(st: Sockets, e: Event) {
    match e
    case FrameArrives(_, _) => true
    case Enqueue(task) => task.Attach? || task.Restart?
    case SocketCloses(_) => true
    case RunMessage => Next(st) && st.queue[0].Message?
    case RunDetach => Next(st) && st.queue[0].Detach?
    case RunRestart => Next(st) && st.queue[0].Restart?
    case RunAttach(_) => Next(st) && st.queue[0].Attach?
    case BeginFlush => st.operation.Attaching?
    case FlushFrame => st.operation.Flushing? && st.operation.rest != []
    case FinishAttach(_) => st.operation.Flushing? && st.operation.rest == []
  }

  predicate Full(pending: seq<Frame>, f: Frame) { |pending| >= MAX_FRAMES || Bytes(pending) + f.bytes > MAX_BYTES }

  function Add(m: map<SocketId, seq<Frame>>, s: SocketId, f: Frame): map<SocketId, seq<Frame>> {
    m[s := Get(m, s) + [f]]
  }

  /** `#enqueueSocketMessage` */
  function Arrived(st: Sockets, s: SocketId, f: Frame): (next: Sockets)
    ensures next.arrived == Add(st.arrived, s, f)
  {
    var next := st.(arrived := Add(st.arrived, s, f));
    if s in st.overflowed || s in st.closed then next
    else if s in st.attached then next.(queue := st.queue + [Message(s, f)])
    else if Full(Get(st.buffered, s), f) then
      next.(buffered := st.buffered - {s}, overflowed := st.overflowed + {s})
    else next.(buffered := Add(st.buffered, s, f))
  }

  function Replaced(attached: map<SocketId, RuntimeId>, s: SocketId, runtime: RuntimeId): set<SocketId> {
    set t | t in attached && t != s && attached[t] == runtime
  }

  /** A socket replaces any other of its runtime. */
  function Taken(st: Sockets, s: SocketId, runtime: RuntimeId): (next: Sockets)
    ensures next.arrived == st.arrived
  {
    var replaced := Replaced(st.attached, s, runtime);
    st.(attached := (st.attached - replaced)[s := runtime], buffered := st.buffered - replaced,
    ejected := st.ejected + replaced, operation := Attaching(s))
  }

  /**
   `attachSocket` up to its first `await` after the tombstone check (`active`): a socket that closed is ignored,
   one that overflowed is dropped, and otherwise it replaces any socket of the same runtime in the same stretch.
   */
  function Attached(st: Sockets, s: SocketId, runtime: RuntimeId, active: bool): (next: Sockets)
    ensures next.arrived == st.arrived
  {
    if !active || s in st.closed then st
    else if s in st.overflowed then st.(buffered := st.buffered - {s})
    else Taken(st, s, runtime)
  }

  /** An event that cannot happen changes nothing. */
  function Step(st: Sockets, e: Event): (next: Sockets)
    ensures next.arrived == if e.FrameArrives? then Add(st.arrived, e.socket, e.frame) else st.arrived
  {
    if !Enabled(st, e) then st
    else
      match e
      case FrameArrives(s, f) => Arrived(st, s, f)
      case Enqueue(task) => st.(queue := st.queue + [task])
      case SocketCloses(s) =>
        st.(closed := st.closed + {s}, buffered := st.buffered - {s}, queue := st.queue + [Detach(s)])
      case RunMessage =>
        var s := st.queue[0].socket;
        st.(queue := st.queue[1..],
        handled := if s in st.attached then Add(st.handled, s, st.queue[0].frame) else st.handled)
      case RunDetach =>
        var s := st.queue[0].socket;
        st.(queue := st.queue[1..], attached := st.attached - {s}, buffered := st.buffered - {s},
        ejected := st.ejected + {s})
      case RunRestart =>
        st.(queue := st.queue[1..], attached := map[], ejected := st.ejected + st.attached.Keys)
      case RunAttach(active) =>
        Attached(st.(queue := st.queue[1..]), st.queue[0].socket, st.queue[0].runtime, active)
      case BeginFlush =>
        var s := st.operation.socket;
        st.(operation := Flushing(s, Get(st.buffered, s)), buffered := st.buffered - {s})
      case FlushFrame =>
        var s := st.operation.socket;
        st.(operation := Flushing(s, st.operation.rest[1..]), handled := Add(st.handled, s, st.operation.rest[0]))
      case FinishAttach(sent) =>
        var s := st.operation.socket;
        if sent then st.(operation := NoOperation)
        else st.(operation := NoOperation, attached := st.attached - {s}, ejected := st.ejected + {s})
  }

  function Run(st: Sockets, events: seq<Event>): Sockets
    decreases |events|
  {
    if events == [] then st else Run(Step(st, events[0]), events[1..])
  }

  // ---------- The invariant ----------

  predicate Open(st: Sockets, s: SocketId) { s !in st.closed && s !in st.overflowed && s !in st.ejected }

  function Of(st: Sockets, s: SocketId): Channel {
    Channel(
      s in st.attached, st.operation == Attaching(s), Open(st, s), Get(st.arrived, s), Get(st.handled, s),
      if st.operation.Flushing? && st.operation.socket == s then st.operation.rest else [],
      Get(st.buffered, s), Queued(st.queue, s))
  }

  ghost predicate OneSocketPerRuntime(attached: map<SocketId, RuntimeId>) {
    forall s, t :: s in attached && t in attached && s != t ==> attached[s] != attached[t]
  }

  predicate OperationOk(st: Sockets) {
    st.operation.Attaching? ==> st.operation.socket in st.attached && st.operation.socket !in st.overflowed
  }

  ghost predicate Inv(st: Sockets) {
    && OneSocketPerRuntime(st.attached) && OperationOk(st)
    && forall s: SocketId :: ChannelOk(Of(st, s))
  }

  lemma StepKeepsStructure(st: Sockets, e: Event)
    requires OneSocketPerRuntime(st.attached) && OperationOk(st)
    ensures OneSocketPerRuntime(Step(st, e).attached) && OperationOk(Step(st, e))
  {
  }

  lemma ArrivalElsewhere(st: Sockets, s: SocketId, f: Frame, t: SocketId)
    requires t != s
    ensures Of(Arrived(st, s, f), t) == Of(st, t)
  {
    if s in st.attached && s !in st.closed && s !in st.overflowed {
      QueuedAppend(st.queue, Message(s, f), t);
      assert Arrived(st, s, f).queue == st.queue + [Message(s, f)];
    } else {
      assert Arrived(st, s, f).queue == st.queue;
    }
  }

  lemma ArrivalHere(st: Sockets, s: SocketId, f: Frame)
    requires OperationOk(st) && ChannelOk(Of(st, s))
    ensures ChannelOk(Of(Arrived(st, s, f), s))
  {
    var c, next := Of(st, s), Of(Arrived(st, s, f), s);
    if s in st.overflowed || s in st.closed {
      assert next == c.(arrived := c.arrived + [f]);
    } else if s in st.attached {
      QueuedMessage(st.queue, s, f);
      FrameQueued(c, f);
      assert next == c.(arrived := c.arrived + [f], queued := c.queued + [f]);
    } else if !Full(c.buffered, f) {
      FrameBuffered(c, f);
      assert next == c.(arrived := c.arrived + [f], buffered := c.buffered + [f]);
    } else {
      assert next == c.(arrived := c.arrived + [f], buffered := [], open := false);
    }
  }

  lemma ArrivalKeepsChannel(st: Sockets, s: SocketId, f: Frame, t: SocketId)
    requires OperationOk(st) && ChannelOk(Of(st, t))
    ensures ChannelOk(Of(Arrived(st, s, f), t))
  {
    if t == s {
      ArrivalHere(st, s, f);
    } else {
      ArrivalElsewhere(st, s, f, t);
    }
  }

  lemma MessageKeepsChannel(st: Sockets, t: SocketId)
    requires Enabled(st, RunMessage) && ChannelOk(Of(st, t))
    ensures ChannelOk(Of(Step(st, RunMessage), t))
  {
    var c := Of(st, t);
    if t == st.queue[0].socket {
      var f, rest := st.queue[0].frame, Queued(st.queue[1..], t);
      assert c.queued == [f] + rest;
      if t in st.attached {
        QueuedFrameHandled(c, f, rest);
        assert Of(Step(st, RunMessage), t) == c.(handled := c.handled + [f], queued := rest);
      } else {
        assert Of(Step(st, RunMessage), t) == c.(queued := rest);
      }
    } else {
      assert Of(Step(st, RunMessage), t) == c;
    }
  }

  lemma TakenKeepsChannel(st: Sockets, s: SocketId, runtime: RuntimeId, t: SocketId)
    requires st.operation.NoOperation? && s !in st.closed && s !in st.overflowed && ChannelOk(Of(st, t))
    ensures ChannelOk(Of(Taken(st, s, runtime), t))
  {
    var c, next := Of(st, t), Of(Taken(st, s, runtime), t);
    if t == s {
      assert next == c.(attached := true, attaching := true);
    } else {
      assert next == if t in Replaced(st.attached, s, runtime)
                     then c.(attached := false, open := false, buffered := []) else c;
    }
  }

  lemma AttachKeepsChannel(st: Sockets, active: bool, t: SocketId)
    requires Enabled(st, RunAttach(active)) && ChannelOk(Of(st, t))
    ensures ChannelOk(Of(Step(st, RunAttach(active)), t))
  {
    var s, runtime := st.queue[0].socket, st.queue[0].runtime;
    var popped := st.(queue := st.queue[1..]);
    assert Of(popped, t) == Of(st, t);
    if active && s !in st.closed && s !in st.overflowed {
      TakenKeepsChannel(popped, s, runtime, t);
    }
  }

  lemma FlushKeepsChannel(st: Sockets, e: Event, t: SocketId)
    requires Enabled(st, e) && (e.BeginFlush? || e.FlushFrame?) && ChannelOk(Of(st, t))
    ensures ChannelOk(Of(Step(st, e), t))
  {
    var c, next := Of(st, t), Of(Step(st, e), t);
    if t != st.operation.socket {
      assert next == c;
    } else if e.BeginFlush? {
      BufferTaken(c);
      assert next == c.(attaching := false, flushing := c.buffered, buffered := []);
    } else {
      BufferedFrameHandled(c);
      assert next == c.(handled := c.handled + [c.flushing[0]], flushing := c.flushing[1..]);
    }
  }

  lemma TaskKeepsChannel(st: Sockets, task: Task, t: SocketId)
    requires task.Attach? || task.Restart?
    ensures Of(Step(st, Enqueue(task)), t) == Of(st, t)
  {
    QueuedAppend(st.queue, task, t);
  }

  lemma CloseKeepsChannel(st: Sockets, s: SocketId, t: SocketId)
    requires ChannelOk(Of(st, t))
    ensures ChannelOk(Of(Step(st, SocketCloses(s)), t))
  {
    QueuedAppend(st.queue, Detach(s), t);
    var c := Of(st, t);
    assert Of(Step(st, SocketCloses(s)), t) == if t == s then c.(open := false, buffered := []) else c;
  }

  lemma DetachKeepsChannel(st: Sockets, t: SocketId)
    requires Enabled(st, RunDetach) && ChannelOk(Of(st, t))
    ensures ChannelOk(Of(Step(st, RunDetach), t))
  {
    var c := Of(st, t);
    assert Of(Step(st, RunDetach), t) ==
           if t == st.queue[0].socket then c.(attached := false, open := false, buffered := []) else c;
  }

  lemma RestartKeepsChannel(st: Sockets, t: SocketId)
    requires Enabled(st, RunRestart) && ChannelOk(Of(st, t))
    ensures ChannelOk(Of(Step(st, RunRestart), t))
  {
    var c := Of(st, t);
    assert Of(Step(st, RunRestart), t) == if t in st.attached then c.(attached := false, open := false) else c;
  }

  lemma FinishKeepsChannel(st: Sockets, sent: bool, t: SocketId)
    requires Enabled(st, FinishAttach(sent)) && ChannelOk(Of(st, t))
    ensures ChannelOk(Of(Step(st, FinishAttach(sent)), t))
  {
    var c := Of(st, t);
    assert Of(Step(st, FinishAttach(sent)), t) ==
           if !sent && t == st.operation.socket then c.(attached := false, open := false) else c;
  }

  lemma StepKeepsInv(st: Sockets, e: Event)
    requires Inv(st)
    ensures Inv(Step(st, e))
  {
    StepKeepsStructure(st, e);
    forall t: SocketId ensures ChannelOk(Of(Step(st, e), t)) {
      assert ChannelOk(Of(st, t));
      if Enabled(st, e) {
        match e
        case FrameArrives(s, f) => ArrivalKeepsChannel(st, s, f, t);
        case RunMessage => MessageKeepsChannel(st, t);
        case RunAttach(active) => AttachKeepsChannel(st, active, t);
        case BeginFlush => FlushKeepsChannel(st, e, t);
        case FlushFrame => FlushKeepsChannel(st, e, t);
        case Enqueue(task) => TaskKeepsChannel(st, task, t);
        case SocketCloses(s) => CloseKeepsChannel(st, s, t);
        case RunDetach => DetachKeepsChannel(st, t);
        case RunRestart => RestartKeepsChannel(st, t);
        case FinishAttach(sent) => FinishKeepsChannel(st, sent, t);
      }
    }
  }

  lemma {:induction false} RunKeepsInv(st: Sockets, events: seq<Event>)
    requires Inv(st)
    ensures Inv(Run(st, events))
    decreases |events|
  {
    if events != [] {
      StepKeepsInv(st, events[0]);
      RunKeepsInv(Step(st, events[0]), events[1..]);
    }
  }

  // ---------- What holds in every run ----------

  /** The pre-attach buffer is bounded, and a runtime has at most one attached socket. */
  lemma BufferIsBounded(events: seq<Event>, s: SocketId, t: SocketId)
    ensures var st := Run(INITIAL, events);
            && |Get(st.buffered, s)| <= MAX_FRAMES && Bytes(Get(st.buffered, s)) <= MAX_BYTES
            && (s in st.attached && t in st.attached && st.attached[s] == st.attached[t] ==> s == t)
  {
    RunKeepsInv(INITIAL, events);
    assert ChannelOk(Of(Run(INITIAL, events), s));
  }

  /** The frame that an event delivers to one socket */
  function Frames(e: Event, s: SocketId): seq<Frame> {
    if e.FrameArrives? && e.socket == s then [e.frame] else []
  }

  /** The frames that a run delivers to one socket */
  function Sent(events: seq<Event>, s: SocketId): seq<Frame> {
    if events == [] then [] else Frames(events[0], s) + Sent(events[1..], s)
  }

  lemma StepArrives(st: Sockets, e: Event, s: SocketId)
    ensures Get(Step(st, e).arrived, s) == Get(st.arrived, s) + Frames(e, s)
  {
  }

  lemma {:induction false} ArrivedAreSent(st: Sockets, events: seq<Event>, s: SocketId)
    ensures Get(Run(st, events).arrived, s) == Get(st.arrived, s) + Sent(events, s)
    decreases |events|
  {
    if events != [] {
      StepArrives(st, events[0], s);
      ArrivedAreSent(Step(st, events[0]), events[1..], s);
      assert Get(st.arrived, s) + Frames(events[0], s) + Sent(events[1..], s) ==
             Get(st.arrived, s) + (Frames(events[0], s) + Sent(events[1..], s));
    }
  }

  /** What a socket that stayed open has been sent: first what is handled, then what is on its way. */
  lemma SentIsAccounted(events: seq<Event>, s: SocketId)
    requires Open(Run(INITIAL, events), s)
    ensures var c := Of(Run(INITIAL, events), s);
            ChannelOk(c) && Sent(events, s) == c.handled + c.flushing + c.buffered + c.queued
  {
    RunKeepsInv(INITIAL, events);
    ArrivedAreSent(INITIAL, events, s);
    assert [] + Sent(events, s) == Sent(events, s);
    assert ChannelOk(Of(Run(INITIAL, events), s));
  }

  /** Of a socket that stays open, the handled frames are at any time the first of those sent, once each and in order. */
  lemma HandledInOrder(events: seq<Event>, s: SocketId)
    requires Open(Run(INITIAL, events), s)
    ensures Get(Run(INITIAL, events).handled, s) <= Sent(events, s)
  {
    SentIsAccounted(events, s);
  }

  /** Once the queue has drained, an attached open socket has had every frame handled. */
  lemma DrainedMeansHandled(events: seq<Event>, s: SocketId)
    requires var st := Run(INITIAL, events);
             Open(st, s) && s in st.attached && st.operation.NoOperation? && Queued(st.queue, s) == []
    ensures Get(Run(INITIAL, events).handled, s) == Sent(events, s)
  {
    SentIsAccounted(events, s);
  }
}
