/**
 The runtime sockets of one coordinator instance as an object whose methods update its fields
 (aws/postgres-coordinator.ts:231-275, 482-513, 1115-1122, 1174-1208, 1339-1349).  Each method is one synchronous
 stretch and performs the event of `SocketRuns` with the same name, so every state the object reaches is a state of
 a run.
 */
module RuntimeSockets {
  import opened Common
  import opened SocketRuns

  class RuntimeSockets {
    var attached: map<SocketId, RuntimeId>
    var closed: set<SocketId>
    var overflowed: set<SocketId>
    var buffered: map<SocketId, seq<Frame>>
    var queue: seq<Task>
    var operation: Operation
    // History
    ghost var arrived: map<SocketId, seq<Frame>>
    ghost var handled: map<SocketId, seq<Frame>>
    ghost var ejected: set<SocketId>

    ghost function State(): Sockets
      reads this
    {
      Sockets(attached, closed, overflowed, buffered, queue, operation, arrived, handled, ejected)
    }

    ghost predicate Valid()
      reads this
    {
      Inv(State())
    }

    constructor ()
      ensures Valid() && State() == INITIAL
    {
      attached, closed, overflowed, buffered, queue, operation := map[], {}, {}, map[], [], NoOperation;
      arrived, handled, ejected := map[], map[], {};
    }

    /** `#enqueueSocketMessage` */
    method FrameArrives(s: SocketId, f: Frame)
      requires Valid()
      modifies this
      ensures Valid() && State() == Step(old(State()), Event.FrameArrives(s, f))
    {
      StepKeepsInv(State(), Event.FrameArrives(s, f));
      arrived := Add(arrived, s, f);
      if s in overflowed || s in closed {
        return;
      }
      if s in attached {
        queue := queue + [Message(s, f)];
        return;
      }
      var pending := Get(buffered, s);
      if |pending| >= MAX_FRAMES || Bytes(pending) + f.bytes > MAX_BYTES {
        buffered := buffered - {s};
        overflowed := overflowed + {s};
        return;
      }
      buffered := buffered[s := pending + [f]];
    }

    /** `attachSocket` and `restartRuntimeConnections` join the promise chain. */
    method Enqueue(task: Task)
      requires Valid() && (task.Attach? || task.Restart?)
      modifies this
      ensures Valid() && State() == Step(old(State()), Event.Enqueue(task))
    {
      StepKeepsInv(State(), Event.Enqueue(task));
      queue := queue + [task];
    }

    /** `webSocketClose`, its synchronous part: the socket is closed at once, detaching waits its turn. */
    method SocketCloses(s: SocketId)
      requires Valid()
      modifies this
      ensures Valid() && State() == Step(old(State()), Event.SocketCloses(s))
    {
      StepKeepsInv(State(), Event.SocketCloses(s));
      closed := closed + {s};
      buffered := buffered - {s};
      queue := queue + [Detach(s)];
    }

    /** A queued frame reaches its handler if the socket is still attached. */
    method RunMessage()
      requires Valid() && Next(State()) && queue[0].Message?
      modifies this
      ensures Valid() && State() == Step(old(State()), Event.RunMessage)
    {
      StepKeepsInv(State(), Event.RunMessage);
      var task := queue[0];
      queue := queue[1..];
      if task.socket in attached {
        handled := Add(handled, task.socket, task.frame);
      }
    }

    /** `#detachSocket` */
    method RunDetach()
      requires Valid() && Next(State()) && queue[0].Detach?
      modifies this
      ensures Valid() && State() == Step(old(State()), Event.RunDetach)
    {
      StepKeepsInv(State(), Event.RunDetach);
      var s := queue[0].socket;
      queue := queue[1..];
      buffered := buffered - {s};
      ejected := ejected + {s};
      attached := attached - {s};
    }

    /** `restartRuntimeConnections`: every socket is detached; its frames arriving later are buffered again. */
    method RunRestart()
      requires Valid() && Next(State()) && queue[0].Restart?
      modifies this
      ensures Valid() && State() == Step(old(State()), Event.RunRestart)
    {
      StepKeepsInv(State(), Event.RunRestart);
      queue := queue[1..];
      ejected := ejected + attached.Keys;
      attached := map[];
    }

    /** `attachSocket` up to its first `await` after the tombstone check (`active`) */
    method RunAttach(active: bool)
      requires Valid() && Next(State()) && queue[0].Attach?
      modifies this
      ensures Valid() && State() == Step(old(State()), Event.RunAttach(active))
    {
      StepKeepsInv(State(), Event.RunAttach(active));
      var s, runtime := queue[0].socket, queue[0].runtime;
      queue := queue[1..];
      if !active || s in closed {
        return;
      }
      if s in overflowed {
        buffered := buffered - {s};
        return;
      }
      var replaced := set t | t in attached && t != s && attached[t] == runtime;
      attached := (attached - replaced)[s := runtime];
      buffered := buffered - replaced;
      ejected := ejected + replaced;
      operation := Attaching(s);
    }

    /** `#flushPendingSocketMessages` takes the whole buffer; its overflow branch cannot be reached. */
    method BeginFlush()
      requires Valid() && operation.Attaching?
      modifies this
      ensures Valid() && State() == Step(old(State()), Event.BeginFlush)
    {
      StepKeepsInv(State(), Event.BeginFlush);
      var s := operation.socket;
      operation := Flushing(s, Get(buffered, s));
      buffered := buffered - {s};
    }

    /** The next buffered frame is handled before anything that waits in the queue. */
    method FlushFrame()
      requires Valid() && operation.Flushing? && operation.rest != []
      modifies this
      ensures Valid() && State() == Step(old(State()), Event.FlushFrame)
    {
      StepKeepsInv(State(), Event.FlushFrame);
      var s := operation.socket;
      handled := Add(handled, s, operation.rest[0]);
      operation := Flushing(s, operation.rest[1..]);
    }

    /** The attachment ends with `runtime.ready`; a failing send detaches the socket again. */
    method FinishAttach(sent: bool)
      requires Valid() && operation.Flushing? && operation.rest == []
      modifies this
      ensures Valid() && State() == Step(old(State()), Event.FinishAttach(sent))
    {
      StepKeepsInv(State(), Event.FinishAttach(sent));
      var s := operation.socket;
      operation := NoOperation;
      if !sent {
        attached := attached - {s};
        ejected := ejected + {s};
      }
    }
  }
}
