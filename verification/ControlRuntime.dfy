/** What each entry point of a control-stream runtime does to the runtime's own state.

    Tokio's inbound channels live in an arena: `chans` only grows, and the stream and
    pending-open maps hold positions in it. Each function below is the specification that
    the methods of class `ControlStreamRuntime` are proved against. */
module ControlRuntime {
  import opened Wrappers
  import opened ControlTypes

  /** The one-shot channel an `open` call waits on. `NoWaiter`: the stream was accepted, not opened. */
  datatype Waiter = NoWaiter | Waiting | Answered(ok: bool) | Gone

  /** One bounded inbound channel. `alive`: its receiver has not been dropped. */
  datatype Chan = Chan(id: U32, queue: seq<Item>, alive: bool, waiter: Waiter)

  datatype Pending = Pending(purpose: Purpose, chan: nat)

  datatype Runtime = Runtime(
    parity: nat,
    next: U32,
    streams: map<U32, nat>,
    pending: map<U32, Pending>,
    chans: seq<Chan>,
    listening: bool,
    closed: bool,
    reason: Option<Reason>)

  datatype SendResult = Sent | Full | Closed

  /** What the listener answers for one incoming open. */
  datatype Consult = Consult(admits: bool, prepared: bool)

  ghost predicate HoldsStream(rt: Runtime, h: nat)
    requires h < |rt.chans|
  {
    rt.chans[h].id in rt.streams && rt.streams[rt.chans[h].id] == h
  }

  ghost predicate HoldsPending(rt: Runtime, h: nat)
    requires h < |rt.chans|
  {
    rt.chans[h].id in rt.pending && rt.pending[rt.chans[h].id].chan == h
  }

  /** A queue that still has a sender in one of the maps. */
  ghost predicate Held(rt: Runtime, h: nat)
    requires h < |rt.chans|
  {
    HoldsStream(rt, h) || HoldsPending(rt, h)
  }

  // ---------------------------------------------------------------- invariant

  ghost predicate StreamsOk(rt: Runtime) {
    forall i :: i in rt.streams ==>
      && i != 0
      && rt.streams[i] < |rt.chans|
      && rt.chans[rt.streams[i]].id == i
      && AllChunks(rt.chans[rt.streams[i]].queue)
      && |rt.chans[rt.streams[i]].queue| <= QUEUE_CAPACITY
  }

  ghost predicate PendingOk(rt: Runtime) {
    forall i :: i in rt.pending ==>
      && i != 0
      && i % 2 == rt.parity
      && i !in rt.streams
      && rt.pending[i].chan < |rt.chans|
      && rt.chans[rt.pending[i].chan].id == i
      && rt.chans[rt.pending[i].chan].queue == []
  }

  ghost predicate ChanOk(c: Chan) {
    && |c.queue| <= QUEUE_CAPACITY + TERMINAL_RESERVE
    && (!c.alive ==> c.queue == [])
  }

  ghost predicate Valid(rt: Runtime) {
    && rt.parity < 2
    && rt.next % 2 == rt.parity
    && StreamsOk(rt)
    && PendingOk(rt)
    && (forall h :: 0 <= h < |rt.chans| ==> ChanOk(rt.chans[h]))
    && (rt.closed ==> rt.streams == map[] && rt.pending == map[] && rt.reason.Some? && !rt.listening)
    && (!rt.closed ==> rt.reason.None?)
  }

  // ---------------------------------------------------------------- operations

  function TrySend(c: Chan, x: Item): (Chan, SendResult) {
    if !c.alive then (c, Closed)
    else if |c.queue| >= QUEUE_CAPACITY + TERMINAL_RESERVE then (c, Full)
    else (c.(queue := c.queue + [x]), Sent)
  }

  function Create(initiator: bool): Runtime {
    var first := if initiator then 1 else 2;
    Runtime(first % 2, first, map[], map[], [], false, false, None)
  }

  function Listen(rt: Runtime): Runtime {
    if rt.closed then rt else rt.(listening := true)
  }

  predicate IsPeerId(rt: Runtime, id: U32) {
    id != 0 && id % 2 != rt.parity
  }

  predicate Free(rt: Runtime, id: U32) {
    id != 0 && id !in rt.pending && id !in rt.streams
  }

  /** The `k`-th value that the wrapping counter will hand out. */
  function Nth(next: U32, k: nat): U32 {
    (next + 2 * k) % ID_SPACE
  }

  /** The allocator stops at the first free value, having skipped `k` unusable ones. */
  ghost predicate AllocatesAfter(rt: Runtime, k: nat) {
    && Free(rt, Nth(rt.next, k))
    && forall j :: 0 <= j < k ==> !Free(rt, Nth(rt.next, j))
  }

  /** `open` up to the point where the Open frame is handed to the sender. */
  function BeginOpen(rt: Runtime, k: nat, purpose: Purpose): Runtime {
    var id := Nth(rt.next, k);
    rt.(next := (id + 2) % ID_SPACE,
        chans := rt.chans + [Chan(id, [], true, Waiting)],
        pending := rt.pending[id := Pending(purpose, |rt.chans|)])
  }

  function HandleOpen(rt: Runtime, id: U32, purpose: Purpose, env: Consult): (Runtime, CommandResult) {
    if !IsPeerId(rt, id) then (rt, InvalidParam)
    else if id in rt.pending || id in rt.streams then (rt, ConflictLost)
    else if !rt.listening then (rt, ListenerClosed)
    else if !env.admits then (rt, PortNotListen)
    else if !env.prepared then (rt.(chans := rt.chans + [Chan(id, [], false, NoWaiter)]), Retired)
    else (rt.(chans := rt.chans + [Chan(id, [], true, NoWaiter)], streams := rt.streams[id := |rt.chans|]), Success)
  }

  function HandleOpenResp(rt: Runtime, id: U32, result: CommandResult): Runtime
    requires id in rt.pending ==> rt.pending[id].chan < |rt.chans|
  {
    if id !in rt.pending then rt
    else
      var h := rt.pending[id].chan;
      var rt1 := rt.(pending := rt.pending - {id});
      if rt.chans[h].waiter != Waiting then rt1
      else
        var rt2 := rt1.(chans := rt.chans[h := rt.chans[h].(waiter := Answered(result == Success))]);
        if result == Success then rt2.(streams := rt.streams[id := h]) else rt2
  }

  const QueueFull := Reason(CodeOutOfLimit, "control stream inbound queue full")

  function Overflow(rt: Runtime, id: U32): Runtime
    requires id in rt.streams && rt.streams[id] < |rt.chans|
  {
    Retire(rt, id, Abort(QueueFull))
  }

  /** Unregister a stream and queue its terminal item. */
  function Retire(rt: Runtime, id: U32, last: Item): Runtime
    requires id in rt.streams && rt.streams[id] < |rt.chans|
  {
    var h := rt.streams[id];
    rt.(streams := rt.streams - {id}, chans := rt.chans[h := TrySend(rt.chans[h], last).0])
  }

  function Deliver(rt: Runtime, id: U32, bytes: Bytes): (Runtime, Option<CommandResult>)
    requires id in rt.streams ==> rt.streams[id] < |rt.chans|
  {
    if id !in rt.streams then (rt, None)
    else
      var h := rt.streams[id];
      var c := rt.chans[h];
      if QUEUE_CAPACITY + TERMINAL_RESERVE - |c.queue| <= TERMINAL_RESERVE then
        (Overflow(rt, id), Some(AcceptQueueFull))
      else
        var (c', sent) := TrySend(c, Chunk(bytes));
        match sent
        case Sent => (rt.(chans := rt.chans[h := c']), None)
        case Full => (Overflow(rt, id), Some(AcceptQueueFull))
        case Closed => (rt.(streams := rt.streams - {id}), Some(Interrupted))
  }

  function FinishStream(rt: Runtime, id: U32): Runtime
    requires id in rt.streams ==> rt.streams[id] < |rt.chans|
  {
    if id in rt.streams then Retire(rt, id, End) else rt
  }

  function ResetStream(rt: Runtime, id: U32, why: CommandResult): Runtime
    requires id in rt.streams ==> rt.streams[id] < |rt.chans|
  {
    if id in rt.streams then Retire(rt, id, Abort(Reason(ResultCode(why), "control stream reset"))) else rt
  }

  /** One decoded frame on an open runtime: the new state and the frame sent in reply, if any. */
  function HandleFrame(rt: Runtime, f: Frame, env: Consult): (Runtime, Option<Frame>)
    requires f.id in rt.streams ==> rt.streams[f.id] < |rt.chans|
    requires f.id in rt.pending ==> rt.pending[f.id].chan < |rt.chans|
  {
    match f
    case Open(id, purpose) =>
      var (rt', result) := HandleOpen(rt, id, purpose, env); (rt', Some(OpenResp(id, result)))
    case OpenResp(id, result) => (HandleOpenResp(rt, id, result), None)
    case Data(id, bytes) =>
      var (rt', failure) := Deliver(rt, id, bytes);
      (rt', if failure.Some? then Some(Frame.Reset(id, failure.value)) else None)
    case Fin(id) => (FinishStream(rt, id), None)
    case Reset(id, why) => (ResetStream(rt, id, why), None)
    case Window(_, _) => (rt, None)
  }

  /** A pending open is failed: its waiter is told, and its queue gets the terminal item. */
  function FailPending(c: Chan, reason: Reason): Chan {
    TrySend(c.(waiter := if c.waiter == Waiting then Answered(false) else c.waiter), Abort(reason)).0
  }

  ghost function CloseChan(rt: Runtime, h: nat, reason: Reason): Chan
    requires h < |rt.chans|
  {
    var c := rt.chans[h];
    if HoldsStream(rt, h) then TrySend(c, Abort(reason)).0
    else if HoldsPending(rt, h) then FailPending(c, reason)
    else c
  }

  ghost function CloseAll(rt: Runtime, reason: Reason): Runtime {
    if rt.closed then rt
    else rt.(closed := true, reason := Some(reason), listening := false,
             streams := map[], pending := map[],
             chans := seq(|rt.chans|, h requires 0 <= h < |rt.chans| => CloseChan(rt, h, reason)))
  }

  /** The receiver half of a channel is dropped: the queue is drained and closed. */
  function DropReceiver(rt: Runtime, h: nat): Runtime
    requires h < |rt.chans|
  {
    rt.(chans := rt.chans[h := rt.chans[h].(queue := [], alive := false)])
  }

  /** The future of an unanswered `open` is dropped: its waiter and its receiver go. */
  function AbandonOpen(rt: Runtime, h: nat): Runtime
    requires h < |rt.chans|
  {
    rt.(chans := rt.chans[h := rt.chans[h].(queue := [], alive := false, waiter := Gone)])
  }

  /** `PendingOpenCleanup::drop`. */
  function CleanupOpen(rt: Runtime, id: U32): Runtime {
    rt.(pending := rt.pending - {id})
  }

  /** A reader pops the head of its queue. */
  function TakeItem(rt: Runtime, h: nat): Runtime
    requires h < |rt.chans| && rt.chans[h].queue != []
  {
    rt.(chans := rt.chans[h := rt.chans[h].(queue := rt.chans[h].queue[1..])])
  }

  // ---------------------------------------------------------------- the invariant is kept

  lemma NthParity(next: U32, k: nat)
    ensures Nth(next, k) % 2 == next % 2
    ensures (Nth(next, k) + 2) % ID_SPACE % 2 == next % 2
  {
    WrapKeepsParity(next + 2 * k);
    WrapKeepsParity(Nth(next, k) + 2);
  }

  lemma WrapKeepsParity(x: nat)
    ensures x % ID_SPACE % 2 == x % 2
  {
    var q, r := x / ID_SPACE, x % ID_SPACE;
    assert x == 2 * (0x8000_0000 * q) + r;
  }

  lemma NthNext(next: U32, k: nat)
    ensures Nth(next, k + 1) == (Nth(next, k) + 2) % ID_SPACE
  {
    var x := next + 2 * k;
    var q, r := x / ID_SPACE, x % ID_SPACE;
    assert x + 2 == ID_SPACE * q + (r + 2);
  }

  /** The next `n` values of the counter. */
  ghost function Upcoming(next: U32, n: nat): (ids: seq<U32>)
    ensures |ids| == n && forall k :: 0 <= k < n ==> ids[k] == Nth(next, k)
    ensures forall k :: 0 <= k < n - 1 ==> ids[k + 1] == (ids[k] + 2) % ID_SPACE
    ensures n > 0 ==> ids[0] == next
  {
    if n == 0 then []
    else
      NthFirst(next);
      if n > 1 then NthNext(next, n - 2); Upcoming(next, n - 1) + [Nth(next, n - 1)] else [Nth(next, 0)]
  }

  lemma NthFirst(next: U32)
    ensures Nth(next, 0) == next
  {
  }

  /** How many values the counter hands out before it reaches `i`. */
  function StepsTo(next: U32, i: U32): nat {
    if next <= i then (i - next) / 2 else (i + ID_SPACE - next) / 2
  }

  lemma StepsReach(next: U32, i: U32)
    requires i % 2 == next % 2
    ensures Nth(next, StepsTo(next, i)) == i
  {
  }

  lemma BeginOpenValid(rt: Runtime, k: nat, purpose: Purpose)
    requires Valid(rt) && !rt.closed && Free(rt, Nth(rt.next, k))
    ensures Valid(BeginOpen(rt, k, purpose))
  {
    NthParity(rt.next, k);
  }

  lemma HandleOpenValid(rt: Runtime, id: U32, purpose: Purpose, env: Consult)
    requires Valid(rt)
    ensures Valid(HandleOpen(rt, id, purpose, env).0)
  {
  }

  lemma AnswerValid(rt: Runtime, id: U32, w: Waiter)
    requires Valid(rt) && id in rt.pending
    ensures var h := rt.pending[id].chan;
      Valid(rt.(pending := rt.pending - {id}, chans := rt.chans[h := rt.chans[h].(waiter := w)]))
  {
  }

  lemma RegisterValid(rt: Runtime, id: U32, h: nat)
    requires Valid(rt) && !rt.closed && id != 0 && id !in rt.pending && id !in rt.streams
    requires h < |rt.chans| && rt.chans[h].id == id && rt.chans[h].queue == []
    ensures Valid(rt.(streams := rt.streams[id := h]))
  {
  }

  lemma HandleOpenRespValid(rt: Runtime, id: U32, result: CommandResult)
    requires Valid(rt)
    ensures Valid(HandleOpenResp(rt, id, result))
  {
    if id in rt.pending && rt.chans[rt.pending[id].chan].waiter == Waiting {
      var h := rt.pending[id].chan;
      var rt1 := rt.(pending := rt.pending - {id},
                     chans := rt.chans[h := rt.chans[h].(waiter := Answered(result == Success))]);
      AnswerValid(rt, id, Answered(result == Success));
      if result == Success { RegisterValid(rt1, id, h); }
    }
  }

  lemma RetireValid(rt: Runtime, id: U32, last: Item)
    requires Valid(rt) && id in rt.streams
    ensures Valid(Retire(rt, id, last))
  {
  }

  /** The `Full` arm of delivery is dead: a registered queue always has a slot beyond the reserve. */
  lemma DeliverValid(rt: Runtime, id: U32, bytes: Bytes)
    requires Valid(rt)
    ensures Valid(Deliver(rt, id, bytes).0)
    ensures id in rt.streams && |rt.chans[rt.streams[id]].queue| < QUEUE_CAPACITY ==>
      TrySend(rt.chans[rt.streams[id]], Chunk(bytes)).1 != Full
  {
    if id in rt.streams {
      var c := rt.chans[rt.streams[id]];
      if |c.queue| >= QUEUE_CAPACITY {
        RetireValid(rt, id, Abort(QueueFull));
      } else if c.alive {
        var q := c.queue + [Chunk(bytes)];
        assert AllChunks(q);
      }
    }
  }

  // ---------------------------------------------------------------- what each frame does

  /** A channel takes 1025 items: 1024, and one more that is kept for the terminal item. */
  lemma SendMeaning(c: Chan, x: Item)
    ensures var (c', sent) := TrySend(c, x);
      && (sent == Closed <==> !c.alive) && (sent == Full <==> c.alive && |c.queue| >= 1025)
      && c' == if sent == Sent then c.(queue := c.queue + [x]) else c
  {
  }

  /** All of `rt` but the stream of `id`, whose channel now is `c` and is registered if `stays`. */
  ghost predicate OnlyStream(rt: Runtime, rt': Runtime, id: U32, c: Chan, stays: bool)
    requires id in rt.streams && rt.streams[id] < |rt.chans|
  {
    rt' == rt.(streams := if stays then rt.streams else rt.streams - {id}, chans := rt.chans[rt.streams[id] := c])
  }

  /** Data for a registered stream is queued, and nothing else changes, exactly when its reader is there and fewer
      than 1024 items wait; otherwise the stream goes down, with the overflow as its last item. */
  lemma DeliveredOrDown(rt: Runtime, id: U32, bytes: Bytes)
    requires Valid(rt) && id in rt.streams
    ensures var (rt', failure) := Deliver(rt, id, bytes); var c := rt.chans[rt.streams[id]];
      && (failure.None? <==> c.alive && |c.queue| < 1024)
      && (failure.Some? ==> failure.value == if c.alive then AcceptQueueFull else Interrupted)
      && (failure.None? ==> OnlyStream(rt, rt', id, c.(queue := c.queue + [Chunk(bytes)]), true))
      && (failure.Some? && c.alive ==>
            OnlyStream(rt, rt', id,
                       c.(queue := c.queue + [Abort(Reason(CodeOutOfLimit, "control stream inbound queue full"))]), false))
      && (failure.Some? && !c.alive ==> OnlyStream(rt, rt', id, c, false))
  {
  }

  /** A Fin puts the end after what is queued, for a reader that is there, and unregisters the stream; a Reset does the
      same with its reason; nothing else changes, and without such a stream nothing at all. */
  lemma FinishedOrReset(rt: Runtime, id: U32, why: CommandResult)
    requires Valid(rt)
    ensures id !in rt.streams ==> FinishStream(rt, id) == rt && ResetStream(rt, id, why) == rt
    ensures id in rt.streams ==> var c := rt.chans[rt.streams[id]];
      && OnlyStream(rt, FinishStream(rt, id), id, if c.alive then c.(queue := c.queue + [End]) else c, false)
      && OnlyStream(rt, ResetStream(rt, id, why), id,
                    if c.alive then c.(queue := c.queue + [Abort(Reason(ResultCode(why), "control stream reset"))]) else c,
                    false)
  {
  }

  /** The answer to an open, and that only success registers the stream: with an empty queue and a live reader. */
  lemma OpenAnswered(rt: Runtime, id: U32, purpose: Purpose, env: Consult)
    requires Valid(rt)
    ensures var (rt', result) := HandleOpen(rt, id, purpose, env);
      var local := id == 0 || id % 2 == rt.parity; var taken := id in rt.pending || id in rt.streams;
      && (result == InvalidParam <==> local)
      && (result == ConflictLost <==> !local && taken)
      && (result == ListenerClosed <==> !local && !taken && !rt.listening)
      && (result == PortNotListen <==> !local && !taken && rt.listening && !env.admits)
      && (result == Retired <==> !local && !taken && rt.listening && env.admits && !env.prepared)
      && (result == Success <==> !local && !taken && rt.listening && env.admits && env.prepared)
      && (result == Success ==>
            rt' == rt.(chans := rt.chans + [Chan(id, [], true, NoWaiter)], streams := rt.streams[id := |rt.chans|]))
      && (result == Retired ==> rt' == rt.(chans := rt.chans + [Chan(id, [], false, NoWaiter)]))
      && (result != Success && result != Retired ==> rt' == rt)
  {
  }

  /** An answer removes its pending open; a waiter that is there is told, and success registers the stream for it. */
  lemma AnsweredOpen(rt: Runtime, id: U32, result: CommandResult)
    requires Valid(rt)
    ensures id !in rt.pending ==> HandleOpenResp(rt, id, result) == rt
    ensures id in rt.pending ==> var rt' := HandleOpenResp(rt, id, result); var h := rt.pending[id].chan; var c := rt.chans[h];
      && rt'.pending == rt.pending - {id} && rt'.closed == rt.closed && rt'.next == rt.next && rt'.listening == rt.listening
      && (c.waiter != Waiting ==> rt'.chans == rt.chans && rt'.streams == rt.streams)
      && (c.waiter == Waiting ==> rt'.chans == rt.chans[h := c.(waiter := Answered(result == Success))])
      && (c.waiter == Waiting && result == Success ==> rt'.streams == rt.streams[id := h])
      && (result != Success ==> rt'.streams == rt.streams)
  {
  }

  /** What is sent back: an answer to every open, a Reset for data that could not be taken, and nothing otherwise. */
  lemma FrameReplies(rt: Runtime, f: Frame, env: Consult)
    requires Valid(rt)
    ensures var (rt', reply) := HandleFrame(rt, f, env);
      && (f.Open? ==> reply == Some(OpenResp(f.id, HandleOpen(rt, f.id, f.purpose, env).1)))
      && (f.Data? && f.id in rt.streams ==>
            var c := rt.chans[rt.streams[f.id]];
            reply == if c.alive && |c.queue| < 1024 then None
                     else Some(Frame.Reset(f.id, if c.alive then AcceptQueueFull else Interrupted)))
      && (f.Data? && f.id !in rt.streams ==> reply.None? && rt' == rt)
      && (!f.Open? && !f.Data? ==> reply.None?)
      && (f.Window? ==> rt' == rt)
  {
  }

  /** Closing: the first reason stays; every registered or pending channel whose reader is there gets it as its last
      item, and every waiter of a pending open is told of the failure. */
  lemma ClosedAll(rt: Runtime, reason: Reason, h: nat)
    requires Valid(rt) && h < |rt.chans|
    ensures rt.closed ==> CloseAll(rt, reason) == rt
    ensures !rt.closed ==> var rt' := CloseAll(rt, reason); var c := rt.chans[h];
      && rt'.closed && rt'.reason == Some(reason) && !rt'.listening && rt'.streams == map[] && rt'.pending == map[]
      && rt'.next == rt.next && rt'.parity == rt.parity && |rt'.chans| == |rt.chans|
      && rt'.chans[h].id == c.id && rt'.chans[h].alive == c.alive
      && rt'.chans[h].queue == (if Held(rt, h) && c.alive then c.queue + [Abort(reason)] else c.queue)
      && rt'.chans[h].waiter ==
           if HoldsPending(rt, h) && !HoldsStream(rt, h) && c.waiter == Waiting then Answered(false) else c.waiter
  {
    if !rt.closed { assert CloseAll(rt, reason).chans[h] == CloseChan(rt, h, reason); }
  }

  lemma CloseAllValid(rt: Runtime, reason: Reason)
    requires Valid(rt)
    ensures Valid(CloseAll(rt, reason))
  {
    if !rt.closed {
      var rt' := CloseAll(rt, reason);
      forall h | 0 <= h < |rt'.chans| ensures ChanOk(rt'.chans[h]) {
        assert ChanOk(rt.chans[h]);
        assert rt'.chans[h] == CloseChan(rt, h, reason);
      }
    }
  }

  lemma EmptiedValid(rt: Runtime, h: nat, c: Chan)
    requires Valid(rt) && h < |rt.chans| && c.id == rt.chans[h].id && c.queue == []
    ensures Valid(rt.(chans := rt.chans[h := c]))
  {
  }

  /** Dropping a receiver, abandoning an open and cleaning up after it keep the invariant. */
  lemma ReceiverStepsValid(rt: Runtime, h: nat, id: U32)
    requires Valid(rt) && h < |rt.chans|
    ensures Valid(DropReceiver(rt, h))
    ensures Valid(AbandonOpen(rt, h))
    ensures Valid(CleanupOpen(rt, id))
  {
    EmptiedValid(rt, h, DropReceiver(rt, h).chans[h]);
    EmptiedValid(rt, h, AbandonOpen(rt, h).chans[h]);
  }

  lemma TakeItemValid(rt: Runtime, h: nat)
    requires Valid(rt) && h < |rt.chans| && rt.chans[h].queue != []
    ensures Valid(TakeItem(rt, h))
  {
    assert forall x :: x in rt.chans[h].queue[1..] ==> x in rt.chans[h].queue;
  }
}
