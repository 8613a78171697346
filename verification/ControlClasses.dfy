/** The runtime, the reader and the writer as the objects they are: every method updates the fields in place
    and is proved against the functions that the whole-run results are about. */
module ControlClasses {
  import opened Wrappers
  import opened ControlTypes
  import S = ControlRuntime
  import R = ControlReader
  import W = ControlWriter

  /** A payload handed up by the tunnel. */
  datatype Payload = Oversized | Undecodable | Decoded(frame: Frame)

  // ---------------------------------------------------------------- draining the maps of a closing runtime

  ghost predicate StreamsWired(rt: S.Runtime) {
    forall i :: i in rt.streams ==> rt.streams[i] < |rt.chans| && rt.chans[rt.streams[i]].id == i
  }

  /** The streams of `rt` that are not in `left` have their Reset. */
  ghost predicate StreamsDrained(rt: S.Runtime, left: map<U32, nat>, chans: seq<S.Chan>, why: Reason) {
    && |chans| == |rt.chans| && (forall i :: i in left ==> i in rt.streams && left[i] == rt.streams[i])
    && forall h :: 0 <= h < |chans| ==>
         chans[h] == if S.HoldsStream(rt, h) && rt.chans[h].id !in left then S.TrySend(rt.chans[h], Abort(why)).0 else rt.chans[h]
  }

  lemma StreamDrained(rt: S.Runtime, left: map<U32, nat>, chans: seq<S.Chan>, why: Reason, i: U32)
    requires StreamsWired(rt) && StreamsDrained(rt, left, chans, why) && i in left
    ensures left[i] < |chans|
    ensures StreamsDrained(rt, left - {i}, chans[left[i] := S.TrySend(chans[left[i]], Abort(why)).0], why)
  {
    assert rt.chans[left[i]].id == i;
  }

  ghost predicate PendingWired(rt: S.Runtime) {
    forall i :: i in rt.pending ==> rt.pending[i].chan < |rt.chans| && rt.chans[rt.pending[i].chan].id == i
  }

  ghost predicate PendingDrained(rt: S.Runtime, left: map<U32, S.Pending>, chans: seq<S.Chan>, why: Reason) {
    && |chans| == |rt.chans| && (forall i :: i in left ==> i in rt.pending && left[i] == rt.pending[i])
    && forall h :: 0 <= h < |chans| ==>
         chans[h] == if S.HoldsPending(rt, h) && rt.chans[h].id !in left then S.FailPending(rt.chans[h], why) else rt.chans[h]
  }

  lemma PendingOneDrained(rt: S.Runtime, left: map<U32, S.Pending>, chans: seq<S.Chan>, why: Reason, i: U32)
    requires PendingWired(rt) && PendingDrained(rt, left, chans, why) && i in left
    ensures left[i].chan < |chans|
    ensures PendingDrained(rt, left - {i}, chans[left[i].chan := S.FailPending(chans[left[i].chan], why)], why)
  {
    assert rt.chans[left[i].chan].id == i;
  }

  /** Both drains together close every channel. */
  lemma BothDrained(rt: S.Runtime, drained: S.Runtime, chans: seq<S.Chan>, why: Reason)
    requires S.PendingOk(rt) && !rt.closed && |drained.chans| == |rt.chans| == |chans| && drained.pending == rt.pending
    requires forall h :: 0 <= h < |rt.chans| ==>
      drained.chans[h] == if S.HoldsStream(rt, h) then S.TrySend(rt.chans[h], Abort(why)).0 else rt.chans[h]
    requires forall h :: 0 <= h < |chans| ==>
      chans[h] == if S.HoldsPending(drained, h) then S.FailPending(drained.chans[h], why) else drained.chans[h]
    ensures chans == S.CloseAll(rt, why).chans
  {
    forall h | 0 <= h < |chans| ensures chans[h] == S.CloseChan(rt, h, why) {
      assert drained.chans[h].id == rt.chans[h].id;
    }
  }

  class ControlStreamRuntime {
    const parity: nat
    var next: U32
    var streams: map<U32, nat>
    var pending: map<U32, S.Pending>
    var chans: seq<S.Chan>
    var listening: bool
    var closed: bool
    var reason: Option<Reason>

    ghost function State(): S.Runtime
      reads this
    {
      S.Runtime(parity, next, streams, pending, chans, listening, closed, reason)
    }

    ghost predicate Valid()
      reads this
    {
      S.Valid(State())
    }

    constructor (initiator: bool)
      ensures Valid() && State() == S.Create(initiator)
    {
      var first := if initiator then 1 else 2;
      parity, next := first % 2, first;
      streams, pending, chans := map[], map[], [];
      listening, closed, reason := false, false, None;
    }

    method ListenWithPrepare() returns (failed: Option<Reason>)
      requires Valid()
      modifies this
      ensures Valid() && State() == S.Listen(old(State()))
      ensures failed == old(reason) && (failed.Some? <==> old(closed))
    {
      failed := reason;
      if !closed { listening := true; }
    }

    /** `ids` are the values the counter takes next; the last of them is free. */
    method FirstFree(ghost ids: seq<U32>) returns (id: U32, ghost skipped: nat)
      requires ids != [] && ids[0] == next && S.Free(State(), ids[|ids| - 1])
      requires forall k :: 0 <= k < |ids| - 1 ==> ids[k + 1] == (ids[k] + 2) % ID_SPACE
      modifies this`next
      ensures skipped < |ids| && id == ids[skipped] && next == (id + 2) % ID_SPACE
      ensures S.Free(old(State()), id) && forall j :: 0 <= j < skipped ==> !S.Free(old(State()), ids[j])
    {
      ghost var rt := State();
      skipped := 0;
      while true
        invariant skipped < |ids| && next == ids[skipped] && State() == rt.(next := next)
        invariant forall j :: 0 <= j < skipped ==> !S.Free(rt, ids[j])
        decreases |ids| - skipped
      {
        id := next;
        next := (next + 2) % ID_SPACE;
        if id != 0 && id !in pending && id !in streams {
          break;
        }
        assert !S.Free(rt, id);
        skipped := skipped + 1;
      }
    }

    /** The counter reaches every id of its own parity, so the loop ends as soon as one of them is free. */
    method AllocStreamId() returns (id: U32, ghost skipped: nat)
      requires Valid()
      requires exists i: U32 :: i % 2 == parity && S.Free(State(), i)
      modifies this`next
      ensures id == S.Nth(old(next), skipped) && S.AllocatesAfter(old(State()), skipped)
      ensures id != 0 && id % 2 == parity && id !in pending && id !in streams
      ensures next == (id + 2) % ID_SPACE && Valid()
    {
      ghost var i: U32 :| i % 2 == parity && S.Free(State(), i);
      ghost var ids := S.Upcoming(next, S.StepsTo(next, i) + 1);
      S.StepsReach(next, i);
      S.NthParity(next, 0);
      id, skipped := FirstFree(ids);
      S.NthParity(old(next), skipped);
    }

    /** `open` up to the frame it sends. */
    method BeginOpen(purpose: Purpose) returns (failed: Option<Reason>, id: U32, ghost skipped: nat)
      requires Valid()
      requires exists i: U32 :: i % 2 == parity && S.Free(State(), i)
      modifies this
      ensures Valid()
      ensures old(closed) ==> failed == old(reason) && failed.Some? && State() == old(State())
      ensures !old(closed) ==>
        && failed.None? && S.AllocatesAfter(old(State()), skipped) && id == S.Nth(old(next), skipped)
        && State() == S.BeginOpen(old(State()), skipped, purpose)
    {
      failed, id, skipped := reason, 0, 0;
      if closed { return; }
      ghost var rt := State();
      id, skipped := AllocStreamId();
      pending := pending[id := S.Pending(purpose, |chans|)];
      chans := chans + [S.Chan(id, [], true, S.Waiting)];
      S.BeginOpenValid(rt, skipped, purpose);
    }

    method HandleOpen(id: U32, purpose: Purpose, env: S.Consult) returns (result: CommandResult)
      requires Valid()
      modifies this`streams, this`chans
      ensures Valid() && (State(), result) == S.HandleOpen(old(State()), id, purpose, env)
      ensures result == InvalidParam <==> id == 0 || id % 2 == parity
      ensures result == ConflictLost <==> id != 0 && id % 2 != parity && (id in old(pending) || id in old(streams))
      ensures result == Success ==> streams == old(streams)[id := |old(chans)|] && listening && env.admits && env.prepared
      ensures result != Success ==> streams == old(streams)
    {
      S.HandleOpenValid(State(), id, purpose, env);
      S.OpenAnswered(State(), id, purpose, env);
      if id == 0 || id % 2 == parity { return InvalidParam; }
      if id in pending || id in streams { return ConflictLost; }
      if !listening { return ListenerClosed; }
      if !env.admits { return PortNotListen; }
      streams := streams[id := |chans|];
      if env.prepared {
        chans := chans + [S.Chan(id, [], true, S.NoWaiter)];
        result := Success;
      } else {
        chans := chans + [S.Chan(id, [], false, S.NoWaiter)];
        streams := streams - {id};
        assert streams == old(streams);
        result := Retired;
      }
    }

    method HandleOpenResp(id: U32, result: CommandResult)
      requires Valid()
      modifies this`pending, this`streams, this`chans
      ensures Valid() && State() == S.HandleOpenResp(old(State()), id, result)
      ensures id !in pending && (id !in old(pending) ==> State() == old(State()))
    {
      S.HandleOpenRespValid(State(), id, result);
      if id !in pending { return; }
      var h := pending[id].chan;
      pending := pending - {id};
      if chans[h].waiter == S.Waiting {
        chans := chans[h := chans[h].(waiter := S.Answered(result == Success))];
        if result == Success { streams := streams[id := h]; }
      }
    }

    method Deliver(id: U32, bytes: Bytes) returns (failure: Option<CommandResult>)
      requires Valid()
      modifies this`streams, this`chans
      ensures Valid() && (State(), failure) == S.Deliver(old(State()), id, bytes)
      ensures failure.Some? ==> id in old(streams) && id !in streams
      ensures id in old(streams) ==> var c := old(chans)[old(streams)[id]];
        && (failure.None? <==> c.alive && |c.queue| < 1024)
        && (failure.None? ==> chans == old(chans)[old(streams)[id] := c.(queue := c.queue + [Chunk(bytes)])])
    {
      S.DeliverValid(State(), id, bytes);
      if id in streams { S.DeliveredOrDown(State(), id, bytes); }
      failure := None;
      if id !in streams { return; }
      var h := streams[id];
      if QUEUE_CAPACITY + TERMINAL_RESERVE - |chans[h].queue| <= TERMINAL_RESERVE {
        streams := streams - {id};
        chans := chans[h := S.TrySend(chans[h], Abort(S.QueueFull)).0];
        failure := Some(AcceptQueueFull);
      } else {
        var (c, sent) := S.TrySend(chans[h], Chunk(bytes));
        if sent == S.Sent {
          chans := chans[h := c];
        } else {
          streams := streams - {id};
          failure := Some(Interrupted);
        }
      }
    }

    method FinishStream(id: U32)
      requires Valid()
      modifies this`streams, this`chans
      ensures Valid() && State() == S.FinishStream(old(State()), id) && id !in streams
      ensures id !in old(streams) ==> chans == old(chans)
      ensures id in old(streams) ==> var c := old(chans)[old(streams)[id]];
        chans == old(chans)[old(streams)[id] := if c.alive then c.(queue := c.queue + [End]) else c]
    {
      S.FinishedOrReset(State(), id, Success);
      if id in streams {
        S.RetireValid(State(), id, End);
        var h := streams[id];
        streams := streams - {id};
        chans := chans[h := S.TrySend(chans[h], End).0];
      }
    }

    method ResetStream(id: U32, why: CommandResult)
      requires Valid()
      modifies this`streams, this`chans
      ensures Valid() && State() == S.ResetStream(old(State()), id, why) && id !in streams
      ensures id !in old(streams) ==> chans == old(chans)
      ensures id in old(streams) ==> var c := old(chans)[old(streams)[id]];
        var last := Abort(Reason(ResultCode(why), "control stream reset"));
        chans == old(chans)[old(streams)[id] := if c.alive then c.(queue := c.queue + [last]) else c]
    {
      S.FinishedOrReset(State(), id, why);
      if id in streams {
        var last := Abort(Reason(ResultCode(why), "control stream reset"));
        S.RetireValid(State(), id, last);
        var h := streams[id];
        streams := streams - {id};
        chans := chans[h := S.TrySend(chans[h], last).0];
      }
    }

    /** A Reset for every registered queue. */
    method DrainStreams(why: Reason)
      requires StreamsWired(State())
      modifies this`streams, this`chans
      ensures streams == map[] && |chans| == |old(chans)|
      ensures forall h :: 0 <= h < |chans| ==>
        chans[h] == if S.HoldsStream(old(State()), h) then S.TrySend(old(chans)[h], Abort(why)).0 else old(chans)[h]
    {
      ghost var rt := State();
      while streams != map[]
        invariant StreamsDrained(rt, streams, chans, why)
        decreases |streams|
      {
        var i :| i in streams;
        StreamDrained(rt, streams, chans, why, i);
        chans := chans[streams[i] := S.TrySend(chans[streams[i]], Abort(why)).0];
        streams := streams - {i};
      }
    }

    /** An error for the waiter and a Reset for the queue of every pending open. */
    method DrainPending(why: Reason)
      requires PendingWired(State())
      modifies this`pending, this`chans
      ensures pending == map[] && |chans| == |old(chans)|
      ensures forall h :: 0 <= h < |chans| ==>
        chans[h] == if S.HoldsPending(old(State()), h) then S.FailPending(old(chans)[h], why) else old(chans)[h]
    {
      ghost var rt := State();
      while pending != map[]
        invariant PendingDrained(rt, pending, chans, why)
        decreases |pending|
      {
        var i :| i in pending;
        PendingOneDrained(rt, pending, chans, why, i);
        chans := chans[pending[i].chan := S.FailPending(chans[pending[i].chan], why)];
        pending := pending - {i};
      }
    }

    method CloseAll(why: Reason)
      requires Valid()
      modifies this
      ensures Valid() && State() == S.CloseAll(old(State()), why)
      ensures closed && reason == if old(closed) then old(reason) else Some(why)
      ensures |chans| == |old(chans)| && forall h :: 0 <= h < |chans| ==>
        chans[h].queue ==
          if !old(closed) && S.Held(old(State()), h) && old(chans)[h].alive then old(chans)[h].queue + [Abort(why)]
          else old(chans)[h].queue
    {
      forall h | 0 <= h < |chans| ensures S.CloseAll(State(), why).chans[h].queue ==
        if !closed && S.Held(State(), h) && chans[h].alive then chans[h].queue + [Abort(why)] else chans[h].queue
      {
        S.ClosedAll(State(), why, h);
      }
      ghost var rt := State();
      S.CloseAllValid(rt, why);
      if closed { return; }
      closed, reason := true, Some(why);
      DrainStreams(why);
      ghost var drained := State();
      DrainPending(why);
      listening := false;
      BothDrained(rt, drained, chans, why);
    }

    /** One payload from the tunnel: the error reported to it, if any, and the frame sent in reply, if any. */
    method OnData(payload: Payload, env: S.Consult) returns (failed: bool, reply: Option<Frame>)
      requires Valid()
      modifies this
      ensures Valid()
      ensures match payload
        case Oversized =>
          failed && reply.None?
          && State() == S.CloseAll(old(State()), Reason(CodeInvalidData, "control data payload exceeds 64KiB"))
        case Undecodable => failed && reply.None? && State() == old(State())
        case Decoded(f) =>
          if old(closed) then failed && reply.None? && State() == old(State())
          else !failed && (State(), reply) == S.HandleFrame(old(State()), f, env)
    {
      failed, reply := true, None;
      match payload {
        case Oversized => CloseAll(Reason(CodeInvalidData, "control data payload exceeds 64KiB"));
        case Undecodable =>
        case Decoded(f) =>
          if closed { return; }
          failed := false;
          match f {
            case Open(id, purpose) =>
              var result := HandleOpen(id, purpose, env);
              reply := Some(OpenResp(id, result));
            case OpenResp(id, result) => HandleOpenResp(id, result);
            case Data(id, bytes) =>
              var failure := Deliver(id, bytes);
              if failure.Some? { reply := Some(Frame.Reset(id, failure.value)); }
            case Fin(id) => FinishStream(id);
            case Reset(id, why) => ResetStream(id, why);
            case Window(_, _) =>
          }
      }
    }
  }

  class ControlStreamRead {
    var rx: seq<Item>
    var pending: Bytes
    var pendingOffset: nat

    ghost predicate Valid()
      reads this
    {
      R.ReaderOk(R.Reader(pending, pendingOffset))
    }

    ghost function Remaining(): Bytes
      reads this
    {
      R.Remaining(R.Reader(pending, pendingOffset), rx)
    }

    constructor (queue: seq<Item>)
      ensures Valid() && rx == queue && Remaining() == QueueBytes(queue)
    {
      rx, pending, pendingOffset := queue, [], 0;
    }

    /** One poll with a buffer of `room` bytes; `held`: a sender for the queue still exists. */
    method PollRead(room: nat, held: bool) returns (res: R.ReadResult)
      requires Valid()
      modifies this
      ensures Valid()
      ensures var (r, popped, out) := R.PollRead(R.Reader(old(pending), old(pendingOffset)), old(rx), held, room);
        && res == out && R.Reader(pending, pendingOffset) == r
        && (popped ==> old(rx) != []) && rx == R.Rest(old(rx), popped)
      ensures R.Output(res) + Remaining() == old(Remaining()) && |R.Output(res)| <= room
    {
      ghost var r, queue := R.Reader(pending, pendingOffset), rx;
      res := Poll(room, held);
      R.PollReadRemaining(r, queue, held, room);
    }

    /** The branches of the poll. */
    method Poll(room: nat, held: bool) returns (res: R.ReadResult)
      requires Valid()
      modifies this
      ensures var (r, popped, out) := R.PollRead(R.Reader(old(pending), old(pendingOffset)), old(rx), held, room);
        && res == out && R.Reader(pending, pendingOffset) == r
        && (popped ==> old(rx) != []) && rx == R.Rest(old(rx), popped)
    {
      if pendingOffset < |pending| {
        var start := pendingOffset;
        var len := Min(|pending| - start, room);
        res := R.Ready(pending[start..start + len]);
        pendingOffset := pendingOffset + len;
        if pendingOffset == |pending| {
          pending, pendingOffset := [], 0;
        }
        return;
      }
      if rx == [] {
        return if held then R.NotReady else R.Ready([]);
      }
      var item := rx[0];
      rx := rx[1..];
      match item {
        case Chunk(bytes) =>
          var len := Min(|bytes|, room);
          res := R.Ready(bytes[..len]);
          if len < |bytes| {
            pending, pendingOffset := bytes, len;
          }
        case End => res := R.Ready([]);
        case Abort(why) => res := R.Failed(why);
      }
    }
  }

  class ControlStreamWrite {
    const id: U32
    var pendingWrite: Option<Bytes>
    var pendingWriteLen: nat
    var pendingShutdown: bool
    var closed: bool

    ghost function State(): W.Writer
      reads this
    {
      W.Writer(id, pendingWrite, pendingWriteLen, pendingShutdown, closed)
    }

    ghost predicate Valid()
      reads this
    {
      W.WriterOk(State())
    }

    constructor (streamId: U32)
      ensures Valid() && State() == W.NewWriter(streamId)
      ensures pendingWrite.None? && !pendingShutdown && !closed
    {
      id, pendingWrite, pendingWriteLen, pendingShutdown, closed := streamId, None, 0, false, false;
    }

    method PollPendingWrite(env: W.Env) returns (sent: seq<Frame>, res: W.WriteResult)
      modifies this`pendingWrite, this`pendingWriteLen, this`closed
      ensures (State(), sent, res) == W.PollInFlight(old(State()), env)
    {
      sent := [];
      if env.closed {
        pendingWrite, pendingWriteLen, closed := None, 0, true;
        return sent, W.Error;
      }
      if pendingWrite.None? { return sent, W.Accepted(0); }
      match env.data {
        case NotYet => res := W.Pending;
        case Broken =>
          pendingWrite, pendingWriteLen, closed := None, 0, true;
          res := W.Error;
        case Done =>
          sent := [Data(id, pendingWrite.value)];
          var len := pendingWriteLen;
          pendingWrite, pendingWriteLen := None, 0;
          if env.closedAfter {
            closed := true;
            res := W.Error;
          } else {
            res := W.Accepted(len);
          }
      }
    }

    method PollWrite(src: Bytes, env: W.Env) returns (sent: seq<Frame>, res: W.WriteResult)
      requires Valid()
      modifies this`pendingWrite, this`pendingWriteLen, this`closed
      ensures Valid() && (State(), sent, res) == W.PollWrite(old(State()), src, env)
      ensures forall f :: f in sent ==> f.Data? && f.id == id && 1 <= |f.bytes| <= 61440
      ensures res.Accepted? && old(pendingWrite).None? ==> res.n == Min(|src|, 61440)
      ensures res.Accepted? && old(pendingWrite).None? && src != [] ==> sent == [Data(id, src[..res.n])]
    {
      W.WriteMeaning(State(), src, env, if pendingWrite.Some? then pendingWrite.value else W.Head(src));
      W.CallFrames(State(), W.Write(src), env);
      if closed || env.closed {
        closed := true;
        return [], W.Error;
      }
      if pendingWrite.None? {
        if src == [] { return [], W.Accepted(0); }
        var len := Min(|src|, WRITE_CHUNK);
        pendingWrite, pendingWriteLen := Some(src[..len]), len;
        assert src[..len] == W.Head(src);
      }
      sent, res := PollPendingWrite(env);
    }

    method PollFlush(env: W.Env) returns (sent: seq<Frame>, res: W.WriteResult)
      requires Valid()
      modifies this`pendingWrite, this`pendingWriteLen, this`closed
      ensures Valid() && (State(), sent, res) == W.PollFlush(old(State()), env)
      ensures res == W.Pending <==> old(pendingWrite).Some? && !env.closed && env.data == W.NotYet
      ensures res.Accepted? ==> res.n == 0 && pendingWrite.None?
    {
      W.FlushMeaning(State(), env);
      W.CallFrames(State(), W.Flush, env);
      sent, res := [], W.Accepted(0);
      if pendingWrite.Some? {
        sent, res := PollPendingWrite(env);
        if !res.Accepted? { return; }
      }
      if env.closedAfter {
        closed := true;
        res := W.Error;
      } else {
        res := W.Accepted(0);
      }
    }

    /** A pending write is completed before the Fin is sent, and nothing is sent after it. */
    method PollShutdown(env: W.Env) returns (sent: seq<Frame>, res: W.WriteResult)
      requires Valid()
      modifies this`pendingWrite, this`pendingWriteLen, this`pendingShutdown, this`closed
      ensures Valid() && (State(), sent, res) == W.PollShutdown(old(State()), env)
      ensures Fin(id) in sent ==> sent[|sent| - 1] == Fin(id) && W.Quiet(State())
      ensures res.Accepted? && !old(closed) ==> Fin(id) in sent && res.n == 0
      ensures res.Accepted? && !old(closed) && old(pendingWrite).Some? ==> sent == [Data(id, old(pendingWrite).value), Fin(id)]
    {
      W.ShutdownMeaning(State(), env);
      W.CallFrames(State(), W.Shutdown, env);
      sent, res := [], W.Accepted(0);
      if pendingWrite.Some? {
        sent, res := PollPendingWrite(env);
        if !res.Accepted? { return; }
      }
      res := W.Accepted(0);
      if env.closedAfter {
        pendingShutdown, closed := false, true;
        return sent, W.Error;
      }
      if !closed {
        pendingShutdown := true;
        match env.fin {
          case NotYet => res := W.Pending;
          case Broken =>
            pendingShutdown, closed := false, true;
            res := W.Error;
          case Done =>
            sent := sent + [Fin(id)];
            pendingShutdown, closed := false, true;
            if env.closedEnd { res := W.Error; }
        }
      }
    }
  }
}
