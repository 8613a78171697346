/** What every step of an endpoint keeps, in every run: registered queues hold only chunks and leave the
    terminal slot free; a stream taken down under a live reader ends in exactly one terminal item. */
module ControlBase {
  import opened ControlTypes
  import opened ControlRuntime
  import opened ControlEndpoint
  import R = ControlReader
  import W = ControlWriter

  /** Closing puts the terminal item after the chunks of a registered queue. */
  lemma CloseChanBase(rt: Runtime, h: nat, s: StreamEnd, reason: Reason)
    requires Valid(rt) && h < |rt.chans| && EndOk(rt, h, s) && !rt.closed
    ensures EndOk(CloseAll(rt, reason), h, s)
  {
    var c := rt.chans[h];
    assert CloseAll(rt, reason).chans[h] == CloseChan(rt, h, reason);
    if HoldsStream(rt, h) && c.alive {
      SealedBy(c.queue, Abort(reason));
    }
  }

  lemma CloseAllBase(e: Endpoint, reason: Reason)
    requires BaseInv(e)
    ensures BaseInv(e.(rt := CloseAll(e.rt, reason)))
  {
    CloseAllValid(e.rt, reason);
    if !e.rt.closed {
      forall h | 0 <= h < |e.ends| ensures EndOk(CloseAll(e.rt, reason), h, e.ends[h]) {
        CloseChanBase(e.rt, h, e.ends[h], reason);
      }
    }
  }

  /** The half `h`, its channel and the maps that hold it are as before. */
  ghost predicate SameEnd(e: Endpoint, e': Endpoint, h: nat)
    requires h < |e.ends| && h < |e.rt.chans| && h < |e'.ends| && h < |e'.rt.chans|
  {
    && e'.rt.chans[h] == e.rt.chans[h] && e'.ends[h] == e.ends[h]
    && (HoldsStream(e.rt, h) <==> HoldsStream(e'.rt, h))
    && (HoldsPending(e.rt, h) <==> HoldsPending(e'.rt, h))
  }

  /** A step that touches one half only, or adds one, has to re-establish only that half. */
  lemma OneEndChanged(e: Endpoint, e': Endpoint, h: nat)
    requires BaseInv(e) && Valid(e'.rt) && e'.rt.parity == e.rt.parity
    requires |e.ends| <= |e'.ends| == |e'.rt.chans| <= |e.ends| + 1
    requires h < |e'.ends| && (|e.ends| < |e'.ends| ==> h == |e.ends|)
    requires forall g :: 0 <= g < |e.ends| && g != h ==> SameEnd(e, e', g)
    requires EndOk(e'.rt, h, e'.ends[h])
    ensures BaseInv(e')
  {
    forall g | 0 <= g < |e'.ends| ensures EndOk(e'.rt, g, e'.ends[g]) {
      if g != h { assert EndOk(e.rt, g, e.ends[g]) && SameEnd(e, e', g); }
    }
  }

  lemma OpenSentBase(e: Endpoint, k: nat, purpose: Purpose)
    requires BaseInv(e) && !e.rt.closed && AllocatesAfter(e.rt, k)
    ensures BaseInv(DoOpenStart(e, k, purpose, Delivered))
  {
    BeginOpenValid(e.rt, k, purpose);
    NthParity(e.rt.next, k);
    OneEndChanged(e, DoOpenStart(e, k, purpose, Delivered), |e.rt.chans|);
  }

  /** An open whose frame did not reach the link is the open, closed if the link broke, and taken back. */
  lemma OpenFailedShape(e: Endpoint, k: nat, purpose: Purpose, fate: SendFate)
    requires fate != Delivered && |e.ends| == |e.rt.chans|
    ensures var h := |e.rt.chans|;
      var e1 := DoOpenStart(e, k, purpose, Delivered);
      var rt := if fate.Lost? then CloseAll(e1.rt, fate.reason) else e1.rt;
      var e' := DoOpenStart(e, k, purpose, fate);
      && h < |e1.ends| == |rt.chans| && e'.rt == CleanupOpen(AbandonOpen(rt, h), rt.chans[h].id)
      && e'.ends == e1.ends[h := e1.ends[h].(phase := Over)]
  {
  }

  lemma OpenStartBase(e: Endpoint, k: nat, purpose: Purpose, fate: SendFate)
    requires BaseInv(e) && !e.rt.closed && AllocatesAfter(e.rt, k)
    ensures BaseInv(DoOpenStart(e, k, purpose, fate))
  {
    OpenSentBase(e, k, purpose);
    if fate != Delivered {
      var e1 := DoOpenStart(e, k, purpose, Delivered);
      if fate.Lost? { CloseAllBase(e1, fate.reason); }
      OpenFailedShape(e, k, purpose, fate);
      OpenFailedBase(e1.(rt := if fate.Lost? then CloseAll(e1.rt, fate.reason) else e1.rt), |e.rt.chans|,
                     DoOpenStart(e, k, purpose, fate));
    }
  }

  /** Every half survives that another one is taken back. */
  lemma AbandonedEnd(rt: Runtime, h: nat, g: nat, s: StreamEnd)
    requires h < |rt.chans| && g < |rt.chans| && EndOk(rt, g, s)
    ensures EndOk(CleanupOpen(AbandonOpen(rt, h), rt.chans[h].id), g, if g == h then s.(phase := Over) else s)
  {
  }

  lemma OpenFailedBase(e: Endpoint, h: nat, e': Endpoint)
    requires BaseInv(e) && h < |e.ends|
    requires e'.rt == CleanupOpen(AbandonOpen(e.rt, h), e.rt.chans[h].id)
    requires e'.ends == e.ends[h := e.ends[h].(phase := Over)]
    ensures BaseInv(e')
  {
    ReceiverStepsValid(e.rt, h, e.rt.chans[h].id);
    ReceiverStepsValid(AbandonOpen(e.rt, h), h, e.rt.chans[h].id);
    forall g | 0 <= g < |e.ends| ensures EndOk(e'.rt, g, e'.ends[g]) {
      assert EndOk(e.rt, g, e.ends[g]);
      AbandonedEnd(e.rt, h, g, e.ends[g]);
    }
  }

  lemma ReturnedEnd(e: Endpoint, h: nat, g: nat)
    requires Enabled(e, [], OpenReturn(h)) && g < |e.ends| && EndOk(e.rt, g, e.ends[g])
    ensures EndOk(DoOpenReturn(e, h).rt, g, DoOpenReturn(e, h).ends[g])
  {
  }

  /** An open that was answered with success hands out its reader and its writer; one that failed leaves no reader. In
      both cases it is no longer pending. A dropped open leaves neither reader nor waiter. */
  lemma OpenEnds(e: Endpoint, h: nat)
    requires h < |e.ends| == |e.rt.chans|
    ensures var c, e' := e.rt.chans[h], DoOpenReturn(e, h);
      && e'.rt.pending == e.rt.pending - {c.id} && e'.rt.streams == e.rt.streams
      && (c.waiter == Answered(true) ==> e'.ends[h].phase == Exposed && e'.rt.chans == e.rt.chans)
      && (c.waiter != Answered(true) ==>
            e'.ends[h].phase == Over && e'.rt.chans == e.rt.chans[h := c.(queue := [], alive := false)])
    ensures var c, e' := e.rt.chans[h], DoOpenDrop(e, h);
      && e'.ends[h].phase == Dropping && !e'.rt.chans[h].alive && e'.rt.chans[h].queue == [] && e'.rt.pending == e.rt.pending
      && e'.rt.chans[h].waiter == if c.waiter == Waiting then Gone else c.waiter
    ensures DoOpenCleanup(e, h).rt.pending == e.rt.pending - {e.rt.chans[h].id} && DoOpenCleanup(e, h).ends[h].phase == Over
  {
  }

  lemma OpenReturnBase(e: Endpoint, h: nat)
    requires BaseInv(e) && Enabled(e, [], OpenReturn(h))
    ensures BaseInv(DoOpenReturn(e, h))
  {
    ReceiverStepsValid(e.rt, h, e.rt.chans[h].id);
    ReceiverStepsValid(DropReceiver(e.rt, h), h, e.rt.chans[h].id);
    forall g | 0 <= g < |e.ends| ensures EndOk(DoOpenReturn(e, h).rt, g, DoOpenReturn(e, h).ends[g]) {
      assert EndOk(e.rt, g, e.ends[g]);
      ReturnedEnd(e, h, g);
    }
  }

  lemma OpenDropBase(e: Endpoint, h: nat)
    requires BaseInv(e) && Enabled(e, [], OpenDrop(h))
    ensures BaseInv(DoOpenDrop(e, h))
  {
    ReceiverStepsValid(e.rt, h, e.rt.chans[h].id);
    assert EndOk(e.rt, h, e.ends[h]);
    OneEndChanged(e, DoOpenDrop(e, h), h);
  }

  lemma OpenCleanupBase(e: Endpoint, h: nat)
    requires BaseInv(e) && Enabled(e, [], OpenCleanup(h))
    ensures BaseInv(DoOpenCleanup(e, h))
  {
    var e' := DoOpenCleanup(e, h);
    ReceiverStepsValid(e.rt, h, e.rt.chans[h].id);
    forall g | 0 <= g < |e.ends| ensures EndOk(e'.rt, g, e'.ends[g]) {
      assert EndOk(e.rt, g, e.ends[g]);
    }
  }

  lemma SealedTail(q: seq<Item>)
    requires Sealed(q) && q[0].Chunk?
    ensures Sealed(q[1..])
  {
    assert q[1..][..|q[1..]| - 1] == q[..|q| - 1][1..];
  }

  lemma ReadBase(e: Endpoint, inbox: seq<Frame>, h: nat, room: nat)
    requires BaseInv(e) && Enabled(e, inbox, Read(h, room))
    ensures BaseInv(DoRead(e, h, room))
  {
    assert EndOk(e.rt, h, e.ends[h]);
    ReadShape(e, h, room);
    var s := DoRead(e, h, room).ends[h];
    if R.PollRead(e.ends[h].reader, e.rt.chans[h].queue, Held(e.rt, h), room).1 {
      PopBase(e, h, s);
      OneEndChanged(e, e.(rt := TakeItem(e.rt, h), ends := e.ends[h := s]), h);
    } else {
      OneEndChanged(e, e.(ends := e.ends[h := s]), h);
    }
  }

  /** What a read changes: its own half, and at most the head of its own queue. */
  lemma ReadShape(e: Endpoint, h: nat, room: nat)
    requires h < |e.ends| == |e.rt.chans| && R.ReaderOk(e.ends[h].reader)
    ensures var q := e.rt.chans[h].queue;
      var e' := DoRead(e, h, room);
      var s := e'.ends[h];
      var popped := R.PollRead(e.ends[h].reader, q, Held(e.rt, h), room).1;
      && R.ReaderOk(s.reader)
      && (popped ==> q != [])
      && s == e.ends[h].(reader := s.reader, readOut := s.readOut,
                         taken := if popped && q[0] == End then TookEnd
                                  else if popped && q[0].Abort? then TookAbort
                                  else e.ends[h].taken)
      && e' == e.(rt := if popped then TakeItem(e.rt, h) else e.rt, ends := e.ends[h := s])
  {
    R.PollReadShape(e.ends[h].reader, e.rt.chans[h].queue, Held(e.rt, h), room);
  }

  /** Popping the head of a queue, and recording it when it is terminal. */
  lemma PopBase(e: Endpoint, h: nat, s: StreamEnd)
    requires BaseInv(e) && h < |e.ends| && e.ends[h].phase == Exposed && e.rt.chans[h].alive
    requires e.rt.chans[h].queue != [] && R.ReaderOk(s.reader)
    requires var head := e.rt.chans[h].queue[0];
      s == e.ends[h].(reader := s.reader, readOut := s.readOut,
                      taken := if head == End then TookEnd else if head.Abort? then TookAbort else e.ends[h].taken)
    ensures Valid(TakeItem(e.rt, h)) && EndOk(TakeItem(e.rt, h), h, s)
  {
    var q := e.rt.chans[h].queue;
    assert EndOk(e.rt, h, e.ends[h]);
    TakeItemValid(e.rt, h);
    if HoldsStream(e.rt, h) {
      assert q[0] in q;
    } else if q[0].Chunk? {
      SealedTail(q);
    }
  }

  lemma SendBase(e: Endpoint, h: nat, call: W.Call, wenv: W.Env)
    requires BaseInv(e) && h < |e.ends|
    ensures BaseInv(DoSend(e, h, call, wenv))
  {
    var e' := DoSend(e, h, call, wenv);
    assert EndOk(e.rt, h, e.ends[h]);
    W.CallFrames(e.ends[h].writer, call, wenv);
    forall g | 0 <= g < |e.ends| ensures EndOk(e'.rt, g, e'.ends[g]) {
      assert EndOk(e.rt, g, e.ends[g]);
    }
  }

  lemma DropReaderBase(e: Endpoint, h: nat)
    requires BaseInv(e) && h < |e.ends|
    requires !(HoldsPending(e.rt, h) && e.ends[h].phase == Opening)
    ensures BaseInv(e.(rt := DropReceiver(e.rt, h)))
  {
    var e' := e.(rt := DropReceiver(e.rt, h));
    forall g | 0 <= g < |e.ends| ensures ChanOk(e'.rt.chans[g]) && EndOk(e'.rt, g, e'.ends[g]) {
      assert EndOk(e.rt, g, e.ends[g]) && ChanOk(e.rt.chans[g]);
    }
  }

  // ---------------------------------------------------------------- frames

  lemma HandleOpenBase(e: Endpoint, f: Frame, env: Consult)
    requires BaseInv(e) && f.Open?
    ensures var (rt, _) := HandleOpen(e.rt, f.id, f.purpose, env); BaseInv(Accepted(e, f, rt))
  {
    var (rt, _) := HandleOpen(e.rt, f.id, f.purpose, env);
    HandleOpenValid(e.rt, f.id, f.purpose, env);
    if |rt.chans| > |e.rt.chans| {
      OneEndChanged(e, Accepted(e, f, rt), |e.ends|);
    }
  }

  /** An answer changes the channel of its open and the map entries of its id. */
  lemma AnswerTouches(rt: Runtime, id: U32, result: CommandResult)
    requires id in rt.pending && id !in rt.streams && rt.pending[id].chan < |rt.chans|
    ensures var rt' := HandleOpenResp(rt, id, result); var h := rt.pending[id].chan;
      && |rt'.chans| == |rt.chans| && (forall g :: 0 <= g < |rt.chans| && g != h ==> rt'.chans[g] == rt.chans[g])
      && (forall i :: i != id ==> (i in rt'.streams <==> i in rt.streams) && (i in rt'.pending <==> i in rt.pending))
      && (forall i :: i != id && i in rt.streams ==> rt'.streams[i] == rt.streams[i])
      && (forall i :: i != id && i in rt.pending ==> rt'.pending[i] == rt.pending[i])
      && id !in rt'.pending && (id in rt'.streams ==> rt'.streams[id] == h)
  {
  }

  lemma AnsweredOther(e: Endpoint, id: U32, result: CommandResult, g: nat)
    requires id in e.rt.pending && id !in e.rt.streams && e.rt.pending[id].chan < |e.rt.chans|
    requires g < |e.ends| == |e.rt.chans| && g != e.rt.pending[id].chan
    ensures SameEnd(e, e.(rt := HandleOpenResp(e.rt, id, result)), g)
  {
    AnswerTouches(e.rt, id, result);
  }

  lemma AnsweredEnd(rt: Runtime, id: U32, result: CommandResult, s: StreamEnd)
    requires Valid(rt) && id in rt.pending && EndOk(rt, rt.pending[id].chan, s)
    ensures EndOk(HandleOpenResp(rt, id, result), rt.pending[id].chan, s)
  {
  }

  lemma HandleOpenRespBase(e: Endpoint, id: U32, result: CommandResult)
    requires BaseInv(e)
    ensures BaseInv(e.(rt := HandleOpenResp(e.rt, id, result)))
  {
    if id in e.rt.pending {
      var h := e.rt.pending[id].chan;
      var rt := HandleOpenResp(e.rt, id, result);
      HandleOpenRespValid(e.rt, id, result);
      assert EndOk(e.rt, h, e.ends[h]);
      forall g | 0 <= g < |e.ends| && g != h ensures SameEnd(e, e.(rt := rt), g) { AnsweredOther(e, id, result, g); }
      AnsweredEnd(e.rt, id, result, e.ends[h]);
      OneEndChanged(e, e.(rt := rt), h);
    }
  }

  lemma RetireEnd(rt: Runtime, id: U32, last: Item, s: StreamEnd)
    requires Valid(rt) && id in rt.streams && !last.Chunk? && EndOk(rt, rt.streams[id], s)
    ensures EndOk(Retire(rt, id, last), rt.streams[id], s)
  {
    SealedBy(rt.chans[rt.streams[id]].queue, last);
  }

  lemma RetireBase(e: Endpoint, id: U32, last: Item)
    requires BaseInv(e) && id in e.rt.streams && !last.Chunk?
    ensures BaseInv(e.(rt := Retire(e.rt, id, last)))
  {
    var h := e.rt.streams[id];
    RetireValid(e.rt, id, last);
    RetireEnd(e.rt, id, last, e.ends[h]);
    OneEndChanged(e, e.(rt := Retire(e.rt, id, last)), h);
  }

  lemma DeliveredEnd(rt: Runtime, id: U32, bytes: Bytes, s: StreamEnd)
    requires Valid(rt) && id in rt.streams && |rt.chans[rt.streams[id]].queue| < QUEUE_CAPACITY && EndOk(rt, rt.streams[id], s)
    ensures EndOk(Deliver(rt, id, bytes).0, rt.streams[id], s)
  {
  }

  lemma DeliveredOther(e: Endpoint, id: U32, bytes: Bytes)
    requires Valid(e.rt) && |e.ends| == |e.rt.chans| && id in e.rt.streams && |e.rt.chans[e.rt.streams[id]].queue| < QUEUE_CAPACITY
    ensures var e' := e.(rt := Deliver(e.rt, id, bytes).0);
      && |e'.rt.chans| == |e.rt.chans| && e'.rt.parity == e.rt.parity
      && forall g :: 0 <= g < |e.ends| && g != e.rt.streams[id] ==> SameEnd(e, e', g)
  {
  }

  lemma DeliverBase(e: Endpoint, id: U32, bytes: Bytes)
    requires BaseInv(e)
    ensures BaseInv(e.(rt := Deliver(e.rt, id, bytes).0))
  {
    if id in e.rt.streams {
      var h := e.rt.streams[id];
      if |e.rt.chans[h].queue| >= QUEUE_CAPACITY {
        RetireBase(e, id, Abort(QueueFull));
      } else {
        DeliverValid(e.rt, id, bytes);
        assert EndOk(e.rt, h, e.ends[h]);
        DeliveredEnd(e.rt, id, bytes, e.ends[h]);
        DeliveredOther(e, id, bytes);
        OneEndChanged(e, e.(rt := Deliver(e.rt, id, bytes).0), h);
      }
    }
  }

  lemma HandleFrameBase(e: Endpoint, f: Frame, env: Consult)
    requires BaseInv(e)
    ensures BaseInv(Accepted(e, f, HandleFrame(e.rt, f, env).0))
  {
    match f
    case Open(_, _) => HandleOpenBase(e, f, env);
    case OpenResp(id, result) => HandleOpenRespBase(e, id, result);
    case Data(id, bytes) => DeliverBase(e, id, bytes);
    case Fin(id) => if id in e.rt.streams { RetireBase(e, id, End); }
    case Reset(id, why) =>
      if id in e.rt.streams { RetireBase(e, id, Abort(Reason(ResultCode(why), "control stream reset"))); }
    case Window(_, _) =>
  }

  lemma ReplyLostBase(e: Endpoint, n: nat, reason: Reason)
    requires BaseInv(e) && (n < |e.ends| ==> e.ends[n].phase != Opening)
    ensures BaseInv(ReplyLost(e, n, reason))
  {
    CloseAllBase(e, reason);
    var e1 := e.(rt := CloseAll(e.rt, reason));
    if n < |e1.rt.chans| {
      DropReaderBase(e1, n);
      var e2 := e1.(rt := DropReceiver(e1.rt, n));
      var e' := ReplyLost(e, n, reason);
      forall h | 0 <= h < |e'.ends| ensures EndOk(e'.rt, h, e'.ends[h]) {
        assert EndOk(e2.rt, h, e2.ends[h]);
      }
    }
  }

  lemma ReceiveBase(e: Endpoint, f: Frame, env: Consult, fate: SendFate)
    requires BaseInv(e)
    ensures BaseInv(DoReceive(e, f, env, fate))
  {
    var e1 := e.(handled := e.handled + 1);
    if !e.rt.closed {
      HandleFrameBase(e1, f, env);
      if fate.Lost? {
        ReplyLostBase(Accepted(e1, f, HandleFrame(e.rt, f, env).0), |e.rt.chans|, fate.reason);
      }
    }
  }

  /** Every step keeps the invariant, whatever the peer has sent. */
  lemma StepBase(e: Endpoint, inbox: seq<Frame>, s: Step)
    requires BaseInv(e) && Enabled(e, inbox, s)
    ensures BaseInv(Apply(e, inbox, s))
  {
    match s
    case Listen =>
      var e' := Apply(e, inbox, s);
      forall h | 0 <= h < |e.ends| ensures EndOk(e'.rt, h, e'.ends[h]) { assert EndOk(e.rt, h, e.ends[h]); }
    case OpenStart(k, purpose, fate) => OpenStartBase(e, k, purpose, fate);
    case OpenReturn(h) => OpenReturnBase(e, h);
    case OpenDrop(h) => OpenDropBase(e, h);
    case OpenCleanup(h) => OpenCleanupBase(e, h);
    case Receive(env, fate) => ReceiveBase(e, inbox[e.handled], env, fate);
    case Close(reason) => CloseAllBase(e, reason);
    case Read(h, room) => ReadBase(e, inbox, h, room);
    case DropReader(h) => assert EndOk(e.rt, h, e.ends[h]); DropReaderBase(e, h);
    case Send(h, call, wenv) => SendBase(e, h, call, wenv);
  }
}
