/** One end of a control link: a runtime, the stream halves it has handed out, and the log of what it sent.

    Every lock-held section, API call, received frame, poll, timeout and drop is one step. `out`, `index`,
    `opens` and the per-stream `readOut`, `sentOut` and `taken` are history: no step looks at them. */
module ControlEndpoint {
  import opened Wrappers
  import opened ControlTypes
  import opened ControlRuntime
  import R = ControlReader
  import W = ControlWriter

  /** Where a stream half is in its life. `Opening`: its `open` call has not returned. `Dropping`: the
      call was dropped or timed out and its cleanup has not run. `Exposed`: its owner holds a reader and
      a writer. `Over`: nobody ever will. */
  datatype Phase = Opening | Dropping | Exposed | Over

  datatype Taken = NoTerminal | TookEnd | TookAbort

  datatype StreamEnd = StreamEnd(
    local: bool,
    purpose: Purpose,
    phase: Phase,
    reader: R.Reader,
    writer: W.Writer,
    readOut: Bytes,
    sentOut: Bytes,
    taken: Taken)

  datatype Endpoint = Endpoint(
    rt: Runtime,
    ends: seq<StreamEnd>,
    out: seq<Frame>,
    handled: nat,
    index: map<U32, nat>,
    opens: nat)

  /** The fate of a frame given to the sender. `Lost` closes the runtime. */
  datatype SendFate = Delivered | TooLarge | Lost(reason: Reason)

  datatype Step =
    | Listen
    | OpenStart(skip: nat, purpose: Purpose, fate: SendFate)
    | OpenReturn(h: nat)
    | OpenDrop(h: nat)
    | OpenCleanup(h: nat)
    | Receive(env: Consult, fate: SendFate)
    | Close(reason: Reason)
    | Read(h: nat, room: nat)
    | DropReader(h: nat)
    | Send(h: nat, call: W.Call, wenv: W.Env)

  function Start(initiator: bool): Endpoint {
    Endpoint(Create(initiator), [], [], 0, map[], 0)
  }

  function NewEnd(local: bool, purpose: Purpose, phase: Phase, id: U32): StreamEnd {
    StreamEnd(local, purpose, phase, R.FreshReader, W.NewWriter(id), [], [], NoTerminal)
  }

  // ---------------------------------------------------------------- steps

  ghost predicate Enabled(e: Endpoint, inbox: seq<Frame>, s: Step) {
    match s
    case Listen => true
    case OpenStart(k, _, _) => !e.rt.closed && AllocatesAfter(e.rt, k)
    case OpenReturn(h) =>
      && h < |e.ends| == |e.rt.chans| && e.ends[h].phase == Opening
      && (e.rt.chans[h].waiter.Answered? || (e.rt.chans[h].waiter == Waiting && !HoldsPending(e.rt, h)))
    case OpenDrop(h) => h < |e.ends| == |e.rt.chans| && e.ends[h].phase == Opening
    case OpenCleanup(h) => h < |e.ends| == |e.rt.chans| && e.ends[h].phase == Dropping
    case Receive(_, fate) => e.handled < |inbox| && fate != TooLarge
    case Close(_) => true
    case Read(h, _) => h < |e.ends| == |e.rt.chans| && e.ends[h].phase == Exposed && e.rt.chans[h].alive
    case DropReader(h) => h < |e.ends| == |e.rt.chans| && e.ends[h].phase == Exposed && e.rt.chans[h].alive
    case Send(h, _, wenv) =>
      && h < |e.ends| == |e.rt.chans| && e.ends[h].phase == Exposed
      && wenv.closed == wenv.closedAfter == wenv.closedEnd == e.rt.closed
  }

  ghost function DoOpenStart(e: Endpoint, k: nat, purpose: Purpose, fate: SendFate): Endpoint {
    var id := Nth(e.rt.next, k);
    var h := |e.rt.chans|;
    var rt := BeginOpen(e.rt, k, purpose);
    var e1 := e.(index := e.index[id := h], opens := e.opens + 1);
    if fate == Delivered then
      e1.(rt := rt, ends := e.ends + [NewEnd(true, purpose, Opening, id)], out := e.out + [Open(id, purpose)])
    else
      var rt1 := if fate.Lost? then CloseAll(rt, fate.reason) else rt;
      e1.(rt := CleanupOpen(AbandonOpen(rt1, h), id), ends := e.ends + [NewEnd(true, purpose, Over, id)])
  }

  function DoOpenReturn(e: Endpoint, h: nat): Endpoint
    requires h < |e.ends| == |e.rt.chans|
  {
    var ok := e.rt.chans[h].waiter == Answered(true);
    var rt := if ok then e.rt else DropReceiver(e.rt, h);
    e.(rt := CleanupOpen(rt, e.rt.chans[h].id),
       ends := e.ends[h := e.ends[h].(phase := if ok then Exposed else Over)])
  }

  function DoOpenDrop(e: Endpoint, h: nat): Endpoint
    requires h < |e.ends| == |e.rt.chans|
  {
    e.(rt := if e.rt.chans[h].waiter == Waiting then AbandonOpen(e.rt, h) else DropReceiver(e.rt, h),
       ends := e.ends[h := e.ends[h].(phase := Dropping)])
  }

  function DoOpenCleanup(e: Endpoint, h: nat): Endpoint
    requires h < |e.ends| == |e.rt.chans|
  {
    e.(rt := CleanupOpen(e.rt, e.rt.chans[h].id), ends := e.ends[h := e.ends[h].(phase := Over)])
  }

  /** Handling one frame creates a stream half exactly when it creates a channel. */
  function Accepted(e: Endpoint, f: Frame, rt: Runtime): Endpoint {
    if f.Open? && |rt.chans| > |e.rt.chans| then
      var phase := if rt.chans[|e.rt.chans|].alive then Exposed else Over;
      e.(rt := rt, ends := e.ends + [NewEnd(false, f.purpose, phase, f.id)], index := e.index[f.id := |e.rt.chans|])
    else e.(rt := rt)
  }

  /** A runtime whose reply was lost closes, and drops the half it was about to hand out. */
  ghost function ReplyLost(e: Endpoint, oldChans: nat, reason: Reason): Endpoint {
    var rt := CloseAll(e.rt, reason);
    if oldChans < |rt.chans| && oldChans < |e.ends| then
      e.(rt := DropReceiver(rt, oldChans), ends := e.ends[oldChans := e.ends[oldChans].(phase := Over)])
    else e.(rt := rt)
  }

  ghost function DoReceive(e: Endpoint, f: Frame, env: Consult, fate: SendFate): Endpoint
    requires Valid(e.rt)
  {
    var e1 := e.(handled := e.handled + 1);
    if e.rt.closed then e1
    else
      var (rt, reply) := HandleFrame(e.rt, f, env);
      var e2 := Accepted(e1, f, rt);
      if reply.None? then e2
      else if fate.Lost? then ReplyLost(e2, |e.rt.chans|, fate.reason)
      else e2.(out := e.out + [reply.value])
  }

  ghost function DoRead(e: Endpoint, h: nat, room: nat): Endpoint
    requires h < |e.ends| == |e.rt.chans|
  {
    var c := e.rt.chans[h];
    var (r, popped, res) := R.PollRead(e.ends[h].reader, c.queue, Held(e.rt, h), room);
    var taken := if popped && c.queue != [] && c.queue[0] == End then TookEnd
                 else if popped && c.queue != [] && c.queue[0].Abort? then TookAbort
                 else e.ends[h].taken;
    e.(rt := if popped && c.queue != [] then TakeItem(e.rt, h) else e.rt,
       ends := e.ends[h := e.ends[h].(reader := r, readOut := e.ends[h].readOut + R.Output(res), taken := taken)])
  }

  function DoSend(e: Endpoint, h: nat, call: W.Call, wenv: W.Env): Endpoint
    requires h < |e.ends|
  {
    var (w, sent, _) := W.Do(e.ends[h].writer, call, wenv);
    e.(out := e.out + sent,
       ends := e.ends[h := e.ends[h].(writer := w, sentOut := e.ends[h].sentOut + W.FrameBytes(sent))])
  }

  ghost function Apply(e: Endpoint, inbox: seq<Frame>, s: Step): Endpoint
    requires Valid(e.rt) && Enabled(e, inbox, s)
  {
    match s
    case Listen => e.(rt := ControlRuntime.Listen(e.rt))
    case OpenStart(k, purpose, fate) => DoOpenStart(e, k, purpose, fate)
    case OpenReturn(h) => DoOpenReturn(e, h)
    case OpenDrop(h) => DoOpenDrop(e, h)
    case OpenCleanup(h) => DoOpenCleanup(e, h)
    case Receive(env, fate) => DoReceive(e, inbox[e.handled], env, fate)
    case Close(reason) => e.(rt := CloseAll(e.rt, reason))
    case Read(h, room) => DoRead(e, h, room)
    case DropReader(h) => e.(rt := DropReceiver(e.rt, h))
    case Send(h, call, wenv) => DoSend(e, h, call, wenv)
  }

  // ---------------------------------------------------------------- invariant of every run

  /** The owner of the half holds, or is about to be given, a live reader. */
  ghost predicate Watched(c: Chan, s: StreamEnd) {
    c.alive && (s.phase == Exposed || (s.phase == Opening && c.waiter == Answered(true)))
  }

  /** A queue nobody can add to any more ends in exactly one terminal item, until that item is taken. */
  ghost predicate Terminated(c: Chan, s: StreamEnd) {
    if s.taken == NoTerminal then Sealed(c.queue) else c.queue == []
  }

  ghost predicate EndOk(rt: Runtime, h: nat, s: StreamEnd)
    requires h < |rt.chans|
  {
    var c := rt.chans[h];
    && c.id != 0 && (s.local <==> c.id % 2 == rt.parity)
    && s.writer.id == c.id && W.WriterOk(s.writer) && R.ReaderOk(s.reader)
    && (HoldsPending(rt, h) ==>
          (s.phase == Opening || s.phase == Dropping) && (c.waiter == Waiting || c.waiter == Gone))
    && (HoldsPending(rt, h) && s.phase == Opening ==> c.waiter == Waiting && c.alive)
    && (s.phase == Opening || s.phase == Dropping ==> s.local)
    && (s.local && s.phase == Exposed ==> c.waiter == Answered(true))
    && (Held(rt, h) ==> s.taken == NoTerminal)
    && (Watched(c, s) && !Held(rt, h) ==> Terminated(c, s))
  }

  ghost predicate BaseInv(e: Endpoint) {
    && Valid(e.rt)
    && |e.ends| == |e.rt.chans|
    && forall h :: 0 <= h < |e.ends| ==> EndOk(e.rt, h, e.ends[h])
  }
}
