/** How a stream ends in a run: a shutdown that succeeds puts the Fin on the link, and a Fin that reaches a registered
    stream is read as the end of the stream, after every byte that was sent. */
module ControlShutdown {
  import opened Wrappers
  import opened ControlTypes
  import opened ControlRuntime
  import opened ControlLog
  import opened ControlEndpoint
  import opened ControlBase
  import opened ControlFresh
  import opened ControlFreshSteps
  import opened ControlNet
  import R = ControlReader
  import W = ControlWriter

  // ---------------------------------------------------------------- the Fin of a shutdown

  lemma {:induction false} LogsGrow(run: seq<Net>, acts: seq<Action>, j: nat, k: nat, flip: bool)
    requires IsRun(run, acts) && j <= k < |run|
    ensures View(run[j], flip).right.out <= View(run[k], flip).right.out
    decreases k - j
  {
    if j < k {
      LogsGrow(run, acts, j + 1, k, flip);
      RunBase(run, acts, j);
      var n, a := run[j], acts[j];
      assert Moves(n, a, run[j + 1]);
      if a.onLeft { StepGrows(n.left, n.right.out, a.step); } else { StepGrows(n.right, n.left.out, a.step); }
    }
  }

  lemma {:induction false} FinInLog(log: seq<Frame>, i: U32)
    ensures Fin(i) in log <==> i in DigestOf(log).fins
  {
    if log != [] {
      FinInLog(log[..|log| - 1], i);
      assert log == log[..|log| - 1] + [log[|log| - 1]];
    }
  }

  /** A lawful log has the Fin of a stream at most once. */
  lemma OneFin(log: seq<Frame>, p: nat, i: U32, a: nat, b: nat)
    requires LawfulLog(log, p) && a < b < |log| && log[b] == Fin(i)
    ensures log[a] != Fin(i)
  {
    LogNext(log, b, p);
    FinInLog(log[..b], i);
    assert log[..b][a] == log[a];
  }

  ghost predicate FinOnce(log: seq<Frame>, i: U32) {
    Fin(i) in log && forall a, b :: 0 <= a < b < |log| ==> !(log[a] == Fin(i) && log[b] == Fin(i))
  }

  lemma LawfulFinOnce(log: seq<Frame>, p: nat, i: U32)
    requires LawfulLog(log, p) && Fin(i) in log
    ensures FinOnce(log, i) && i in DigestOf(log).fins
  {
    FinInLog(log, i);
    forall a, b | 0 <= a < b < |log| ensures !(log[a] == Fin(i) && log[b] == Fin(i)) {
      if log[b] == Fin(i) { OneFin(log, p, i, a, b); }
    }
  }

  /** A shutdown of a half whose writer is not closed succeeds in step `j`. */
  ghost predicate ShutsDown(run: seq<Net>, acts: seq<Action>, j: nat, flip: bool, h: nat)
    requires j < |acts| && |run| == |acts| + 1
  {
    && acts[j].onLeft == flip && acts[j].step.Send? && acts[j].step.h == h && acts[j].step.call == W.Shutdown
    && var e := View(run[j], flip).right;
    && h < |e.ends| == |e.rt.chans| && !e.ends[h].writer.closed
    && W.PollShutdown(e.ends[h].writer, acts[j].step.wenv).2.Accepted?
  }

  lemma ShutdownSends(run: seq<Net>, acts: seq<Action>, j: nat, flip: bool, h: nat)
    requires IsRun(run, acts) && j < |acts| && ShutsDown(run, acts, j, flip, h)
    ensures var e := View(run[j], flip).right; var e' := View(run[j + 1], flip).right;
      h < |e'.ends| && Fin(e.rt.chans[h].id) in e'.out && W.Quiet(e'.ends[h].writer)
  {
    RunBase(run, acts, j);
    var e := View(run[j], flip).right;
    assert Moves(run[j], acts[j], run[j + 1]);
    assert EndOk(e.rt, h, e.ends[h]);
    W.ShutdownMeaning(e.ends[h].writer, acts[j].step.wenv);
    var sent := W.PollShutdown(e.ends[h].writer, acts[j].step.wenv).1;
    assert sent[|sent| - 1] == Fin(e.rt.chans[h].id);
    assert (e.out + sent)[|e.out| + |sent| - 1] == Fin(e.rt.chans[h].id);
  }

  /** In every run without id reuse, once a shutdown has succeeded the link has carried the Fin of the stream, exactly
      once, and all the bytes the writer ever sends come before it. */
  lemma ShutdownIsFinal(run: seq<Net>, acts: seq<Action>, j: nat, k: nat, flip: bool, h: nat)
    requires IsRun(run, acts) && j < k < |run| && FewOpens(run[k]) && ShutsDown(run, acts, j, flip, h)
    ensures var e := View(run[k], flip).right;
      && h < |e.ends| == |e.rt.chans| && FinOnce(e.out, e.rt.chans[h].id) && e.rt.chans[h].id in DigestOf(e.out).fins
      && W.Quiet(e.ends[h].writer) && e.ends[h].sentOut == Got(DigestOf(e.out), e.rt.chans[h].id)
  {
    RunView(run, acts, k, flip);
    var e := View(run[k], flip).right;
    var i := View(run[j], flip).right.rt.chans[h].id;
    ShutdownSends(run, acts, j, flip, h);
    LogsGrow(run, acts, j + 1, k, flip);
    IdsStay(run, acts, j, k, flip, h);
    LawfulFinOnce(e.out, e.rt.parity, i);
    assert EndFresh(e, h, DigestOf(e.out), Told(e, View(run[k], flip).left.out));
  }

  /** A step keeps the ids of the channels, and brings no reader back. */
  ghost predicate KeepsChan(rt: Runtime, rt': Runtime, h: nat) {
    h < |rt.chans| ==> h < |rt'.chans| && rt'.chans[h].id == rt.chans[h].id && (rt'.chans[h].alive ==> rt.chans[h].alive)
  }

  lemma FrameKeepsChan(rt: Runtime, f: Frame, env: Consult, h: nat)
    requires Valid(rt)
    ensures KeepsChan(rt, HandleFrame(rt, f, env).0, h)
  {
  }

  lemma CloseKeepsChan(rt: Runtime, reason: Reason, h: nat)
    requires Valid(rt)
    ensures KeepsChan(rt, CloseAll(rt, reason), h)
  {
    if h < |rt.chans| { ClosedAll(rt, reason, h); }
  }

  lemma LostKeepsChan(e: Endpoint, n: nat, reason: Reason, h: nat)
    requires Valid(e.rt)
    ensures KeepsChan(e.rt, ReplyLost(e, n, reason).rt, h)
  {
    CloseKeepsChan(e.rt, reason, h);
  }

  lemma ReplyKeepsChan(rt: Runtime, e2: Endpoint, e': Endpoint, n: nat, fate: SendFate, h: nat)
    requires KeepsChan(rt, e2.rt, h) && Valid(e2.rt)
    requires e'.rt == e2.rt || (fate.Lost? && e' == ReplyLost(e2, n, fate.reason))
    ensures KeepsChan(rt, e'.rt, h)
  {
    if fate.Lost? { LostKeepsChan(e2, n, fate.reason, h); }
  }

  lemma HandledKeepsChan(e: Endpoint, f: Frame, env: Consult, h: nat)
    requires BaseInv(e)
    ensures var e2 := Accepted(e.(handled := e.handled + 1), f, HandleFrame(e.rt, f, env).0);
      Valid(e2.rt) && KeepsChan(e.rt, e2.rt, h)
  {
    FrameKeepsChan(e.rt, f, env, h);
    HandleFrameBase(e, f, env);
  }

  lemma ReceiveKeepsChan(e: Endpoint, f: Frame, env: Consult, fate: SendFate, h: nat)
    requires BaseInv(e)
    ensures KeepsChan(e.rt, DoReceive(e, f, env, fate).rt, h)
  {
    if !e.rt.closed {
      var e2 := Accepted(e.(handled := e.handled + 1), f, HandleFrame(e.rt, f, env).0);
      HandledKeepsChan(e, f, env, h);
      ReplyKeepsChan(e.rt, e2, DoReceive(e, f, env, fate), |e.rt.chans|, fate, h);
    }
  }

  lemma OpenStartKeepsChan(e: Endpoint, k: nat, purpose: Purpose, fate: SendFate, h: nat)
    requires BaseInv(e) && !e.rt.closed && AllocatesAfter(e.rt, k)
    ensures KeepsChan(e.rt, DoOpenStart(e, k, purpose, fate).rt, h)
  {
    BeginOpenValid(e.rt, k, purpose);
    if fate.Lost? { CloseKeepsChan(BeginOpen(e.rt, k, purpose), fate.reason, h); }
  }

  lemma StepKeepsChan(e: Endpoint, inbox: seq<Frame>, s: Step, h: nat)
    requires BaseInv(e) && Enabled(e, inbox, s)
    ensures KeepsChan(e.rt, Apply(e, inbox, s).rt, h)
  {
    match s
    case OpenStart(k, purpose, fate) => OpenStartKeepsChan(e, k, purpose, fate, h);
    case Receive(env, fate) => ReceiveKeepsChan(e, inbox[e.handled], env, fate, h);
    case Close(reason) => CloseKeepsChan(e.rt, reason, h);
    case _ =>
  }

  lemma RunStep(run: seq<Net>, acts: seq<Action>, k: nat, flip: bool)
    requires IsRun(run, acts) && k < |acts|
    ensures var v, v' := View(run[k], flip), View(run[k + 1], flip);
      && BaseInv(v.right) && BaseInv(v'.right)
      && (acts[k].onLeft == flip ==> Enabled(v.right, v.left.out, acts[k].step) && v'.right == Apply(v.right, v.left.out, acts[k].step))
      && (acts[k].onLeft != flip ==> v'.right == v.right)
  {
    RunBase(run, acts, k);
    RunBase(run, acts, k + 1);
    assert Moves(run[k], acts[k], run[k + 1]);
  }

  lemma {:induction false} IdsStay(run: seq<Net>, acts: seq<Action>, j: nat, k: nat, flip: bool, h: nat)
    requires IsRun(run, acts) && j <= k < |run|
    ensures KeepsChan(View(run[j], flip).right.rt, View(run[k], flip).right.rt, h)
    decreases k
  {
    if j < k {
      IdsStay(run, acts, j, k - 1, flip, h);
      RunStep(run, acts, k - 1, flip);
      var v := View(run[k - 1], flip);
      if acts[k - 1].onLeft == flip { StepKeepsChan(v.right, v.left.out, acts[k - 1].step, h); }
    }
  }

  // ---------------------------------------------------------------- the end stays in the queue until it is read

  /** Nobody can add to the queue any more, and its last item is the end, or the end has been read from it. */
  ghost predicate Ending(e: Endpoint, h: nat) {
    && h < |e.ends| == |e.rt.chans| && !Held(e.rt, h)
    && ((e.ends[h].taken == NoTerminal && EndsWith(e.rt.chans[h].queue, End)) || e.ends[h].taken == TookEnd)
  }

  /** A queue without a sender is left alone, as long as its reader is there. */
  ghost predicate LeavesQueue(e: Endpoint, e': Endpoint, h: nat) {
    h < |e.ends| == |e.rt.chans| && !Held(e.rt, h) ==>
      && h < |e'.ends| == |e'.rt.chans| && !Held(e'.rt, h) && e'.ends[h].taken == e.ends[h].taken
      && (e'.rt.chans[h].alive ==> e'.rt.chans[h].queue == e.rt.chans[h].queue)
  }

  /** The channel `h` and its place in the maps, of which it has none. */
  ghost predicate Unheld(rt: Runtime, rt': Runtime, h: nat)
    requires h < |rt.chans|
  {
    h < |rt'.chans| && rt'.chans[h] == rt.chans[h] && !Held(rt', h)
  }

  lemma OpenLeavesUnheld(rt: Runtime, id: U32, purpose: Purpose, env: Consult, h: nat)
    requires Valid(rt) && h < |rt.chans| && !Held(rt, h)
    ensures Unheld(rt, HandleOpen(rt, id, purpose, env).0, h)
  {
  }

  lemma AnswerLeavesUnheld(rt: Runtime, id: U32, result: CommandResult, h: nat)
    requires Valid(rt) && h < |rt.chans| && !Held(rt, h)
    ensures Unheld(rt, HandleOpenResp(rt, id, result), h)
  {
  }

  lemma StreamLeavesUnheld(rt: Runtime, id: U32, bytes: Bytes, why: CommandResult, h: nat)
    requires Valid(rt) && h < |rt.chans| && !Held(rt, h)
    ensures Unheld(rt, Deliver(rt, id, bytes).0, h) && Unheld(rt, FinishStream(rt, id), h) && Unheld(rt, ResetStream(rt, id, why), h)
  {
    if id in rt.streams { assert rt.streams[id] != h; }
  }

  lemma FrameLeavesUnheld(rt: Runtime, f: Frame, env: Consult, h: nat)
    requires Valid(rt) && h < |rt.chans| && !Held(rt, h)
    ensures Unheld(rt, HandleFrame(rt, f, env).0, h)
  {
    match f
    case Open(id, purpose) => OpenLeavesUnheld(rt, id, purpose, env, h);
    case OpenResp(id, result) => AnswerLeavesUnheld(rt, id, result, h);
    case Data(id, bytes) => StreamLeavesUnheld(rt, id, bytes, Success, h);
    case Fin(id) => StreamLeavesUnheld(rt, id, [], Success, h);
    case Reset(id, why) => StreamLeavesUnheld(rt, id, [], why, h);
    case Window(_, _) =>
  }

  lemma CloseLeavesUnheld(rt: Runtime, reason: Reason, h: nat)
    requires Valid(rt) && h < |rt.chans| && !Held(rt, h)
    ensures var rt' := CloseAll(rt, reason); h < |rt'.chans| && rt'.chans[h] == rt.chans[h] && !Held(rt', h)
  {
    if !rt.closed { assert CloseAll(rt, reason).chans[h] == CloseChan(rt, h, reason); }
  }

  lemma AcceptedLeaves(e: Endpoint, f: Frame, rt: Runtime, h: nat)
    requires |e.ends| == |e.rt.chans| && h < |e.ends| && !Held(e.rt, h)
    requires h < |rt.chans| && rt.chans[h] == e.rt.chans[h] && !Held(rt, h) && |Accepted(e, f, rt).ends| == |rt.chans|
    ensures LeavesQueue(e, Accepted(e, f, rt), h)
  {
  }

  lemma LostLeaves(e: Endpoint, n: nat, reason: Reason, h: nat)
    requires Valid(e.rt) && |e.ends| == |e.rt.chans|
    ensures LeavesQueue(e, ReplyLost(e, n, reason), h)
  {
    if h < |e.ends| && !Held(e.rt, h) { CloseLeavesUnheld(e.rt, reason, h); }
  }

  lemma HandledLeaves(e: Endpoint, f: Frame, env: Consult, h: nat)
    requires BaseInv(e) && h < |e.ends| && !Held(e.rt, h)
    ensures var e2 := Accepted(e.(handled := e.handled + 1), f, HandleFrame(e.rt, f, env).0);
      Valid(e2.rt) && |e2.ends| == |e2.rt.chans| && LeavesQueue(e, e2, h)
  {
    FrameLeavesUnheld(e.rt, f, env, h);
    AcceptedEnds(e, f, env);
    AcceptedLeaves(e.(handled := e.handled + 1), f, HandleFrame(e.rt, f, env).0, h);
    HandleFrameBase(e, f, env);
  }

  /** Whatever happens to the reply. */
  lemma ReplyLeaves(e: Endpoint, e2: Endpoint, e': Endpoint, n: nat, fate: SendFate, h: nat)
    requires LeavesQueue(e, e2, h) && Valid(e2.rt) && |e2.ends| == |e2.rt.chans|
    requires (e'.ends == e2.ends && e'.rt == e2.rt) || (fate.Lost? && e' == ReplyLost(e2, n, fate.reason))
    ensures LeavesQueue(e, e', h)
  {
    if fate.Lost? {
      LostLeaves(e2, n, fate.reason, h);
      if h < |e2.ends| && !Held(e2.rt, h) { CloseLeavesUnheld(e2.rt, fate.reason, h); }
    }
  }

  lemma ReceiveLeavesQueue(e: Endpoint, f: Frame, env: Consult, fate: SendFate, h: nat)
    requires BaseInv(e)
    ensures LeavesQueue(e, DoReceive(e, f, env, fate), h)
  {
    if !e.rt.closed && h < |e.ends| && !Held(e.rt, h) {
      var e2 := Accepted(e.(handled := e.handled + 1), f, HandleFrame(e.rt, f, env).0);
      HandledLeaves(e, f, env, h);
      ReplyLeaves(e, e2, DoReceive(e, f, env, fate), |e.rt.chans|, fate, h);
    }
  }

  lemma OpenStartLeavesQueue(e: Endpoint, k: nat, purpose: Purpose, fate: SendFate, h: nat)
    requires BaseInv(e) && !e.rt.closed && AllocatesAfter(e.rt, k)
    ensures LeavesQueue(e, DoOpenStart(e, k, purpose, fate), h)
  {
    BeginOpenValid(e.rt, k, purpose);
    if h < |e.ends| && !Held(e.rt, h) && fate.Lost? { CloseLeavesUnheld(BeginOpen(e.rt, k, purpose), fate.reason, h); }
  }

  lemma StepLeavesQueue(e: Endpoint, inbox: seq<Frame>, s: Step, h: nat)
    requires BaseInv(e) && Enabled(e, inbox, s) && !(s.Read? && s.h == h)
    ensures LeavesQueue(e, Apply(e, inbox, s), h)
  {
    match s
    case OpenStart(k, purpose, fate) => OpenStartLeavesQueue(e, k, purpose, fate, h);
    case Receive(env, fate) => ReceiveLeavesQueue(e, inbox[e.handled], env, fate, h);
    case Close(reason) => if h < |e.ends| && !Held(e.rt, h) { CloseLeavesUnheld(e.rt, reason, h); }
    case OpenReturn(g) => if h < |e.ends| && !Held(e.rt, h) { ReturnLeavesQueue(e, g, h); }
    case OpenDrop(g) => if h < |e.ends| && !Held(e.rt, h) { DropLeavesQueue(e, g, h); }
    case OpenCleanup(g) => if h < |e.ends| && !Held(e.rt, h) { DropLeavesQueue(e, g, h); }
    case _ => if h < |e.ends| && !Held(e.rt, h) { UseLeavesQueue(e, inbox, s, h); }
  }

  lemma ReturnLeavesQueue(e: Endpoint, g: nat, h: nat)
    requires g < |e.ends| == |e.rt.chans| && h < |e.ends| && !Held(e.rt, h)
    ensures LeavesQueue(e, DoOpenReturn(e, g), h)
  {
    assert DoOpenReturn(e, g).rt.chans[h].id == e.rt.chans[h].id;
  }

  lemma DropLeavesQueue(e: Endpoint, g: nat, h: nat)
    requires g < |e.ends| == |e.rt.chans| && h < |e.ends| && !Held(e.rt, h)
    ensures LeavesQueue(e, DoOpenDrop(e, g), h) && LeavesQueue(e, DoOpenCleanup(e, g), h)
  {
    assert DoOpenDrop(e, g).rt.chans[h].id == e.rt.chans[h].id;
  }

  lemma UseLeavesQueue(e: Endpoint, inbox: seq<Frame>, s: Step, h: nat)
    requires |e.ends| == |e.rt.chans| && h < |e.ends| && !Held(e.rt, h)
    requires Valid(e.rt) && Enabled(e, inbox, s) && (s.Listen? || s.Send? || s.DropReader? || (s.Read? && s.h != h))
    ensures LeavesQueue(e, Apply(e, inbox, s), h)
  {
    assert Apply(e, inbox, s).rt.chans[h].id == e.rt.chans[h].id;
  }

  lemma ReadEnding(e: Endpoint, h: nat, room: nat)
    requires BaseInv(e) && Ending(e, h) && e.ends[h].phase == Exposed && e.rt.chans[h].alive
    ensures Ending(DoRead(e, h, room), h)
  {
    var q := e.rt.chans[h].queue;
    assert EndOk(e.rt, h, e.ends[h]);
    if q != [] && !q[0].Chunk? { TerminalIsLast(e, h); }
  }

  lemma StepEnding(e: Endpoint, inbox: seq<Frame>, s: Step, h: nat)
    requires BaseInv(e) && Enabled(e, inbox, s) && Ending(e, h)
    ensures var e' := Apply(e, inbox, s); h < |e'.rt.chans| && (e'.rt.chans[h].alive ==> Ending(e', h))
  {
    if s.Read? && s.h == h { ReadEnding(e, h, s.room); } else { StepLeavesQueue(e, inbox, s, h); }
  }

  /** The right side handles the Fin of a stream that is registered there, for a reader that is there, in step `j`. */
  ghost predicate HandlesFin(run: seq<Net>, acts: seq<Action>, j: nat, flip: bool, h: nat)
    requires j < |acts| && |run| == |acts| + 1
  {
    && acts[j].onLeft == flip && acts[j].step.Receive?
    && var n := View(run[j], flip);
    && h < |n.right.ends| == |n.right.rt.chans| && HoldsStream(n.right.rt, h) && n.right.rt.chans[h].alive
    && n.right.handled < |n.left.out| && n.left.out[n.right.handled] == Fin(n.right.rt.chans[h].id)
  }

  lemma FinQueued(e: Endpoint, f: Frame, env: Consult, fate: SendFate, h: nat)
    requires BaseInv(e) && h < |e.ends| && HoldsStream(e.rt, h) && e.rt.chans[h].alive && f == Fin(e.rt.chans[h].id)
    ensures var e' := DoReceive(e, f, env, fate);
      Ending(e', h) && e'.rt.chans[h].queue == e.rt.chans[h].queue + [End] && e'.rt.chans[h].alive
  {
    FinishedOrReset(e.rt, f.id, Success);
    assert EndOk(e.rt, h, e.ends[h]);
  }

  /** From then on the end is the last item of the queue, or has been read, as long as the reader is there. */
  lemma {:induction false} FinStays(run: seq<Net>, acts: seq<Action>, j: nat, k: nat, flip: bool, h: nat)
    requires IsRun(run, acts) && j < k < |run| && HandlesFin(run, acts, j, flip, h)
    ensures var e := View(run[k], flip).right; h < |e.rt.chans| && (e.rt.chans[h].alive ==> Ending(e, h))
    decreases k
  {
    RunStep(run, acts, k - 1, flip);
    var v := View(run[k - 1], flip);
    var s := acts[k - 1].step;
    if k == j + 1 {
      FinQueued(v.right, v.left.out[v.right.handled], s.env, s.fate, h);
    } else {
      FinStays(run, acts, j, k - 1, flip, h);
      if acts[k - 1].onLeft == flip {
        StepKeepsChan(v.right, v.left.out, s, h);
        if v.right.rt.chans[h].alive { StepEnding(v.right, v.left.out, s, h); }
      }
    }
  }

  // ---------------------------------------------------------------- and then it is read

  /** The endpoint after polls of half `h` with the given buffer sizes. */
  ghost function ReadOn(e: Endpoint, h: nat, rooms: seq<nat>): Endpoint
    requires h < |e.ends| == |e.rt.chans|
    decreases |rooms|
  {
    if rooms == [] then e else ReadOn(DoRead(e, h, rooms[0]), h, rooms[1..])
  }

  ghost function Polled(e: Endpoint, h: nat, room: nat): R.ReadResult
    requires h < |e.ends| == |e.rt.chans|
  {
    R.PollRead(e.ends[h].reader, e.rt.chans[h].queue, Held(e.rt, h), room).2
  }

  /** Each of the polls is possible, and none waits or fails. */
  ghost predicate AllReady(e: Endpoint, h: nat, rooms: seq<nat>)
    requires h < |e.ends| == |e.rt.chans|
    decreases |rooms|
  {
    rooms == [] || (Enabled(e, [], Read(h, rooms[0])) && Polled(e, h, rooms[0]).Ready? && AllReady(DoRead(e, h, rooms[0]), h, rooms[1..]))
  }

  ghost predicate CanFinish(e: Endpoint, h: nat) {
    && BaseInv(e) && Ending(e, h) && e.ends[h].phase == Exposed && e.rt.chans[h].alive && NonEmptyChunks(e.rt.chans[h].queue)
  }

  /** What the reader has still to be given. */
  ghost function ToRead(e: Endpoint, h: nat): Bytes
    requires h < |e.ends| == |e.rt.chans|
  {
    R.Remaining(e.ends[h].reader, e.rt.chans[h].queue)
  }

  lemma ReadKeepsInv(e: Endpoint, h: nat, room: nat)
    requires CanFinish(e, h)
    ensures CanFinish(DoRead(e, h, room), h)
    ensures var e' := DoRead(e, h, room); Received(e'.rt.chans[h], e'.ends[h]) == Received(e.rt.chans[h], e.ends[h])
  {
    assert Enabled(e, [], Read(h, room));
    StepBase(e, [], Read(h, room));
    ReadEnding(e, h, room);
    ReadFlow(e, h, room);
    ReadTouches(e, h, room);
  }

  /** The polls it takes at most: one for each byte, and one for the end. */
  ghost function PollsLeft(e: Endpoint, h: nat): nat
    requires h < |e.ends| == |e.rt.chans|
  {
    |ToRead(e, h)| + if e.ends[h].taken == NoTerminal then 1 else 0
  }

  lemma ReadState(e: Endpoint, h: nat, room: nat)
    requires h < |e.ends| == |e.rt.chans| && R.ReaderOk(e.ends[h].reader)
    ensures var c, s, e' := e.rt.chans[h], e.ends[h], DoRead(e, h, room);
      var (r, popped, res) := R.PollRead(s.reader, c.queue, Held(e.rt, h), room);
      && h < |e'.ends| == |e'.rt.chans| && (popped ==> c.queue != [])
      && ToRead(e', h) == R.Remaining(r, R.Rest(c.queue, popped))
      && e'.ends[h].taken ==
           if popped && c.queue[0] == End then TookEnd else if popped && c.queue[0].Abort? then TookAbort else s.taken
  {
    R.PollReadShape(e.ends[h].reader, e.rt.chans[h].queue, Held(e.rt, h), room);
  }

  /** The head of an ending queue, if there is one, is a chunk with bytes or the end, and then nothing is behind it. */
  lemma HeadOfEnding(e: Endpoint, h: nat)
    requires CanFinish(e, h)
    ensures var q := e.rt.chans[h].queue;
      && (e.ends[h].taken == TookEnd ==> q == []) && (e.ends[h].taken != TookEnd ==> q != [])
      && (q != [] && q[0].Chunk? ==> q[0].bytes != []) && (q != [] && !q[0].Chunk? ==> q == [End])
  {
    var q := e.rt.chans[h].queue;
    assert EndOk(e.rt, h, e.ends[h]);
    if q != [] {
      assert q[0] in q;
      if !q[0].Chunk? { TerminalIsLast(e, h); }
    }
  }

  lemma ReadProgresses(e: Endpoint, h: nat, room: nat)
    requires CanFinish(e, h) && room > 0
    ensures Polled(e, h, room).Ready?
    ensures var e' := DoRead(e, h, room);
      h < |e'.ends| == |e'.rt.chans| && PollsLeft(e', h) <= (if PollsLeft(e, h) == 0 then 0 else PollsLeft(e, h) - 1)
  {
    var q, r := e.rt.chans[h].queue, e.ends[h].reader;
    assert EndOk(e.rt, h, e.ends[h]);
    HeadOfEnding(e, h);
    ReadState(e, h, room);
    R.PollReadRemaining(r, q, Held(e.rt, h), room);
    R.PollReadShape(r, q, Held(e.rt, h), room);
    EmptyTail(q);
    if q == [End] {
      if R.Unread(r) != [] { R.PollReadProgressUnread(r, q, Held(e.rt, h), room); }
    } else if ToRead(e, h) != [] {
      R.PollReadProgress(r, q, Held(e.rt, h), room);
    }
  }

  lemma EmptyTail(q: seq<Item>)
    ensures q == [End] ==> QueueBytes(q) == [] && QueueBytes(q[1..]) == []
    ensures q == [] ==> QueueBytes(q) == []
    ensures q != [] && q[0].Chunk? && q[0].bytes != [] ==> QueueBytes(q) != []
  {
  }

  lemma ReadStep(e: Endpoint, h: nat, room: nat)
    requires CanFinish(e, h) && room > 0
    ensures Enabled(e, [], Read(h, room)) && Polled(e, h, room).Ready?
    ensures var e' := DoRead(e, h, room);
      && CanFinish(e', h) && PollsLeft(e', h) <= (if PollsLeft(e, h) == 0 then 0 else PollsLeft(e, h) - 1)
      && Received(e'.rt.chans[h], e'.ends[h]) == Received(e.rt.chans[h], e.ends[h])
  {
    ReadKeepsInv(e, h, room);
    ReadProgresses(e, h, room);
  }

  /** As many polls as there are bytes, and one more, with buffers that have room, hand out everything and then report
      the end; none of them fails. */
  lemma {:induction false} ReadsToEnd(e: Endpoint, h: nat, rooms: seq<nat>)
    requires CanFinish(e, h) && R.AllPositive(rooms) && |rooms| >= PollsLeft(e, h)
    ensures AllReady(e, h, rooms)
    ensures var e' := ReadOn(e, h, rooms);
      && CanFinish(e', h) && e'.ends[h].taken == TookEnd && ReportsEnd(e', h, 1)
      && e'.ends[h].readOut == Received(e.rt.chans[h], e.ends[h])
    decreases |rooms|
  {
    if rooms == [] {
      HeadOfEnding(e, h);
      NothingLeft(e, h);
    } else {
      ReadStep(e, h, rooms[0]);
      ReadsToEnd(DoRead(e, h, rooms[0]), h, rooms[1..]);
    }
  }

  lemma NothingLeft(e: Endpoint, h: nat)
    requires CanFinish(e, h) && PollsLeft(e, h) == 0 && e.rt.chans[h].queue == []
    ensures ReportsEnd(e, h, 1) && e.ends[h].readOut == Received(e.rt.chans[h], e.ends[h])
  {
    assert EndOk(e.rt, h, e.ends[h]);
    R.ZeroReadMeaning(e.ends[h].reader, [], Held(e.rt, h), 1);
    assert R.Unread(e.ends[h].reader) == [];
  }

  /** In every run without id reuse: once the Fin of a stream was handled while it was registered, a reader that is still
      there can read on, with buffers of any sizes, and is given everything the other writer ever put on the link, and
      then the end of the stream, and no poll fails. */
  lemma FinIsRead(run: seq<Net>, acts: seq<Action>, j: nat, k: nat, flip: bool, g: nat, h: nat, rooms: seq<nat>)
    requires IsRun(run, acts) && j < k < |run| && FewOpens(run[k]) && HandlesFin(run, acts, j, flip, h)
    requires var n := View(run[k], flip);
      && SameStream(n, g, h) && n.right.ends[h].phase == Exposed && n.right.rt.chans[h].alive
      && R.AllPositive(rooms) && |rooms| > |ToRead(n.right, h)|
    ensures var n := View(run[k], flip); var e' := ReadOn(n.right, h, rooms);
      && AllReady(n.right, h, rooms) && h < |e'.ends| == |e'.rt.chans|
      && e'.ends[h].readOut == n.left.ends[g].sentOut && e'.ends[h].taken == TookEnd && ReportsEnd(e', h, 1)
  {
    RunView(run, acts, k, flip);
    FinStays(run, acts, j, k, flip, h);
    var n := View(run[k], flip);
    var e := n.right;
    assert EndFresh(e, h, DigestOf(e.out), Told(e, n.left.out));
    ToldOfSent(n, g, h);
    ReadsToEnd(e, h, rooms);
    EndingReceived(e, h, DigestOf(e.out), Told(e, n.left.out));
  }

  lemma EndingReceived(e: Endpoint, h: nat, sent: Digest, told: Digest)
    requires BaseInv(e) && Ending(e, h) && EndFresh(e, h, sent, told) && e.rt.chans[h].alive && e.ends[h].phase == Exposed
    ensures e.rt.chans[h].id in told.fins && Received(e.rt.chans[h], e.ends[h]) == Got(told, e.rt.chans[h].id)
  {
    var c, s := e.rt.chans[h], e.ends[h];
    if s.taken == TookEnd { assert s.readOut <= Received(c, s) <= Got(told, c.id); }
  }
}
