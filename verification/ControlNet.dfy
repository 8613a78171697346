/** Two control-stream runtimes over two reliable ordered links: what holds in every run. */
module ControlNet {
  import opened Wrappers
  import opened ControlTypes
  import opened ControlRuntime
  import opened ControlLog
  import opened ControlEndpoint
  import opened ControlBase
  import opened ControlFresh
  import opened ControlFreshSteps
  import R = ControlReader
  import W = ControlWriter

  datatype Net = Net(left: Endpoint, right: Endpoint)

  /** The same net, seen from the other side. */
  function Swap(n: Net): Net { Net(n.right, n.left) }

  datatype Action = Action(onLeft: bool, step: Step)

  const Initial := Net(Start(true), Start(false))

  /** One endpoint takes one step; the other one and its log stay put. */
  ghost predicate LeftMoves(n: Net, s: Step, n': Net) {
    && Enabled(n.left, n.right.out, s)
    && n'.right == n.right
    && (Valid(n.left.rt) ==> n'.left == Apply(n.left, n.right.out, s))
  }

  ghost predicate Moves(n: Net, a: Action, n': Net) {
    if a.onLeft then LeftMoves(n, a.step, n') else LeftMoves(Swap(n), a.step, Swap(n'))
  }

  ghost predicate IsRun(run: seq<Net>, acts: seq<Action>) {
    && |run| == |acts| + 1 && run[0] == Initial
    && forall k :: 0 <= k < |acts| ==> Moves(run[k], acts[k], run[k + 1])
  }

  // ---------------------------------------------------------------- invariants over runs

  ghost predicate NetBase(n: Net) { BaseInv(n.left) && BaseInv(n.right) }

  lemma {:induction false} RunBase(run: seq<Net>, acts: seq<Action>, k: nat)
    requires IsRun(run, acts) && k < |run|
    ensures NetBase(run[k])
    decreases k
  {
    if k > 0 {
      RunBase(run, acts, k - 1);
      var n, a := run[k - 1], acts[k - 1];
      assert Moves(n, a, run[k]);
      if a.onLeft { StepBase(n.left, n.right.out, a.step); } else { StepBase(n.right, n.left.out, a.step); }
    }
  }

  ghost predicate SideFresh(e: Endpoint, peer: Endpoint) {
    FreshInv(e, peer.out) && PeerOk(e, peer.out)
  }

  ghost predicate NetFresh(n: Net) {
    n.left.rt.parity + n.right.rt.parity == 1 && SideFresh(n.left, n.right) && SideFresh(n.right, n.left)
  }

  /** Logs only grow, and a step handles at most one more frame. */
  lemma StepGrows(e: Endpoint, inbox: seq<Frame>, s: Step)
    requires Valid(e.rt) && Enabled(e, inbox, s)
    ensures var e' := Apply(e, inbox, s);
      && e.out <= e'.out && e.opens <= e'.opens && e'.rt.parity == e.rt.parity
  {
    if s.Receive? { ReceiveGrows(e, inbox[e.handled], s.env, s.fate); }
  }

  lemma ReceiveGrows(e: Endpoint, f: Frame, env: Consult, fate: SendFate)
    requires Valid(e.rt)
    ensures var e' := DoReceive(e, f, env, fate);
      && e.out <= e'.out && e.opens <= e'.opens && e'.rt.parity == e.rt.parity
  {
    HandleFrameParity(e.rt, f, env);
  }

  lemma HandleFrameParity(rt: Runtime, f: Frame, env: Consult)
    requires f.id in rt.streams ==> rt.streams[f.id] < |rt.chans|
    requires f.id in rt.pending ==> rt.pending[f.id].chan < |rt.chans|
    ensures HandleFrame(rt, f, env).0.parity == rt.parity
  {
  }

  /** The mover's step, seen by the side that did not move. */
  lemma StillFresh(e: Endpoint, e': Endpoint, peer: Endpoint)
    requires SideFresh(peer, e) && FreshInv(e', peer.out) && e.out <= e'.out && e'.rt.parity == e.rt.parity
    requires e.rt.parity < 2 && peer.rt.parity == 1 - e.rt.parity && LawfulLog(peer.out, peer.rt.parity)
    ensures SideFresh(peer, e')
  {
    assert e'.out[..peer.handled] == e.out[..peer.handled];
    DigestGrows(peer.out, e'.handled, peer.rt.parity);
  }

  /** The mover's own view: the peer answers only what was announced. */
  lemma MoverPeerOk(e: Endpoint, e': Endpoint, peer: Endpoint)
    requires PeerOk(e, peer.out) && e.out <= e'.out && e'.rt.parity == e.rt.parity && LawfulLog(e'.out, e.rt.parity)
    ensures PeerOk(e', peer.out)
  {
    assert e'.out[..|e.out|] == e.out;
    DigestGrows(e'.out, |e.out|, e.rt.parity);
  }

  lemma LeftMovesFresh(n: Net, s: Step, n': Net)
    requires NetBase(n) && SideFresh(n.left, n.right) && SideFresh(n.right, n.left)
    requires n.left.rt.parity == 1 - n.right.rt.parity && LeftMoves(n, s, n')
    requires n'.left.opens <= MAX_OPENS
    ensures SideFresh(n'.left, n'.right) && SideFresh(n'.right, n'.left) && n'.left.rt.parity == n.left.rt.parity
  {
    StepFresh(n.left, n.right.out, s);
    StepGrows(n.left, n.right.out, s);
    StillFresh(n.left, n'.left, n.right);
    MoverPeerOk(n.left, n'.left, n.right);
  }

  ghost predicate FewOpens(n: Net) { n.left.opens <= MAX_OPENS && n.right.opens <= MAX_OPENS }

  lemma {:induction false} OpensGrow(run: seq<Net>, acts: seq<Action>, j: nat, k: nat)
    requires IsRun(run, acts) && j <= k < |run|
    ensures run[j].left.opens <= run[k].left.opens && run[j].right.opens <= run[k].right.opens
    decreases k - j
  {
    if j < k {
      OpensGrow(run, acts, j + 1, k);
      RunBase(run, acts, j);
      var n, a := run[j], acts[j];
      assert Moves(n, a, run[j + 1]);
      if a.onLeft { StepGrows(n.left, n.right.out, a.step); } else { StepGrows(n.right, n.left.out, a.step); }
    }
  }

  lemma {:induction false} RunFresh(run: seq<Net>, acts: seq<Action>, k: nat)
    requires IsRun(run, acts) && k < |run| && FewOpens(run[k])
    ensures NetFresh(run[k])
    decreases k
  {
    if k > 0 {
      var n, a := run[k - 1], acts[k - 1];
      OpensGrow(run, acts, k - 1, k);
      RunFresh(run, acts, k - 1);
      RunBase(run, acts, k - 1);
      assert Moves(n, a, run[k]);
      if a.onLeft { LeftMovesFresh(n, a.step, run[k]); } else { LeftMovesFresh(Swap(n), a.step, Swap(run[k])); }
    }
  }

  // ---------------------------------------------------------------- what users of the runtimes can rely on

  /** A net as one of its two sides sees it; the theorems speak of the right side of a view. */
  function View(n: Net, flip: bool): Net { if flip then Swap(n) else n }

  /** The halves `g` on the left and `h` on the right are the two ends of one stream. */
  ghost predicate SameStream(n: Net, g: nat, h: nat) {
    && g < |n.left.ends| == |n.left.rt.chans| && h < |n.right.ends| == |n.right.rt.chans|
    && n.left.rt.chans[g].id == n.right.rt.chans[h].id
  }

  /** What the right half has been told is a prefix of what the left half has sent, and all of it after a Fin. */
  lemma ToldOfSent(n: Net, g: nat, h: nat)
    requires NetBase(n) && NetFresh(n) && SameStream(n, g, h)
    ensures var i := n.right.rt.chans[h].id;
      var told := Told(n.right, n.left.out);
      && Got(told, i) <= n.left.ends[g].sentOut
      && (i in told.fins ==> Got(told, i) == n.left.ends[g].sentOut && W.Quiet(n.left.ends[g].writer))
  {
    DigestGrows(n.left.out, n.right.handled, n.left.rt.parity);
    assert EndFresh(n.left, g, DigestOf(n.left.out), Told(n.left, n.right.out));
  }

  lemma RunView(run: seq<Net>, acts: seq<Action>, k: nat, flip: bool)
    requires IsRun(run, acts) && k < |run| && FewOpens(run[k])
    ensures NetBase(View(run[k], flip)) && NetFresh(View(run[k], flip))
  {
    RunBase(run, acts, k);
    RunFresh(run, acts, k);
  }

  /** In every run without id reuse, the bytes read at either end of a stream are a prefix of the bytes the
      writer at the other end put on the link. */
  lemma ReadsArePrefixes(run: seq<Net>, acts: seq<Action>, k: nat, flip: bool, g: nat, h: nat)
    requires IsRun(run, acts) && k < |run| && FewOpens(run[k]) && SameStream(View(run[k], flip), g, h)
    ensures var n := View(run[k], flip); n.right.ends[h].readOut <= n.left.ends[g].sentOut
  {
    RunView(run, acts, k, flip);
    var n := View(run[k], flip);
    ToldOfSent(n, g, h);
    assert EndFresh(n.right, h, DigestOf(n.right.out), Told(n.right, n.left.out));
  }

  /** In every run without id reuse, while a stream is registered nothing of it is lost: what was read, what is
      left of the chunk being read and what is queued are together a prefix of what the writer at the other end
      put on the link, and all of it once the link is drained. */
  lemma NothingLostWhileRegistered(run: seq<Net>, acts: seq<Action>, k: nat, flip: bool, g: nat, h: nat)
    requires IsRun(run, acts) && k < |run| && FewOpens(run[k]) && SameStream(View(run[k], flip), g, h)
    requires var n := View(run[k], flip); HoldsStream(n.right.rt, h) && n.right.rt.chans[h].alive
    ensures var n := View(run[k], flip);
      var received := Received(n.right.rt.chans[h], n.right.ends[h]);
      && received <= n.left.ends[g].sentOut
      && (n.right.handled == |n.left.out| ==> received == n.left.ends[g].sentOut)
  {
    RunView(run, acts, k, flip);
    var n := View(run[k], flip);
    ToldOfSent(n, g, h);
    DrainedIsTold(n, g);
    assert EndFresh(n.right, h, DigestOf(n.right.out), Told(n.right, n.left.out));
  }

  /** Once the right side has handled everything it has been told all that the left half has sent. */
  lemma DrainedIsTold(n: Net, g: nat)
    requires FreshInv(n.left, n.right.out) && n.right.handled <= |n.left.out| && g < |n.left.ends| == |n.left.rt.chans|
    ensures n.right.handled == |n.left.out| ==>
      Got(Told(n.right, n.left.out), n.left.rt.chans[g].id) == n.left.ends[g].sentOut
  {
    if n.right.handled == |n.left.out| {
      assert n.left.out[..n.right.handled] == n.left.out;
      assert EndFresh(n.left, g, DigestOf(n.left.out), Told(n.left, n.right.out));
    }
  }

  /** A poll that reports end of stream: it hands out nothing into a buffer with room. */
  ghost predicate ReportsEnd(e: Endpoint, h: nat, room: nat)
    requires h < |e.ends| == |e.rt.chans|
  {
    room > 0 && R.PollRead(e.ends[h].reader, e.rt.chans[h].queue, Held(e.rt, h), room).2 == R.Ready([])
  }

  /** End of stream is reported only after `End` was reached, unless a Reset error was reported before. */
  lemma EndMeansFin(e: Endpoint, h: nat, room: nat, sent: Digest, told: Digest)
    requires BaseInv(e) && Fresh(e, sent, told) && h < |e.ends|
    requires e.ends[h].phase == Exposed && e.rt.chans[h].alive && e.ends[h].taken != TookAbort
    requires ReportsEnd(e, h, room)
    ensures e.ends[h].readOut == Got(told, e.rt.chans[h].id) && e.rt.chans[h].id in told.fins
  {
    var c, s := e.rt.chans[h], e.ends[h];
    assert EndOk(e.rt, h, s);
    assert EndFresh(e, h, sent, told);
    R.ZeroReadMeaning(s.reader, c.queue, Held(e.rt, h), room);
    if c.queue != [] {
      assert c.queue[0] in c.queue;
      TerminalIsLast(e, h);
      assert c.queue == [End] && QueueBytes([End]) == [] by { assert [End][1..] == []; }
      assert Received(c, s) == s.readOut;
    }
  }

  /** In every run without id reuse, a reader that is told of a clean end of stream (no Reset before it) has
      read everything the other end's writer ever put on the link, and that writer is done. */
  lemma CleanEndIsComplete(run: seq<Net>, acts: seq<Action>, k: nat, flip: bool, g: nat, h: nat, room: nat)
    requires IsRun(run, acts) && k < |run| && FewOpens(run[k])
    requires var n := View(run[k], flip);
      && SameStream(n, g, h) && n.right.ends[h].phase == Exposed && n.right.rt.chans[h].alive
      && n.right.ends[h].taken != TookAbort && ReportsEnd(n.right, h, room)
    ensures var n := View(run[k], flip);
      n.right.ends[h].readOut == n.left.ends[g].sentOut && W.Quiet(n.left.ends[g].writer)
  {
    RunView(run, acts, k, flip);
    var n := View(run[k], flip);
    ToldOfSent(n, g, h);
    EndMeansFin(n.right, h, room, DigestOf(n.right.out), Told(n.right, n.left.out));
  }

  /** In every run without id reuse, `open` returned Ok on the right only if the left registered exactly that
      id, for exactly that purpose, exactly once. */
  lemma OpenAgreement(run: seq<Net>, acts: seq<Action>, k: nat, flip: bool, h: nat) returns (g: nat)
    requires IsRun(run, acts) && k < |run| && FewOpens(run[k])
    requires var n := View(run[k], flip);
      h < |n.right.ends| == |n.right.rt.chans| && n.right.ends[h].local && n.right.ends[h].phase == Exposed
    ensures var n := View(run[k], flip);
      && SameStream(n, g, h)
      && !n.left.ends[g].local && n.left.ends[g].phase == Exposed
      && n.left.ends[g].purpose == n.right.ends[h].purpose
      && forall g' :: SameStream(n, g', h) ==> g' == g
  {
    RunView(run, acts, k, flip);
    var n := View(run[k], flip);
    var i := n.right.rt.chans[h].id;
    var rsent, rtold := DigestOf(n.right.out), Told(n.right, n.left.out);
    var lsent, ltold := DigestOf(n.left.out), Told(n.left, n.right.out);
    assert EndOk(n.right.rt, h, n.right.ends[h]);
    assert EndFresh(n.right, h, rsent, rtold);
    DigestGrows(n.left.out, n.right.handled, n.left.rt.parity);
    DigestGrows(n.right.out, n.left.handled, n.right.rt.parity);
    assert i in lsent.answered && lsent.answered[i] == Success;
    g := n.left.index[i];
    assert EndFresh(n.left, g, lsent, ltold);
    forall g' | SameStream(n, g', h) ensures g' == g {
      assert EndFresh(n.left, g', lsent, ltold);
    }
  }

  // ---------------------------------------------------------------- claims about every run, reuse or not

  /** Registered queues hold only chunks and leave the terminal slot free; pending ids are local, accepted
      ids are the peer's, and no id is both pending and registered; a stream taken down under a live reader
      ends in exactly one terminal item. */
  lemma QueuesAlwaysHaveRoom(run: seq<Net>, acts: seq<Action>, k: nat, flip: bool, i: U32, h: nat)
    requires IsRun(run, acts) && k < |run|
    ensures var rt := View(run[k], flip).right.rt; var ends := View(run[k], flip).right.ends;
      && (i in rt.streams ==>
            && rt.streams[i] < |rt.chans| && i !in rt.pending
            && AllChunks(rt.chans[rt.streams[i]].queue)
            && |rt.chans[rt.streams[i]].queue| < QUEUE_CAPACITY + TERMINAL_RESERVE)
      && (i in rt.pending ==> i % 2 == rt.parity && i != 0)
      && (h < |ends| ==> h < |rt.chans| && (!ends[h].local ==> IsPeerId(rt, rt.chans[h].id)))
      && (h < |ends| && ends[h].phase == Exposed && rt.chans[h].alive && !HoldsStream(rt, h) ==>
            (ends[h].taken == NoTerminal ==> Sealed(rt.chans[h].queue))
            && (ends[h].taken != NoTerminal ==> rt.chans[h].queue == []))
  {
    RunBase(run, acts, k);
    var e := View(run[k], flip).right;
    if h < |e.ends| { assert EndOk(e.rt, h, e.ends[h]); }
  }

  lemma StepKeepsClosed(e: Endpoint, inbox: seq<Frame>, s: Step)
    requires BaseInv(e) && Enabled(e, inbox, s) && e.rt.closed
    ensures Apply(e, inbox, s).rt.closed && Apply(e, inbox, s).rt.reason == e.rt.reason
  {
  }

  /** Once closed, a runtime keeps its first close reason and both maps empty for the rest of the run. */
  lemma {:induction false} ClosedForever(run: seq<Net>, acts: seq<Action>, j: nat, k: nat, flip: bool)
    requires IsRun(run, acts) && j <= k < |run| && View(run[j], flip).right.rt.closed
    ensures var rt, rt' := View(run[j], flip).right.rt, View(run[k], flip).right.rt;
      && rt'.closed && rt.reason.Some? && rt'.reason == rt.reason
      && rt'.streams == map[] && rt'.pending == map[] && !rt'.listening
    decreases k
  {
    RunBase(run, acts, k);
    if j < k {
      RunBase(run, acts, k - 1);
      ClosedForever(run, acts, j, k - 1, flip);
      var n, a := run[k - 1], acts[k - 1];
      assert Moves(n, a, run[k]);
      if a.onLeft == flip {
        StepKeepsClosed(View(n, flip).right, View(n, flip).left.out, a.step);
      }
    }
  }

  ghost predicate KeepsAnswer(rt: Runtime, rt': Runtime, h: nat) {
    h < |rt.chans| && rt.chans[h].waiter != Waiting ==> h < |rt'.chans| && rt'.chans[h].waiter == rt.chans[h].waiter
  }

  lemma HandleFrameKeepsAnswer(rt: Runtime, f: Frame, env: Consult, h: nat)
    requires Valid(rt)
    ensures KeepsAnswer(rt, HandleFrame(rt, f, env).0, h)
  {
  }

  lemma CloseAllKeepsAnswer(rt: Runtime, reason: Reason, h: nat)
    ensures KeepsAnswer(rt, CloseAll(rt, reason), h)
  {
  }

  lemma ReceiveKeepsAnswer(e: Endpoint, f: Frame, env: Consult, fate: SendFate, h: nat)
    requires Valid(e.rt) && |e.ends| == |e.rt.chans| && h < |e.rt.chans|
    ensures KeepsAnswer(e.rt, DoReceive(e, f, env, fate).rt, h)
  {
    HandleFrameKeepsAnswer(e.rt, f, env, h);
    if fate.Lost? { CloseAllKeepsAnswer(HandleFrame(e.rt, f, env).0, fate.reason, h); }
  }

  lemma OpenStartKeepsAnswer(e: Endpoint, k: nat, purpose: Purpose, fate: SendFate, h: nat)
    requires h < |e.rt.chans|
    ensures KeepsAnswer(e.rt, DoOpenStart(e, k, purpose, fate).rt, h)
  {
    if fate.Lost? { CloseAllKeepsAnswer(BeginOpen(e.rt, k, purpose), fate.reason, h); }
  }

  lemma OtherStepKeepsAnswer(e: Endpoint, inbox: seq<Frame>, s: Step, h: nat)
    requires Valid(e.rt) && |e.ends| == |e.rt.chans| && Enabled(e, inbox, s) && h < |e.rt.chans|
    requires !s.OpenStart? && !s.Receive? && !s.Close?
    ensures KeepsAnswer(e.rt, Apply(e, inbox, s).rt, h)
  {
  }

  lemma StepKeepsAnswer(e: Endpoint, inbox: seq<Frame>, s: Step, h: nat)
    requires Valid(e.rt) && |e.ends| == |e.rt.chans| && Enabled(e, inbox, s) && h < |e.rt.chans|
    ensures KeepsAnswer(e.rt, Apply(e, inbox, s).rt, h)
  {
    match s
    case OpenStart(k, purpose, fate) => OpenStartKeepsAnswer(e, k, purpose, fate, h);
    case Receive(env, fate) => ReceiveKeepsAnswer(e, inbox[e.handled], env, fate, h);
    case Close(reason) => CloseAllKeepsAnswer(e.rt, reason, h);
    case _ => OtherStepKeepsAnswer(e, inbox, s, h);
  }

  /** Each pending open is resolved at most once: an answer, or the loss of the waiter, is final. */
  lemma {:induction false} AnswersAreFinal(run: seq<Net>, acts: seq<Action>, j: nat, k: nat, flip: bool, h: nat)
    requires IsRun(run, acts) && j <= k < |run|
    requires var rt := View(run[j], flip).right.rt; h < |rt.chans| && rt.chans[h].waiter != Waiting
    ensures var rt, rt' := View(run[j], flip).right.rt, View(run[k], flip).right.rt;
      h < |rt'.chans| && rt'.chans[h].waiter == rt.chans[h].waiter
    decreases k
  {
    if j < k {
      RunBase(run, acts, k - 1);
      AnswersAreFinal(run, acts, j, k - 1, flip, h);
      var n, a := run[k - 1], acts[k - 1];
      assert Moves(n, a, run[k]);
      if a.onLeft == flip {
        StepKeepsAnswer(View(n, flip).right, View(n, flip).left.out, a.step, h);
      }
    }
  }

  /** The circumstances in which a runtime accepts an open. */
  ghost predicate Admits(e: Endpoint, inbox: seq<Frame>, s: Step, id: U32, purpose: Purpose) {
    && e.handled < |inbox| && inbox[e.handled] == Open(id, purpose)
    && s.Receive? && s.env.admits && s.env.prepared
    && e.rt.listening && !e.rt.closed && IsPeerId(e.rt, id) && Free(e.rt, id)
  }

  /** A half handed out for a peer's open was there before, or is being accepted now. */
  ghost predicate Exposes(e: Endpoint, inbox: seq<Frame>, s: Step, e': Endpoint, h: nat) {
    h < |e'.ends| && h < |e'.rt.chans| && !e'.ends[h].local && e'.ends[h].phase == Exposed ==>
      if h < |e.ends| && h < |e.rt.chans| then
        !e.ends[h].local && e.ends[h].phase == Exposed
        && e.ends[h].purpose == e'.ends[h].purpose && e.rt.chans[h].id == e'.rt.chans[h].id
      else Admits(e, inbox, s, e'.rt.chans[h].id, e'.ends[h].purpose)
  }

  lemma HandleFrameIds(rt: Runtime, f: Frame, env: Consult, h: nat)
    requires Valid(rt) && h < |rt.chans|
    ensures var rt' := HandleFrame(rt, f, env).0;
      && |rt.chans| <= |rt'.chans| && rt'.chans[h].id == rt.chans[h].id
      && (!f.Open? ==> |rt'.chans| == |rt.chans|)
  {
  }

  lemma FrameExposes(e: Endpoint, inbox: seq<Frame>, env: Consult, fate: SendFate, h: nat)
    requires Valid(e.rt) && |e.ends| == |e.rt.chans| && e.handled < |inbox| && !e.rt.closed
    ensures Exposes(e, inbox, Receive(env, fate),
                    Accepted(e.(handled := e.handled + 1), inbox[e.handled], HandleFrame(e.rt, inbox[e.handled], env).0), h)
  {
    if h < |e.rt.chans| { HandleFrameIds(e.rt, inbox[e.handled], env, h); }
    if !inbox[e.handled].Open? && e.rt.chans != [] { HandleFrameIds(e.rt, inbox[e.handled], env, 0); }
  }

  lemma ReplyLostExposes(e: Endpoint, n: nat, reason: Reason, h: nat)
    requires |e.ends| == |e.rt.chans|
    ensures var e' := ReplyLost(e, n, reason);
      |e'.ends| == |e.ends| == |e'.rt.chans| && (h < |e'.ends| && e'.ends[h].phase == Exposed ==>
        e'.ends[h] == e.ends[h] && e'.rt.chans[h].id == e.rt.chans[h].id)
  {
  }

  /** Whatever happens to the reply. */
  lemma ReplyExposes(e: Endpoint, inbox: seq<Frame>, s: Step, e1: Endpoint, e': Endpoint, n: nat, fate: SendFate, h: nat)
    requires Exposes(e, inbox, s, e1, h) && |e1.ends| == |e1.rt.chans|
    requires (e'.ends == e1.ends && e'.rt == e1.rt) || (fate.Lost? && e' == ReplyLost(e1, n, fate.reason))
    ensures Exposes(e, inbox, s, e', h)
  {
    if fate.Lost? { ReplyLostExposes(e1, n, fate.reason, h); }
  }

  lemma ReceiveExposes(e: Endpoint, inbox: seq<Frame>, env: Consult, fate: SendFate, h: nat)
    requires Valid(e.rt) && |e.ends| == |e.rt.chans| && e.handled < |inbox| && !e.rt.closed
    requires var e1 := Accepted(e.(handled := e.handled + 1), inbox[e.handled], HandleFrame(e.rt, inbox[e.handled], env).0);
      |e1.ends| == |e1.rt.chans|
    ensures Exposes(e, inbox, Receive(env, fate), DoReceive(e, inbox[e.handled], env, fate), h)
  {
    var f := inbox[e.handled];
    FrameExposes(e, inbox, env, fate, h);
    var e1 := Accepted(e.(handled := e.handled + 1), f, HandleFrame(e.rt, f, env).0);
    ReplyExposes(e, inbox, Receive(env, fate), e1, DoReceive(e, f, env, fate), |e.rt.chans|, fate, h);
  }

  lemma AcceptedEnds(e: Endpoint, f: Frame, env: Consult)
    requires BaseInv(e)
    ensures var e1 := Accepted(e.(handled := e.handled + 1), f, HandleFrame(e.rt, f, env).0);
      |e1.ends| == |e1.rt.chans|
  {
    HandleFrameBase(e, f, env);
  }

  lemma StepExposes(e: Endpoint, inbox: seq<Frame>, s: Step, h: nat)
    requires BaseInv(e) && Enabled(e, inbox, s)
    ensures Exposes(e, inbox, s, Apply(e, inbox, s), h)
  {
    if s.Receive? && !e.rt.closed {
      AcceptedEnds(e, inbox[e.handled], s.env);
      ReceiveExposes(e, inbox, s.env, s.fate, h);
    } else if !s.Receive? {
      if h < |e.ends| { assert EndOk(e.rt, h, e.ends[h]); }
      if s.OpenStart? {
        OpenStartExposes(e, inbox, s, h);
      } else {
        OtherStepExposes(e, inbox, s, h);
      }
    }
  }

  /** A half whose open has not returned is a local one. */
  ghost predicate OpeningIsLocal(e: Endpoint, h: nat) {
    h < |e.ends| && e.ends[h].phase == Opening ==> e.ends[h].local
  }

  lemma OpenStartExposes(e: Endpoint, inbox: seq<Frame>, s: Step, h: nat)
    requires Valid(e.rt) && |e.ends| == |e.rt.chans| && Enabled(e, inbox, s) && s.OpenStart?
    ensures Exposes(e, inbox, s, Apply(e, inbox, s), h)
  {
    if h < |e.ends| { assert Apply(e, inbox, s).rt.chans[h].id == e.rt.chans[h].id; }
  }

  lemma OtherStepExposes(e: Endpoint, inbox: seq<Frame>, s: Step, h: nat)
    requires Valid(e.rt) && |e.ends| == |e.rt.chans| && OpeningIsLocal(e, h)
    requires Enabled(e, inbox, s) && !s.Receive? && !s.OpenStart?
    ensures Exposes(e, inbox, s, Apply(e, inbox, s), h)
  {
    if h < |e.ends| { assert Apply(e, inbox, s).rt.chans[h].id == e.rt.chans[h].id; }
  }

  /** In every run, a half handed out for a peer's open stems from one handled Open frame with that id and
      purpose, at a moment when a listener was set, admitted the purpose, and the prepare step succeeded. */
  lemma {:induction false} AcceptedWasAdmitted(run: seq<Net>, acts: seq<Action>, k: nat, flip: bool, h: nat) returns (j: nat)
    requires IsRun(run, acts) && k < |run|
    requires var e := View(run[k], flip).right;
      h < |e.ends| == |e.rt.chans| && !e.ends[h].local && e.ends[h].phase == Exposed
    ensures j < k
    ensures var e := View(run[k], flip).right; var n := View(run[j], flip);
      acts[j].onLeft == flip && Admits(n.right, n.left.out, acts[j].step, e.rt.chans[h].id, e.ends[h].purpose)
    decreases k
  {
    var n, a := run[k - 1], acts[k - 1];
    RunBase(run, acts, k - 1);
    assert Moves(n, a, run[k]);
    var v := View(n, flip);
    if a.onLeft == flip {
      StepExposes(v.right, v.left.out, a.step, h);
      if h < |v.right.ends| {
        j := AcceptedWasAdmitted(run, acts, k - 1, flip, h);
      } else {
        j := k - 1;
      }
    } else {
      j := AcceptedWasAdmitted(run, acts, k - 1, flip, h);
    }
  }

  /** In every run without id reuse, an answer for an open that is no longer pending changes nothing. */
  lemma LateAnswersChangeNothing(run: seq<Net>, acts: seq<Action>, k: nat, flip: bool, h: nat, env: Consult, fate: SendFate)
    requires IsRun(run, acts) && k < |run| && FewOpens(run[k])
    requires var n := View(run[k], flip);
      && h < |n.right.ends| == |n.right.rt.chans| && !HoldsPending(n.right.rt, h)
      && n.right.handled < |n.left.out| && n.left.out[n.right.handled].OpenResp?
      && n.left.out[n.right.handled].id == n.right.rt.chans[h].id && Valid(n.right.rt)
    ensures var n := View(run[k], flip);
      DoReceive(n.right, n.left.out[n.right.handled], env, fate) == n.right.(handled := n.right.handled + 1)
  {
    RunView(run, acts, k, flip);
    var e := View(run[k], flip).right;
    var i := e.rt.chans[h].id;
    if i in e.rt.pending {
      DistinctIds(e, e.rt.pending[i].chan, h, DigestOf(e.out), Told(e, View(run[k], flip).left.out));
    }
  }
}
