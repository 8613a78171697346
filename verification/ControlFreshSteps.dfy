/** Every step of an endpoint keeps the fresh-id invariant, given what the peer's log promises. */
module ControlFreshSteps {
  import opened Wrappers
  import opened ControlTypes
  import opened ControlRuntime
  import opened ControlLog
  import opened ControlEndpoint
  import opened ControlBase
  import opened ControlFresh
  import W = ControlWriter

  // ---------------------------------------------------------------- writing

  /** What a writer's frames about stream `i` add to the log. */
  ghost predicate Spoke(d: Digest, d': Digest, i: U32, bytes: Bytes, fin: bool) {
    && d'.announced == d.announced && d'.answered == d.answered
    && (forall j :: j != i ==> SameOn(d, d', j))
    && Got(d', i) == Got(d, i) + bytes
    && (i in d'.fins <==> i in d.fins || fin)
    && (forall j :: j in d'.fins ==> j in d.fins || j == i)
  }

  lemma SpeakOnce(log: seq<Frame>, f: Frame, p: nat)
    requires LawfulLog(log, p) && ((f.Data? && f.bytes != []) || f.Fin?)
    requires Established(DigestOf(log), p, f.id) && f.id !in DigestOf(log).fins
    ensures LawfulLog(log + [f], p)
    ensures Spoke(DigestOf(log), DigestOf(log + [f]), f.id, if f.Data? then f.bytes else [], f.Fin?)
    ensures Established(DigestOf(log + [f]), p, f.id)
  {
    LogAppend(log, f, p);
    forall j | j != f.id ensures SameOn(DigestOf(log), DigestOf(log + [f]), j) {
      NoteOther(DigestOf(log), f, j);
    }
  }

  lemma SpokeTwice(d0: Digest, d1: Digest, d2: Digest, i: U32, bytes: Bytes)
    requires Spoke(d0, d1, i, bytes, false) && Spoke(d1, d2, i, [], true)
    ensures Spoke(d0, d2, i, bytes, true)
  {
    forall j | j != i ensures SameOn(d0, d2, j) {
      assert SameOn(d0, d1, j) && SameOn(d1, d2, j);
    }
  }

  predicate EndsInFin(fs: seq<Frame>) {
    fs != [] && fs[|fs| - 1].Fin?
  }

  lemma SpeakTwo(log: seq<Frame>, f: Frame, g: Frame, p: nat)
    requires LawfulLog(log, p) && f.Data? && f.bytes != [] && g.Fin? && f.id == g.id
    requires Established(DigestOf(log), p, f.id) && f.id !in DigestOf(log).fins
    ensures LawfulLog(log + [f] + [g], p)
    ensures Spoke(DigestOf(log), DigestOf(log + [f] + [g]), f.id, f.bytes, true)
  {
    SpeakOnce(log, f, p);
    SpeakOnce(log + [f], g, p);
    SpokeTwice(DigestOf(log), DigestOf(log + [f]), DigestOf(log + [f] + [g]), f.id, f.bytes);
  }

  lemma SpeakNothing(log: seq<Frame>, p: nat, i: U32)
    requires LawfulLog(log, p)
    ensures Spoke(DigestOf(log), DigestOf(log), i, [], false)
  {
  }

  lemma SpeakFrames(log: seq<Frame>, fs: seq<Frame>, p: nat, i: U32)
    requires LawfulLog(log, p) && |fs| <= 2
    requires forall k :: 0 <= k < |fs| ==> fs[k].id == i && ((fs[k].Data? && fs[k].bytes != []) || fs[k].Fin?)
    requires |fs| == 2 ==> fs[0].Data? && fs[1].Fin?
    requires fs != [] ==> Established(DigestOf(log), p, i) && i !in DigestOf(log).fins
    ensures LawfulLog(log + fs, p)
    ensures Spoke(DigestOf(log), DigestOf(log + fs), i, W.FrameBytes(fs), EndsInFin(fs))
  {
    W.FrameBytesShort(fs);
    if fs == [] {
      assert log + fs == log;
      SpeakNothing(log, p, i);
    } else if |fs| == 1 {
      assert log + fs == log + [fs[0]] by { assert fs == [fs[0]]; }
      SpeakOnce(log, fs[0], p);
    } else {
      assert log + fs == log + [fs[0]] + [fs[1]] by { assert fs == [fs[0]] + [fs[1]]; }
      SpeakTwo(log, fs[0], fs[1], p);
    }
  }

  lemma SendFresh(e: Endpoint, h: nat, call: W.Call, wenv: W.Env, sent: Digest, told: Digest)
    requires BaseInv(e) && Fresh(e, sent, told) && sent == DigestOf(e.out)
    requires h < |e.ends| && e.ends[h].phase == Exposed
    ensures var e' := DoSend(e, h, call, wenv); Fresh(e', DigestOf(e'.out), told)
  {
    var (w, fs, _) := W.Do(e.ends[h].writer, call, wenv);
    var e' := DoSend(e, h, call, wenv);
    var i := e.rt.chans[h].id;
    assert EndFresh(e, h, sent, told);
    assert EndOk(e.rt, h, e.ends[h]);
    W.CallFrames(e.ends[h].writer, call, wenv);
    assert forall k :: 0 <= k < |fs| ==> fs[k] in fs;
    SpeakFrames(e.out, fs, e.rt.parity, i);
    SpokeFresh(e, e', h, W.FrameBytes(fs), EndsInFin(fs), sent, DigestOf(e'.out), told);
  }

  lemma SpokeFresh(e: Endpoint, e': Endpoint, h: nat, bytes: Bytes, fin: bool, sent: Digest, sent': Digest, told: Digest)
    requires Fresh(e, sent, told) && h < |e.ends| && Spoke(sent, sent', e.rt.chans[h].id, bytes, fin)
    requires |e'.ends| == |e.ends| && e' == e.(out := e'.out, ends := e.ends[h := e'.ends[h]])
    requires e'.ends[h] == e.ends[h].(writer := e'.ends[h].writer, sentOut := e.ends[h].sentOut + bytes)
    requires LawfulLog(e'.out, e.rt.parity)
    requires W.Quiet(e.ends[h].writer) || fin ==> W.Quiet(e'.ends[h].writer)
    ensures Fresh(e', sent', told)
  {
    assert EndFresh(e, h, sent, told);
    forall g | 0 <= g < |e.ends| && g != h ensures Untouched(e, e', g, sent, sent', told, told) {
      assert EndFresh(e, g, sent, told);
      DistinctIds(e, g, h, sent, told);
    }
    OneFresh(e, e', h, sent, sent', told, told);
  }

  // ---------------------------------------------------------------- a reply that never left

  /** The runtime closed because its refusal was lost. */
  lemma RefusalLostFresh(e1: Endpoint, f: Frame, r: CommandResult, out: seq<Frame>, sent: Digest, told: Digest)
    requires Fresh(e1, Note(sent, OpenResp(f.id, r)), told) && Covered(e1, sent, told) && LawfulLog(out, e1.rt.parity)
    requires forall g :: 0 <= g < |e1.ends| ==> e1.rt.chans[g].id != f.id
    ensures Fresh(e1.(out := out), sent, told)
  {
    var e2 := e1.(out := out);
    var sent1 := Note(sent, OpenResp(f.id, r));
    forall g | 0 <= g < |e1.ends| ensures Untouched(e1, e2, g, sent1, sent, told, told) {
      assert EndFresh(e1, g, sent1, told);
      NoteOther(sent, OpenResp(f.id, r), e1.rt.chans[g].id);
    }
    OneFresh(e1, e2, |e1.ends|, sent1, sent, told, told);
  }

  /** The half that was about to be handed out is dropped. */
  function TakenBack(e: Endpoint, h: nat, out: seq<Frame>): Endpoint
    requires h < |e.ends| == |e.rt.chans|
  {
    e.(out := out, rt := DropReceiver(e.rt, h), ends := e.ends[h := e.ends[h].(phase := Over)])
  }

  lemma TakenBackHalf(e: Endpoint, h: nat, f: Frame, r: CommandResult, out: seq<Frame>, sent: Digest, told: Digest)
    requires h < |e.ends| == |e.rt.chans| && EndFresh(e, h, Note(sent, OpenResp(f.id, r)), told)
    requires f.id !in sent.answered && f.id !in sent.announced && f.id !in sent.fins && Got(sent, f.id) == []
    requires e.rt.chans[h].id == f.id && !e.ends[h].local
    ensures EndFresh(TakenBack(e, h, out), h, sent, told)
  {
    var e' := TakenBack(e, h, out);
    FlowDropped(e.rt.chans[h], e.ends[h], e'.rt.chans[h], e'.ends[h],
                HoldsStream(e.rt, h), HoldsPending(e.rt, h), Got(told, f.id), f.id in told.fins);
  }

  lemma TakenBackOther(e: Endpoint, h: nat, g: nat, f: Frame, r: CommandResult, out: seq<Frame>, sent: Digest, told: Digest)
    requires h < |e.ends| == |e.rt.chans| && g < |e.ends| && g != h && EndFresh(e, g, Note(sent, OpenResp(f.id, r)), told)
    requires e.rt.chans[g].id != f.id
    ensures Untouched(e, TakenBack(e, h, out), g, Note(sent, OpenResp(f.id, r)), sent, told, told)
  {
    NoteOther(sent, OpenResp(f.id, r), e.rt.chans[g].id);
  }

  /** The runtime closed because its acceptance was lost. */
  lemma AcceptanceLostFresh(e1: Endpoint, h: nat, f: Frame, r: CommandResult, out: seq<Frame>, sent: Digest, told: Digest)
    requires Fresh(e1, Note(sent, OpenResp(f.id, r)), told) && Covered(e1, sent, told) && LawfulLog(out, e1.rt.parity)
    requires f.id !in sent.answered && f.id !in sent.announced && f.id !in sent.fins && Got(sent, f.id) == []
    requires h < |e1.ends| && e1.rt.chans[h].id == f.id && !e1.ends[h].local
    ensures Fresh(TakenBack(e1, h, out), sent, told)
  {
    var e2 := TakenBack(e1, h, out);
    var sent1 := Note(sent, OpenResp(f.id, r));
    forall g | 0 <= g < |e1.ends| && g != h ensures Untouched(e1, e2, g, sent1, sent, told, told) {
      assert EndFresh(e1, g, sent1, told);
      DistinctIds(e1, g, h, sent1, told);
      TakenBackOther(e1, h, g, f, r, out, sent, told);
    }
    assert EndFresh(e1, h, sent1, told);
    TakenBackHalf(e1, h, f, r, out, sent, told);
    assert Covered(e2, sent, told);
    OneFresh(e1, e2, h, sent1, sent, told, told);
  }

  lemma AnswerLostFresh(e: Endpoint, f: Frame, env: Consult, reason: Reason, sent: Digest, told: Digest)
    requires BaseInv(e) && Fresh(e, sent, told) && sent == DigestOf(e.out) && f.Open?
    requires Lawful(told, 1 - e.rt.parity, f) && SpeakersEstablished(told, 1 - e.rt.parity)
    ensures var (rt, _) := HandleOpen(e.rt, f.id, f.purpose, env);
      Fresh(ReplyLost(Accepted(e, f, rt), |e.rt.chans|, reason), sent, Note(told, f))
  {
    var (rt, r) := HandleOpen(e.rt, f.id, f.purpose, env);
    OpenFrameFresh(e, f, env, sent, told);
    HandleOpenBase(e, f, env);
    var e0 := Accepted(e, f, rt).(out := e.out + [OpenResp(f.id, r)]);
    assert BaseInv(e0);
    CloseAllFresh(e0, reason, Note(sent, OpenResp(f.id, r)), Note(told, f));
    AnnouncedIdIsNew(e, f, sent, told);
    AnswerTakenBack(e, e0, f, r, reason, sent, told);
  }

  lemma AnswerTakenBack(e: Endpoint, e0: Endpoint, f: Frame, r: CommandResult, reason: Reason, sent: Digest, told: Digest)
    requires Fresh(e, sent, told) && |e0.ends| == |e0.rt.chans|
    requires Fresh(e0.(rt := CloseAll(e0.rt, reason)), Note(sent, OpenResp(f.id, r)), Note(told, f))
    requires f.Open? && f.id !in sent.answered && f.id !in sent.announced && f.id !in sent.fins && Got(sent, f.id) == []
    requires forall h :: 0 <= h < |e.ends| ==> e.rt.chans[h].id != f.id
    requires (e0.rt.chans == e.rt.chans && e0.index == e.index && e0.ends == e.ends)
      || (e0.index == e.index[f.id := |e.rt.chans|] && |e0.ends| == |e.ends| + 1
          && e0.rt.chans[|e.ends|].id == f.id && !e0.ends[|e.ends|].local)
    requires e0.rt.parity == e.rt.parity
    ensures Fresh(ReplyLost(e0, |e.rt.chans|, reason).(out := e.out), sent, Note(told, f))
  {
    var e1 := e0.(rt := CloseAll(e0.rt, reason));
    CoveredUnreplied(e, e1, f, sent, told);
    if |e1.ends| > |e.ends| {
      AcceptanceLostFresh(e1, |e.ends|, f, r, e.out, sent, Note(told, f));
    } else {
      RefusalLostFresh(e1, f, r, e.out, sent, Note(told, f));
    }
  }

  lemma ReplyLostFresh(e: Endpoint, f: Frame, env: Consult, reason: Reason, sent: Digest, told: Digest)
    requires BaseInv(e) && Fresh(e, sent, told) && sent == DigestOf(e.out)
    requires Lawful(told, 1 - e.rt.parity, f) && SpeakersEstablished(told, 1 - e.rt.parity)
    requires HandleFrame(e.rt, f, env).1.Some?
    ensures Fresh(ReplyLost(Accepted(e, f, HandleFrame(e.rt, f, env).0), |e.rt.chans|, reason), sent, Note(told, f))
  {
    if f.Open? {
      AnswerLostFresh(e, f, env, reason, sent, told);
    } else {
      var rt := HandleFrame(e.rt, f, env).0;
      DataFrameFresh(e, f, sent, told);
      HandleFrameBase(e, f, env);
      LogReplaced(WithReply(e.(rt := rt), HandleFrame(e.rt, f, env).1), e.out, sent, Note(told, f));
      CloseAllFresh(e.(rt := rt), reason, sent, Note(told, f));
    }
  }

  lemma CoveredUnreplied(e: Endpoint, e1: Endpoint, f: Frame, sent: Digest, told: Digest)
    requires Covered(e, sent, told)
    requires forall i :: i in e1.index ==> e1.index[i] < |e1.rt.chans| && e1.rt.chans[e1.index[i]].id == i
    requires forall i :: i in e.index ==> i in e1.index
    ensures Covered(e1, sent, Note(told, f))
  {
  }

  /** What receiving a frame has to establish, apart from where the log is cut. */
  ghost predicate HeardFresh(e': Endpoint, f: Frame, told: Digest) { Fresh(e', DigestOf(e'.out), Note(told, f)) }

  lemma ReceiveLost(e: Endpoint, f: Frame, env: Consult, reason: Reason, told: Digest)
    requires BaseInv(e) && Fresh(e, DigestOf(e.out), told) && !e.rt.closed && HandleFrame(e.rt, f, env).1.Some?
    requires Lawful(told, 1 - e.rt.parity, f) && SpeakersEstablished(told, 1 - e.rt.parity)
    ensures HeardFresh(ReplyLost(Accepted(e, f, HandleFrame(e.rt, f, env).0), |e.rt.chans|, reason), f, told)
  {
    ReplyLostFresh(e, f, env, reason, DigestOf(e.out), told);
  }

  lemma ReceiveReplied(e: Endpoint, f: Frame, env: Consult, told: Digest)
    requires BaseInv(e) && Fresh(e, DigestOf(e.out), told) && !e.rt.closed
    requires Lawful(told, 1 - e.rt.parity, f) && SpeakersEstablished(told, 1 - e.rt.parity)
    ensures HeardFresh(WithReply(Accepted(e, f, HandleFrame(e.rt, f, env).0), HandleFrame(e.rt, f, env).1), f, told)
  {
    FrameFresh(e, f, env, DigestOf(e.out), told);
  }

  /** Handling a frame, with its three endings. */
  ghost function Handled(e: Endpoint, f: Frame, env: Consult, fate: SendFate): Endpoint
    requires Valid(e.rt)
  {
    if e.rt.closed then e
    else if HandleFrame(e.rt, f, env).1.Some? && fate.Lost? then
      ReplyLost(Accepted(e, f, HandleFrame(e.rt, f, env).0), |e.rt.chans|, fate.reason)
    else WithReply(Accepted(e, f, HandleFrame(e.rt, f, env).0), HandleFrame(e.rt, f, env).1)
  }

  lemma ReceiveIsHandled(e: Endpoint, f: Frame, env: Consult, fate: SendFate)
    requires Valid(e.rt) && fate != TooLarge
    ensures DoReceive(e, f, env, fate) == Handled(e.(handled := e.handled + 1), f, env, fate)
    ensures DoReceive(e, f, env, fate).handled == e.handled + 1
  {
  }

  lemma HandledFresh(e: Endpoint, f: Frame, env: Consult, fate: SendFate, told: Digest)
    requires BaseInv(e) && Fresh(e, DigestOf(e.out), told)
    requires Lawful(told, 1 - e.rt.parity, f) && SpeakersEstablished(told, 1 - e.rt.parity)
    ensures HeardFresh(Handled(e, f, env, fate), f, told)
  {
    if e.rt.closed {
      HearOnly(e, f, DigestOf(e.out), told);
    } else if HandleFrame(e.rt, f, env).1.Some? && fate.Lost? {
      ReceiveLost(e, f, env, fate.reason, told);
    } else {
      ReceiveReplied(e, f, env, told);
    }
  }

  lemma ReceiveKept(e: Endpoint, f: Frame, env: Consult, fate: SendFate, told: Digest)
    requires BaseInv(e) && Fresh(e, DigestOf(e.out), told) && fate != TooLarge
    requires Lawful(told, 1 - e.rt.parity, f) && SpeakersEstablished(told, 1 - e.rt.parity)
    ensures HeardFresh(DoReceive(e, f, env, fate), f, told)
  {
    HandledIrrelevant(e, e.handled + 1, DigestOf(e.out), told);
    HandledFresh(e.(handled := e.handled + 1), f, env, fate, told);
    ReceiveIsHandled(e, f, env, fate);
  }

  /** One more frame of the log is handled. */
  lemma ToldNext(e: Endpoint, e': Endpoint, inbox: seq<Frame>, f: Frame, told: Digest)
    requires e.handled < |inbox| && f == inbox[e.handled] && told == Told(e, inbox) && e'.handled == e.handled + 1
    requires HeardFresh(e', f, told) && DigestOf(inbox[..e.handled + 1]) == Note(told, f)
    ensures FreshInv(e', inbox)
  {
  }

  lemma ReceiveFresh(e: Endpoint, inbox: seq<Frame>, env: Consult, fate: SendFate)
    requires BaseInv(e) && FreshInv(e, inbox) && PeerOk(e, inbox) && e.handled < |inbox| && fate != TooLarge
    ensures FreshInv(DoReceive(e, inbox[e.handled], env, fate), inbox)
  {
    var f := inbox[e.handled];
    var p := 1 - e.rt.parity;
    LogNext(inbox, e.handled, p);
    LawfulSpeakers(inbox[..e.handled], p);
    ReceiveKept(e, f, env, fate, Told(e, inbox));
    ReceiveIsHandled(e, f, env, fate);
    ToldNext(e, DoReceive(e, f, env, fate), inbox, f, Told(e, inbox));
  }

  lemma HandledIrrelevant(e: Endpoint, n: nat, sent: Digest, told: Digest)
    requires Fresh(e, sent, told) && BaseInv(e)
    ensures Fresh(e.(handled := n), sent, told) && BaseInv(e.(handled := n))
  {
    forall h | 0 <= h < |e.ends| ensures EndFresh(e.(handled := n), h, sent, told) {
      assert EndFresh(e, h, sent, told);
    }
  }

  // ---------------------------------------------------------------- every step

  lemma ListenFresh(e: Endpoint, inbox: seq<Frame>)
    requires FreshInv(e, inbox)
    ensures FreshInv(e.(rt := ControlRuntime.Listen(e.rt)), inbox)
  {
    var sent, told := DigestOf(e.out), Told(e, inbox);
    var e' := e.(rt := ControlRuntime.Listen(e.rt));
    forall h | 0 <= h < |e.ends| ensures EndFresh(e', h, sent, told) { assert EndFresh(e, h, sent, told); }
  }

  lemma StartFresh(e: Endpoint, inbox: seq<Frame>, k: nat, purpose: Purpose, fate: SendFate)
    requires BaseInv(e) && FreshInv(e, inbox) && PeerOk(e, inbox) && Enabled(e, inbox, OpenStart(k, purpose, fate))
    requires e.opens < MAX_OPENS
    ensures FreshInv(DoOpenStart(e, k, purpose, fate), inbox)
  {
    var sent, told := DigestOf(e.out), Told(e, inbox);
    NextIdIsNew(e, k, sent, told);
    NewIdUnheard(e, inbox, Nth(e.rt.next, k));
    OpenStartFresh(e, k, purpose, fate, sent, told);
  }

  /** The rest of an open, and dropping a reader. */
  lemma HalfStepsFresh(e: Endpoint, inbox: seq<Frame>, s: Step)
    requires BaseInv(e) && FreshInv(e, inbox) && Enabled(e, inbox, s)
    requires s.OpenReturn? || s.OpenDrop? || s.OpenCleanup? || s.DropReader?
    ensures FreshInv(Apply(e, inbox, s), inbox)
  {
    var sent, told := DigestOf(e.out), Told(e, inbox);
    match s
    case OpenReturn(h) => OpenReturnFresh(e, h, sent, told);
    case OpenDrop(h) => OpenDropFresh(e, h, sent, told);
    case OpenCleanup(h) => OpenCleanupFresh(e, h, sent, told);
    case DropReader(h) => DropReaderFresh(e, h, sent, told);
  }

  lemma UseFresh(e: Endpoint, inbox: seq<Frame>, s: Step)
    requires BaseInv(e) && FreshInv(e, inbox) && Enabled(e, inbox, s) && (s.Close? || s.Read? || s.Send?)
    ensures FreshInv(Apply(e, inbox, s), inbox)
  {
    var sent, told := DigestOf(e.out), Told(e, inbox);
    match s
    case Close(reason) => CloseAllFresh(e, reason, sent, told);
    case Read(h, room) => ReadFresh(e, inbox, h, room, sent, told);
    case Send(h, call, wenv) => SendFresh(e, h, call, wenv, sent, told);
  }

  lemma StepFresh(e: Endpoint, inbox: seq<Frame>, s: Step)
    requires BaseInv(e) && FreshInv(e, inbox) && PeerOk(e, inbox) && Enabled(e, inbox, s)
    requires Apply(e, inbox, s).opens <= MAX_OPENS
    ensures FreshInv(Apply(e, inbox, s), inbox)
  {
    match s
    case Listen => ListenFresh(e, inbox);
    case OpenStart(k, purpose, fate) => StartFresh(e, inbox, k, purpose, fate);
    case Receive(env, fate) => ReceiveFresh(e, inbox, env, fate);
    case Close(_) => UseFresh(e, inbox, s);
    case Read(_, _) => UseFresh(e, inbox, s);
    case Send(_, _, _) => UseFresh(e, inbox, s);
    case _ => HalfStepsFresh(e, inbox, s);
  }
}
