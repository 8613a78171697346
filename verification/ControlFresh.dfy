/** What holds while no stream id has been reused: the two ends of a stream belong together, and the bytes
    on their way from a writer to a reader are all accounted for. */
module ControlFresh {
  import opened Wrappers
  import opened ControlTypes
  import opened ControlRuntime
  import opened ControlLog
  import opened ControlEndpoint
  import opened ControlBase
  import R = ControlReader
  import W = ControlWriter

  /** With at most this many opens, a runtime never hands out the same id twice. */
  const MAX_OPENS: nat := 0x7fff_ffff

  function First(parity: nat): nat { if parity == 1 then 1 else 2 }

  ghost predicate EndsWith(q: seq<Item>, x: Item) {
    q != [] && q[|q| - 1] == x
  }

  /** Read already, left over from the chunk being read, and still queued. */
  ghost function Received(c: Chan, s: StreamEnd): Bytes {
    s.readOut + R.Unread(s.reader) + QueueBytes(c.queue)
  }

  /** The half's inbound bytes against `got`, everything the handled part of the peer's log carries for it. */
  ghost predicate Flow(c: Chan, s: StreamEnd, stream: bool, waiting: bool, got: Bytes, fin: bool) {
    && NonEmptyChunks(c.queue)
    && s.readOut <= got
    && (c.alive ==> Received(c, s) <= got)
    && (stream ==> !fin && (c.alive ==> Received(c, s) == got))
    && (waiting ==> !fin && got == [])
    && (EndsWith(c.queue, End) ==> fin && Received(c, s) == got)
    && (s.taken == TookEnd ==> fin && s.readOut == got)
  }

  ghost predicate Identity(e: Endpoint, h: nat)
    requires h < |e.rt.chans| && h < |e.ends|
  {
    var i := e.rt.chans[h].id;
    && i in e.index && e.index[i] == h
    && (e.ends[h].local ==> i < First(e.rt.parity) + 2 * e.opens)
  }

  /** What the half's side has sent about it, and what it has been told. */
  ghost predicate Agreement(c: Chan, s: StreamEnd, waiting: bool, sent: Digest, told: Digest) {
    var i := c.id;
    && (s.local && s.phase != Over ==> i in sent.announced)
    && (i in sent.announced ==> s.local && sent.announced[i] == s.purpose)
    && (c.waiter == Answered(true) ==> s.local && i in sent.announced && i in told.answered && told.answered[i] == Success)
    && (waiting ==> i !in told.answered)
    && (!s.local ==> i in told.announced && told.announced[i] == s.purpose)
    && (!s.local && s.phase == Exposed ==> i in sent.answered && sent.answered[i] == Success)
    && (i in sent.answered && sent.answered[i] == Success ==> !s.local && s.phase == Exposed)
    && (i in sent.fins ==> W.Quiet(s.writer))
    && s.sentOut == Got(sent, i)
  }

  ghost predicate EndFresh(e: Endpoint, h: nat, sent: Digest, told: Digest)
    requires h < |e.rt.chans| && h < |e.ends|
  {
    var c := e.rt.chans[h];
    && Identity(e, h)
    && Agreement(c, e.ends[h], HoldsPending(e.rt, h), sent, told)
    && Flow(c, e.ends[h], HoldsStream(e.rt, h), HoldsPending(e.rt, h), Got(told, c.id), c.id in told.fins)
  }

  /** Every id this side has spoken about belongs to one of its halves. */
  ghost predicate Covered(e: Endpoint, sent: Digest, told: Digest) {
    && (forall i :: i in e.index ==> e.index[i] < |e.rt.chans| && e.rt.chans[e.index[i]].id == i)
    && (forall i :: i in sent.announced ==> i in e.index)
    && (forall i :: i in sent.fins ==> i in e.index)
    && (forall i :: i in sent.answered ==> i in told.announced)
    && (forall i :: i in sent.answered && sent.answered[i] == Success ==> i in e.index)
  }

  ghost predicate Fresh(e: Endpoint, sent: Digest, told: Digest) {
    && e.opens <= MAX_OPENS
    && |e.ends| == |e.rt.chans|
    && e.rt.next == (First(e.rt.parity) + 2 * e.opens) % ID_SPACE
    && LawfulLog(e.out, e.rt.parity)
    && Covered(e, sent, told)
    && forall h :: 0 <= h < |e.ends| ==> EndFresh(e, h, sent, told)
  }

  ghost function Told(e: Endpoint, inbox: seq<Frame>): Digest
    requires e.handled <= |inbox|
  {
    DigestOf(inbox[..e.handled])
  }

  ghost predicate FreshInv(e: Endpoint, inbox: seq<Frame>) {
    e.handled <= |inbox| && Fresh(e, DigestOf(e.out), Told(e, inbox))
  }

  /** What the peer's log promises: it is lawful, and answers only what was announced. */
  ghost predicate PeerOk(e: Endpoint, inbox: seq<Frame>) {
    && e.rt.parity < 2 && LawfulLog(inbox, 1 - e.rt.parity)
    && forall i :: i in DigestOf(inbox).answered ==> i in DigestOf(e.out).announced
  }

  // ---------------------------------------------------------------- framing

  /** Two digests say the same about stream `i`. */
  ghost predicate SameOn(d: Digest, d': Digest, i: U32) {
    && (i in d.announced <==> i in d'.announced) && (i in d.announced ==> d.announced[i] == d'.announced[i])
    && (i in d.answered <==> i in d'.answered) && (i in d.answered ==> d.answered[i] == d'.answered[i])
    && Got(d, i) == Got(d', i)
    && (i in d.fins <==> i in d'.fins)
  }

  lemma NoteOther(d: Digest, f: Frame, i: U32)
    requires f.id != i || f.Reset? || f.Window?
    ensures SameOn(d, Note(d, f), i)
  {
  }

  /** A half that a step does not touch, and about which no frame was sent or handled, stays as it was. */
  lemma UntouchedFresh(e: Endpoint, e': Endpoint, h: nat, sent: Digest, sent': Digest, told: Digest, told': Digest)
    requires h < |e.ends| == |e.rt.chans| && h < |e'.ends| == |e'.rt.chans|
    requires EndFresh(e, h, sent, told) && SameEnd(e, e', h)
    requires SameOn(sent, sent', e.rt.chans[h].id) && SameOn(told, told', e.rt.chans[h].id)
    requires e.opens <= e'.opens && e.rt.parity == e'.rt.parity
    requires e.rt.chans[h].id in e'.index && e'.index[e.rt.chans[h].id] == h
    ensures EndFresh(e', h, sent', told')
  {
  }

  /** The id the next open will get: never handed out before. */
  lemma NextIdIsNew(e: Endpoint, k: nat, sent: Digest, told: Digest)
    requires BaseInv(e) && Fresh(e, sent, told) && e.opens < MAX_OPENS && AllocatesAfter(e.rt, k)
    ensures k == 0 && Nth(e.rt.next, 0) == First(e.rt.parity) + 2 * e.opens && Nth(e.rt.next, 0) % 2 == e.rt.parity
    ensures forall h :: 0 <= h < |e.ends| ==> e.rt.chans[h].id != Nth(e.rt.next, 0)
    ensures Nth(e.rt.next, 0) !in e.index && Nth(e.rt.next, 0) !in sent.announced
  {
    var id := Nth(e.rt.next, 0);
    assert id == First(e.rt.parity) + 2 * e.opens;
    assert id % 2 == e.rt.parity;
    forall h | 0 <= h < |e.ends| ensures e.rt.chans[h].id != id {
      assert EndFresh(e, h, sent, told) && EndOk(e.rt, h, e.ends[h]);
    }
    assert Free(e.rt, id);
  }

  /** The half `g` is untouched in state, logs and index. */
  ghost predicate Untouched(e: Endpoint, e': Endpoint, g: nat, sent: Digest, sent': Digest, told: Digest, told': Digest)
    requires g < |e.ends| && g < |e.rt.chans| && g < |e'.ends| && g < |e'.rt.chans|
  {
    var i := e.rt.chans[g].id;
    && SameEnd(e, e', g) && SameOn(sent, sent', i) && SameOn(told, told', i)
    && i in e'.index && e'.index[i] == g
  }

  lemma OneFresh(e: Endpoint, e': Endpoint, h: nat, sent: Digest, sent': Digest, told: Digest, told': Digest)
    requires Fresh(e, sent, told)
    requires |e.ends| <= |e'.ends| == |e'.rt.chans| <= |e.ends| + 1 && (|e'.ends| > |e.ends| ==> h == |e.ends|)
    requires e'.rt.parity == e.rt.parity && e.opens <= e'.opens <= MAX_OPENS
    requires e'.rt.next == (First(e.rt.parity) + 2 * e'.opens) % ID_SPACE
    requires LawfulLog(e'.out, e.rt.parity) && Covered(e', sent', told')
    requires forall g :: 0 <= g < |e.ends| && g != h ==> Untouched(e, e', g, sent, sent', told, told')
    requires h < |e'.ends| ==> EndFresh(e', h, sent', told')
    ensures Fresh(e', sent', told')
  {
    forall g | 0 <= g < |e'.ends| ensures EndFresh(e', g, sent', told') {
      if g != h {
        assert Untouched(e, e', g, sent, sent', told, told');
        UntouchedFresh(e, e', g, sent, sent', told, told');
      }
    }
  }

  // ---------------------------------------------------------------- steps that send and handle nothing

  /** The two runtimes differ at most in channel `h` and in the map entries of its id. */
  ghost predicate OnlyAt(rt: Runtime, rt': Runtime, h: nat) {
    && h < |rt.chans| == |rt'.chans|
    && rt'.chans == rt.chans[h := rt'.chans[h]] && rt'.chans[h].id == rt.chans[h].id
    && rt'.parity == rt.parity && rt'.next == rt.next
    && rt'.streams - {rt.chans[h].id} == rt.streams - {rt.chans[h].id}
    && rt'.pending - {rt.chans[h].id} == rt.pending - {rt.chans[h].id}
  }

  lemma OnlyAtSame(rt: Runtime, rt': Runtime, h: nat, g: nat)
    requires OnlyAt(rt, rt', h) && g < |rt.chans| && rt.chans[g].id != rt.chans[h].id
    ensures rt'.chans[g] == rt.chans[g]
    ensures HoldsStream(rt, g) <==> HoldsStream(rt', g)
    ensures HoldsPending(rt, g) <==> HoldsPending(rt', g)
  {
    var i := rt.chans[g].id;
    assert i in rt.streams <==> i in rt.streams - {rt.chans[h].id};
    assert i in rt'.streams <==> i in rt'.streams - {rt.chans[h].id};
    assert i in rt.pending <==> i in rt.pending - {rt.chans[h].id};
    assert i in rt'.pending <==> i in rt'.pending - {rt.chans[h].id};
  }

  /** A step that touches only half `h`, and keeps what is said about that half. */
  ghost predicate HalfKept(e: Endpoint, e': Endpoint, h: nat, sent: Digest, told: Digest) {
    && h < |e.ends| && OnlyAt(e.rt, e'.rt, h)
    && |e'.ends| == |e.ends| && e' == e.(rt := e'.rt, ends := e.ends[h := e'.ends[h]])
    && e'.ends[h].local == e.ends[h].local
    && Agreement(e'.rt.chans[h], e'.ends[h], HoldsPending(e'.rt, h), sent, told)
    && var c := e'.rt.chans[h];
       Flow(c, e'.ends[h], HoldsStream(e'.rt, h), HoldsPending(e'.rt, h), Got(told, c.id), c.id in told.fins)
  }

  lemma HalfStep(e: Endpoint, e': Endpoint, h: nat, sent: Digest, told: Digest)
    requires Fresh(e, sent, told) && HalfKept(e, e', h, sent, told)
    ensures Fresh(e', sent, told)
  {
    LocalStep(e, e', h, sent, told, told);
  }

  /** A step that only touches half `h` has to re-establish only what is said about that half. */
  lemma LocalStep(e: Endpoint, e': Endpoint, h: nat, sent: Digest, told: Digest, told': Digest)
    requires Fresh(e, sent, told) && h < |e.ends| && OnlyAt(e.rt, e'.rt, h)
    requires |e'.ends| == |e.ends| && e' == e.(rt := e'.rt, ends := e.ends[h := e'.ends[h]])
    requires e'.ends[h].local == e.ends[h].local
    requires forall i :: i != e.rt.chans[h].id ==> SameOn(told, told', i)
    requires forall i :: i in told.announced ==> i in told'.announced
    requires Agreement(e'.rt.chans[h], e'.ends[h], HoldsPending(e'.rt, h), sent, told')
    requires var c := e'.rt.chans[h];
      Flow(c, e'.ends[h], HoldsStream(e'.rt, h), HoldsPending(e'.rt, h), Got(told', c.id), c.id in told'.fins)
    ensures Fresh(e', sent, told')
  {
    assert EndFresh(e, h, sent, told);
    forall g | 0 <= g < |e.ends| && g != h ensures Untouched(e, e', g, sent, sent, told, told') {
      assert EndFresh(e, g, sent, told);
      OnlyAtSame(e.rt, e'.rt, h, g);
    }
    assert Covered(e', sent, told');
    OneFresh(e, e', h, sent, sent, told, told');
  }

  /** Dropping the receiver loses what was not read yet, and nothing else. */
  lemma FlowDropped(c: Chan, s: StreamEnd, c': Chan, s': StreamEnd, stream: bool, waiting: bool, got: Bytes, fin: bool)
    requires Flow(c, s, stream, waiting, got, fin)
    requires !c'.alive && c'.queue == [] && s'.readOut == s.readOut && s'.taken == s.taken
    ensures Flow(c', s', stream, waiting, got, fin)
  {
  }

  /** Moving bytes from the queue to the reader's owner. */
  lemma FlowMoved(c: Chan, s: StreamEnd, c': Chan, s': StreamEnd, stream: bool, waiting: bool, got: Bytes, fin: bool)
    requires Flow(c, s, stream, waiting, got, fin) && c.alive
    requires Received(c', s') == Received(c, s) && s.readOut <= s'.readOut
    requires NonEmptyChunks(c'.queue)
    requires EndsWith(c'.queue, End) ==> EndsWith(c.queue, End)
    requires s'.taken == TookEnd ==>
      s.taken == TookEnd || (EndsWith(c.queue, End) && s'.readOut == Received(c', s'))
    ensures Flow(c', s', stream, waiting, got, fin)
  {
    assert s'.readOut <= Received(c', s');
    assert s'.readOut <= got;
    if s'.taken == TookEnd && s.taken == TookEnd {
      assert |s.readOut| <= |s'.readOut| <= |got|;
      assert s'.readOut == got;
    }
  }

  lemma DistinctIds(e: Endpoint, g: nat, h: nat, sent: Digest, told: Digest)
    requires Fresh(e, sent, told) && g < |e.ends| && h < |e.ends| && g != h
    ensures e.rt.chans[g].id != e.rt.chans[h].id
  {
    assert EndFresh(e, g, sent, told) && EndFresh(e, h, sent, told);
  }

  lemma OpenReturnKeeps(e: Endpoint, h: nat, sent: Digest, told: Digest)
    requires Enabled(e, [], OpenReturn(h)) && EndFresh(e, h, sent, told)
    ensures HalfKept(e, DoOpenReturn(e, h), h, sent, told)
  {
  }

  lemma OpenReturnFresh(e: Endpoint, h: nat, sent: Digest, told: Digest)
    requires Fresh(e, sent, told) && Enabled(e, [], OpenReturn(h))
    ensures Fresh(DoOpenReturn(e, h), sent, told)
  {
    assert EndFresh(e, h, sent, told);
    OpenReturnKeeps(e, h, sent, told);
    HalfStep(e, DoOpenReturn(e, h), h, sent, told);
  }

  /** A half whose receiver is dropped, whatever becomes of its waiter and its phase. */
  function WithoutReceiver(e: Endpoint, h: nat, waiter: Waiter, phase: Phase): Endpoint
    requires h < |e.ends| == |e.rt.chans|
  {
    e.(rt := e.rt.(chans := e.rt.chans[h := e.rt.chans[h].(queue := [], alive := false, waiter := waiter)]),
       ends := e.ends[h := e.ends[h].(phase := phase)])
  }

  lemma WithoutReceiverKeeps(e: Endpoint, h: nat, waiter: Waiter, phase: Phase, sent: Digest, told: Digest)
    requires h < |e.ends| == |e.rt.chans| && EndFresh(e, h, sent, told)
    requires Agreement(e.rt.chans[h].(queue := [], alive := false, waiter := waiter), e.ends[h].(phase := phase),
                       HoldsPending(e.rt, h), sent, told)
    ensures HalfKept(e, WithoutReceiver(e, h, waiter, phase), h, sent, told)
  {
    var e' := WithoutReceiver(e, h, waiter, phase);
    var c := e.rt.chans[h];
    FlowDropped(c, e.ends[h], e'.rt.chans[h], e'.ends[h],
                HoldsStream(e.rt, h), HoldsPending(e.rt, h), Got(told, c.id), c.id in told.fins);
  }

  lemma OpenDropAgrees(c: Chan, s: StreamEnd, waiter: Waiter, waiting: bool, sent: Digest, told: Digest)
    requires Agreement(c, s, waiting, sent, told) && s.phase == Opening && (waiter == c.waiter || waiter == Gone)
    ensures Agreement(c.(queue := [], alive := false, waiter := waiter), s.(phase := Dropping), waiting, sent, told)
  {
  }

  function DroppedWaiter(c: Chan): Waiter { if c.waiter == Waiting then Gone else c.waiter }

  lemma OpenDropShape(e: Endpoint, h: nat)
    requires h < |e.ends| == |e.rt.chans|
    ensures DoOpenDrop(e, h) == WithoutReceiver(e, h, DroppedWaiter(e.rt.chans[h]), Dropping)
  {
  }

  lemma OpenDropKeeps(e: Endpoint, h: nat, sent: Digest, told: Digest)
    requires h < |e.ends| == |e.rt.chans| && e.ends[h].phase == Opening && EndFresh(e, h, sent, told)
    ensures HalfKept(e, WithoutReceiver(e, h, DroppedWaiter(e.rt.chans[h]), Dropping), h, sent, told)
  {
    var w := DroppedWaiter(e.rt.chans[h]);
    OpenDropAgrees(e.rt.chans[h], e.ends[h], w, HoldsPending(e.rt, h), sent, told);
    WithoutReceiverKeeps(e, h, w, Dropping, sent, told);
  }

  lemma OpenDropFresh(e: Endpoint, h: nat, sent: Digest, told: Digest)
    requires Fresh(e, sent, told) && Enabled(e, [], OpenDrop(h))
    ensures Fresh(DoOpenDrop(e, h), sent, told)
  {
    assert EndFresh(e, h, sent, told);
    OpenDropKeeps(e, h, sent, told);
    OpenDropShape(e, h);
    HalfStep(e, DoOpenDrop(e, h), h, sent, told);
  }

  lemma OpenCleanupKeeps(e: Endpoint, h: nat, sent: Digest, told: Digest)
    requires Enabled(e, [], OpenCleanup(h)) && EndFresh(e, h, sent, told)
    ensures HalfKept(e, DoOpenCleanup(e, h), h, sent, told)
  {
  }

  lemma OpenCleanupFresh(e: Endpoint, h: nat, sent: Digest, told: Digest)
    requires Fresh(e, sent, told) && Enabled(e, [], OpenCleanup(h))
    ensures Fresh(DoOpenCleanup(e, h), sent, told)
  {
    assert EndFresh(e, h, sent, told);
    OpenCleanupKeeps(e, h, sent, told);
    HalfStep(e, DoOpenCleanup(e, h), h, sent, told);
  }

  lemma DropReaderKeeps(e: Endpoint, h: nat, sent: Digest, told: Digest)
    requires h < |e.ends| == |e.rt.chans| && EndFresh(e, h, sent, told)
    ensures HalfKept(e, e.(rt := DropReceiver(e.rt, h)), h, sent, told)
  {
    assert e.ends[h := e.ends[h]] == e.ends;
  }

  lemma DropReaderFresh(e: Endpoint, h: nat, sent: Digest, told: Digest)
    requires Fresh(e, sent, told) && h < |e.ends|
    ensures Fresh(e.(rt := DropReceiver(e.rt, h)), sent, told)
  {
    assert EndFresh(e, h, sent, told);
    DropReaderKeeps(e, h, sent, told);
    HalfStep(e, e.(rt := DropReceiver(e.rt, h)), h, sent, told);
  }

  lemma PendingClosedFresh(c: Chan, s: StreamEnd, reason: Reason, sent: Digest, told: Digest)
    requires Agreement(c, s, true, sent, told) && (c.waiter == Waiting || c.waiter == Gone) && ChanOk(c) && c.queue == []
    requires Flow(c, s, false, true, Got(told, c.id), c.id in told.fins) && s.taken == NoTerminal
    ensures var c' := FailPending(c, reason);
      Agreement(c', s, false, sent, told) && Flow(c', s, false, false, Got(told, c.id), c.id in told.fins)
  {
    QueueBytesAppend([], Abort(reason));
    assert [] + [Abort(reason)] == [Abort(reason)];
    assert QueueBytes([Abort(reason)]) == [];
  }

  lemma CloseChanFresh(e: Endpoint, h: nat, reason: Reason, sent: Digest, told: Digest)
    requires BaseInv(e) && h < |e.ends| && EndFresh(e, h, sent, told) && !e.rt.closed
    ensures var c := CloseChan(e.rt, h, reason);
      && c.id == e.rt.chans[h].id
      && Agreement(c, e.ends[h], false, sent, told)
      && Flow(c, e.ends[h], false, false, Got(told, c.id), c.id in told.fins)
  {
    var c, s := e.rt.chans[h], e.ends[h];
    assert EndOk(e.rt, h, s);
    if HoldsStream(e.rt, h) {
      RegisteredIsLive(e, c.id);
      FlowRetired(c, s, Abort(reason), Got(told, c.id), Got(told, c.id), false);
    } else if HoldsPending(e.rt, h) {
      PendingClosedFresh(c, s, reason, sent, told);
    }
  }

  lemma CloseAllFresh(e: Endpoint, reason: Reason, sent: Digest, told: Digest)
    requires BaseInv(e) && Fresh(e, sent, told)
    ensures Fresh(e.(rt := CloseAll(e.rt, reason)), sent, told)
  {
    if !e.rt.closed {
      var e' := e.(rt := CloseAll(e.rt, reason));
      forall h | 0 <= h < |e.ends|
        ensures e'.rt.chans[h].id == e.rt.chans[h].id && EndFresh(e', h, sent, told)
      {
        assert EndFresh(e, h, sent, told);
        CloseChanFresh(e, h, reason, sent, told);
        assert e'.rt.chans[h] == CloseChan(e.rt, h, reason);
      }
    }
  }

  /** A read moves bytes inside `Received`. */
  lemma ReadMoves(c: Chan, s: StreamEnd, held: bool, room: nat)
    requires R.ReaderOk(s.reader)
    ensures var (r, popped, res) := R.PollRead(s.reader, c.queue, held, room);
      && (popped ==> c.queue != [])
      && Received(c.(queue := R.Rest(c.queue, popped)), s.(reader := r, readOut := s.readOut + R.Output(res)))
         == Received(c, s)
  {
    var (r, popped, res) := R.PollRead(s.reader, c.queue, held, room);
    R.PollReadConserves(s.reader, c.queue, held, room);
    Regroup(s.readOut, R.Output(res), R.Unread(r), QueueBytes(R.Rest(c.queue, popped)));
    Regroup(s.readOut, [], R.Unread(s.reader), QueueBytes(c.queue));
    assert s.readOut + [] == s.readOut && [] + R.Unread(s.reader) == R.Unread(s.reader);
  }

  /** A read touches the queue of its channel, the reader and what was read. */
  lemma ReadTouches(e: Endpoint, h: nat, room: nat)
    requires h < |e.ends| == |e.rt.chans| && R.ReaderOk(e.ends[h].reader)
    ensures var e' := DoRead(e, h, room);
      && OnlyAt(e.rt, e'.rt, h) && |e'.ends| == |e.ends| && e' == e.(rt := e'.rt, ends := e.ends[h := e'.ends[h]])
      && e'.rt.streams == e.rt.streams && e'.rt.pending == e.rt.pending
      && e'.rt.chans[h] == e.rt.chans[h].(queue := e'.rt.chans[h].queue)
      && e'.ends[h] == e.ends[h].(reader := e'.ends[h].reader, readOut := e'.ends[h].readOut, taken := e'.ends[h].taken)
  {
    ReadShape(e, h, room);
  }

  lemma QueueAgrees(c: Chan, c': Chan, s: StreamEnd, s': StreamEnd, waiting: bool, sent: Digest, told: Digest)
    requires Agreement(c, s, waiting, sent, told) && c' == c.(queue := c'.queue)
    requires s' == s.(reader := s'.reader, readOut := s'.readOut, taken := s'.taken)
    ensures Agreement(c', s', waiting, sent, told)
  {
  }

  lemma ReadKeeps(e: Endpoint, inbox: seq<Frame>, h: nat, room: nat, sent: Digest, told: Digest)
    requires BaseInv(e) && Enabled(e, inbox, Read(h, room)) && EndFresh(e, h, sent, told)
    ensures HalfKept(e, DoRead(e, h, room), h, sent, told)
  {
    var e' := DoRead(e, h, room);
    var c, s := e.rt.chans[h], e.ends[h];
    assert EndOk(e.rt, h, s);
    ReadTouches(e, h, room);
    ReadFlow(e, h, room);
    QueueAgrees(c, e'.rt.chans[h], s, e'.ends[h], HoldsPending(e.rt, h), sent, told);
    FlowMoved(c, s, e'.rt.chans[h], e'.ends[h],
              HoldsStream(e.rt, h), HoldsPending(e.rt, h), Got(told, c.id), c.id in told.fins);
  }

  lemma ReadFresh(e: Endpoint, inbox: seq<Frame>, h: nat, room: nat, sent: Digest, told: Digest)
    requires BaseInv(e) && Fresh(e, sent, told) && Enabled(e, inbox, Read(h, room))
    ensures Fresh(DoRead(e, h, room), sent, told)
  {
    assert EndFresh(e, h, sent, told);
    ReadKeeps(e, inbox, h, room, sent, told);
    HalfStep(e, DoRead(e, h, room), h, sent, told);
  }

  lemma TailOfQueue(q: seq<Item>)
    requires q != []
    ensures NonEmptyChunks(q) ==> NonEmptyChunks(q[1..])
    ensures EndsWith(q[1..], End) ==> EndsWith(q, End)
  {
  }

  lemma ReadFlow(e: Endpoint, h: nat, room: nat)
    requires BaseInv(e) && h < |e.ends| && e.ends[h].phase == Exposed && e.rt.chans[h].alive
    ensures var e' := DoRead(e, h, room);
      && h < |e'.ends| && h < |e'.rt.chans|
      && Received(e'.rt.chans[h], e'.ends[h]) == Received(e.rt.chans[h], e.ends[h])
      && e.ends[h].readOut <= e'.ends[h].readOut
      && (NonEmptyChunks(e.rt.chans[h].queue) ==> NonEmptyChunks(e'.rt.chans[h].queue))
      && (EndsWith(e'.rt.chans[h].queue, End) ==> EndsWith(e.rt.chans[h].queue, End))
      && (e'.ends[h].taken == TookEnd ==>
            || e.ends[h].taken == TookEnd
            || (EndsWith(e.rt.chans[h].queue, End) && e'.ends[h].readOut == Received(e'.rt.chans[h], e'.ends[h])))
  {
    var q := e.rt.chans[h].queue;
    assert EndOk(e.rt, h, e.ends[h]);
    if q != [] { TailOfQueue(q); }
    ReadShape(e, h, room);
    ReadMoves(e.rt.chans[h], e.ends[h], Held(e.rt, h), room);
    if q != [] && q[0] == End {
      TerminalIsLast(e, h);
      R.PollReadShape(e.ends[h].reader, q, Held(e.rt, h), room);
    }
  }

  /** A terminal item at the head of a watched queue is its only item. */
  lemma TerminalIsLast(e: Endpoint, h: nat)
    requires BaseInv(e) && h < |e.ends| && e.ends[h].phase == Exposed && e.rt.chans[h].alive
    requires e.rt.chans[h].queue != [] && !e.rt.chans[h].queue[0].Chunk?
    ensures |e.rt.chans[h].queue| == 1
  {
    var q := e.rt.chans[h].queue;
    assert EndOk(e.rt, h, e.ends[h]);
    assert q[0] in q;
    assert !HoldsStream(e.rt, h);
  }

  // ---------------------------------------------------------------- opening

  /** `e'` has one half more than `e`, with an id `e` has no half for. */
  ghost predicate Appends(e: Endpoint, e': Endpoint, c: Chan, s: StreamEnd) {
    && |e.ends| == |e.rt.chans| && e'.ends == e.ends + [s] && e'.rt.chans == e.rt.chans + [c]
    && c.id !in e.index && e'.index == e.index[c.id := |e.rt.chans|]
    && e'.rt.parity == e.rt.parity
    && e'.rt.streams - {c.id} == e.rt.streams - {c.id}
    && e'.rt.pending - {c.id} == e.rt.pending - {c.id}
  }

  lemma AppendsSame(e: Endpoint, e': Endpoint, c: Chan, s: StreamEnd, g: nat)
    requires Appends(e, e', c, s) && g < |e.ends| && e.rt.chans[g].id != c.id
    ensures SameEnd(e, e', g)
  {
    var i := e.rt.chans[g].id;
    assert i in e.rt.streams <==> i in e.rt.streams - {c.id};
    assert i in e'.rt.streams <==> i in e'.rt.streams - {c.id};
    assert i in e.rt.pending <==> i in e.rt.pending - {c.id};
    assert i in e'.rt.pending <==> i in e'.rt.pending - {c.id};
  }

  lemma AppendFresh(e: Endpoint, e': Endpoint, c: Chan, s: StreamEnd, sent: Digest, sent': Digest, told: Digest, told': Digest)
    requires Fresh(e, sent, told) && Appends(e, e', c, s)
    requires e.opens <= e'.opens <= MAX_OPENS
    requires e'.rt.next == (First(e.rt.parity) + 2 * e'.opens) % ID_SPACE
    requires LawfulLog(e'.out, e.rt.parity) && Covered(e', sent', told')
    requires forall i :: i != c.id ==> SameOn(sent, sent', i) && SameOn(told, told', i)
    requires s.local ==> c.id < First(e.rt.parity) + 2 * e'.opens
    requires Agreement(c, s, HoldsPending(e'.rt, |e.ends|), sent', told')
    requires Flow(c, s, HoldsStream(e'.rt, |e.ends|), HoldsPending(e'.rt, |e.ends|), Got(told', c.id), c.id in told'.fins)
    ensures Fresh(e', sent', told')
  {
    var h := |e.ends|;
    forall g | 0 <= g < |e.ends| ensures Untouched(e, e', g, sent, sent', told, told') {
      assert EndFresh(e, g, sent, told);
      AppendsSame(e, e', c, s, g);
    }
    OneFresh(e, e', h, sent, sent', told, told');
  }

  /** Nothing has been heard about an id that was never announced. */
  lemma NewIdUnheard(e: Endpoint, inbox: seq<Frame>, i: U32)
    requires e.handled <= |inbox| && PeerOk(e, inbox)
    requires i % 2 == e.rt.parity && i !in DigestOf(e.out).announced
    ensures i !in Told(e, inbox).answered && Got(Told(e, inbox), i) == [] && i !in Told(e, inbox).fins
  {
    var p := 1 - e.rt.parity;
    LawfulPrefix(inbox, e.handled, p);
    DigestGrows(inbox, e.handled, p);
    LawfulSpeakers(inbox[..e.handled], p);
    assert !Established(Told(e, inbox), p, i);
  }

  ghost predicate Unheard(told: Digest, i: U32) {
    i !in told.answered && Got(told, i) == [] && i !in told.fins
  }

  /** The next id has never been used on this side, and nothing has been heard about it. */
  ghost predicate NewId(e: Endpoint, sent: Digest, told: Digest) {
    var id := Nth(e.rt.next, 0);
    && id == First(e.rt.parity) + 2 * e.opens && id % 2 == e.rt.parity
    && id !in e.index && id !in sent.announced && Unheard(told, id)
  }

  lemma OpenShape(e: Endpoint, purpose: Purpose)
    requires e.opens < MAX_OPENS && |e.ends| == |e.rt.chans| && e.rt.parity < 2
    requires Nth(e.rt.next, 0) == First(e.rt.parity) + 2 * e.opens && Nth(e.rt.next, 0) !in e.index
    ensures var id := Nth(e.rt.next, 0); var e' := DoOpenStart(e, 0, purpose, Delivered);
      && Appends(e, e', Chan(id, [], true, Waiting), NewEnd(true, purpose, Opening, id))
      && e'.opens == e.opens + 1 && e'.rt.next == (First(e.rt.parity) + 2 * e'.opens) % ID_SPACE
      && e'.out == e.out + [Open(id, purpose)] && HoldsPending(e'.rt, |e.ends|)
  {
  }

  lemma OpenSentFresh(e: Endpoint, purpose: Purpose, sent: Digest, told: Digest)
    requires Fresh(e, sent, told) && e.opens < MAX_OPENS && sent == DigestOf(e.out) && e.rt.parity < 2
    requires NewId(e, sent, told)
    ensures Fresh(DoOpenStart(e, 0, purpose, Delivered), Note(sent, Open(Nth(e.rt.next, 0), purpose)), told)
  {
    var id := Nth(e.rt.next, 0);
    var f := Open(id, purpose);
    var e' := DoOpenStart(e, 0, purpose, Delivered);
    var sent' := Note(sent, f);
    OpenShape(e, purpose);
    LogAppend(e.out, f, e.rt.parity);
    NewHalfCovered(e, e', f.id, sent, told);
    SilentId(e, id, sent, told);
    forall i | i != id ensures SameOn(sent, sent', i) { NoteOther(sent, f, i); }
    AppendFresh(e, e', Chan(id, [], true, Waiting), NewEnd(true, purpose, Opening, id), sent, sent', told, told);
  }

  lemma NewHalfCovered(e: Endpoint, e': Endpoint, id: U32, sent: Digest, told: Digest)
    requires Covered(e, sent, told) && |e'.rt.chans| == |e.rt.chans| + 1
    requires e'.rt.chans[..|e.rt.chans|] == e.rt.chans && e'.rt.chans[|e.rt.chans|].id == id
    requires e'.index == e.index[id := |e.rt.chans|]
    ensures Covered(e', sent, told)
    ensures forall i :: i in e'.index ==> e'.index[i] < |e'.rt.chans| && e'.rt.chans[e'.index[i]].id == i
  {
    assert forall h :: 0 <= h < |e.rt.chans| ==> e'.rt.chans[h] == e.rt.chans[h];
  }

  /** An id without a half has carried nothing. */
  lemma SilentId(e: Endpoint, i: U32, sent: Digest, told: Digest)
    requires Fresh(e, sent, told) && i !in e.index && sent == DigestOf(e.out)
    ensures Got(sent, i) == [] && i !in sent.fins
  {
    LawfulSpeakers(e.out, e.rt.parity);
    assert !Established(sent, e.rt.parity, i);
  }

  lemma OpenStartFresh(e: Endpoint, k: nat, purpose: Purpose, fate: SendFate, sent: Digest, told: Digest)
    requires BaseInv(e) && Fresh(e, sent, told) && e.opens < MAX_OPENS && sent == DigestOf(e.out)
    requires !e.rt.closed && AllocatesAfter(e.rt, k) && Unheard(told, Nth(e.rt.next, k))
    ensures var e' := DoOpenStart(e, k, purpose, fate); Fresh(e', DigestOf(e'.out), told)
  {
    NextIdIsNew(e, k, sent, told);
    if fate == Delivered {
      OpenSentFresh(e, purpose, sent, told);
      LogAppend(e.out, Open(Nth(e.rt.next, 0), purpose), e.rt.parity);
    } else {
      OpenStartBase(e, 0, purpose, Delivered);
      OpenUnsentFresh(e, purpose, fate, sent, told);
    }
  }

  lemma OpenUnsentFresh(e: Endpoint, purpose: Purpose, fate: SendFate, sent: Digest, told: Digest)
    requires BaseInv(DoOpenStart(e, 0, purpose, Delivered)) && fate != Delivered
    requires Fresh(e, sent, told) && e.opens < MAX_OPENS && sent == DigestOf(e.out) && e.rt.parity < 2
    requires NewId(e, sent, told)
    ensures Fresh(DoOpenStart(e, 0, purpose, fate), sent, told)
  {
    var id := Nth(e.rt.next, 0);
    var e1 := DoOpenStart(e, 0, purpose, Delivered);
    OpenSentFresh(e, purpose, sent, told);
    OpenShape(e, purpose);
    SilentId(e, id, sent, told);
    NewHalfCovered(e, e1, id, sent, told);
    OpenFailedFresh(e1, |e.ends|, Open(id, purpose), fate, e.out, sent, told);
    assert e1.ends[|e.ends| := e1.ends[|e.ends|].(phase := Over)] == e.ends + [NewEnd(true, purpose, Over, id)];
  }

  lemma OpenFailedFresh(e1: Endpoint, h: nat, f: Frame, fate: SendFate, out: seq<Frame>, sent: Digest, told: Digest)
    requires BaseInv(e1) && Fresh(e1, Note(sent, f), told) && Covered(e1, sent, told) && LawfulLog(out, e1.rt.parity)
    requires f.Open? && f.id !in sent.announced && !(f.id in sent.answered && sent.answered[f.id] == Success)
    requires Got(sent, f.id) == [] && f.id !in sent.fins && Unheard(told, f.id)
    requires h < |e1.ends| && e1.rt.chans[h].id == f.id && e1.ends[h].local
    requires e1.ends[h].sentOut == [] && e1.ends[h].readOut == [] && e1.ends[h].taken == NoTerminal
    ensures var rt := if fate.Lost? then CloseAll(e1.rt, fate.reason) else e1.rt;
      Fresh(e1.(rt := CleanupOpen(AbandonOpen(rt, h), f.id),
                ends := e1.ends[h := e1.ends[h].(phase := Over)], out := out), sent, told)
  {
    if fate.Lost? {
      CloseAllFresh(e1, fate.reason, Note(sent, f), told);
      assert Covered(e1.(rt := CloseAll(e1.rt, fate.reason)), sent, told);
      UnsentFresh(e1.(rt := CloseAll(e1.rt, fate.reason)), h, f, out, sent, told);
    } else {
      UnsentFresh(e1, h, f, out, sent, told);
    }
  }

  /** An open that failed, together with the half it was about. */
  function Unsent(e: Endpoint, h: nat, id: U32, out: seq<Frame>): Endpoint
    requires h < |e.ends| == |e.rt.chans|
  {
    e.(rt := CleanupOpen(AbandonOpen(e.rt, h), id), ends := e.ends[h := e.ends[h].(phase := Over)], out := out)
  }

  lemma UnsentHalf(e: Endpoint, h: nat, f: Frame, out: seq<Frame>, sent: Digest, told: Digest)
    requires h < |e.ends| == |e.rt.chans| && EndFresh(e, h, Note(sent, f), told)
    requires f.Open? && f.id !in sent.announced && !(f.id in sent.answered && sent.answered[f.id] == Success)
    requires Got(sent, f.id) == [] && f.id !in sent.fins && Unheard(told, f.id)
    requires e.rt.chans[h].id == f.id && e.ends[h].local
    requires e.ends[h].sentOut == [] && e.ends[h].readOut == [] && e.ends[h].taken == NoTerminal
    ensures EndFresh(Unsent(e, h, f.id, out), h, sent, told)
  {
    var e' := Unsent(e, h, f.id, out);
    assert Agreement(e'.rt.chans[h], e'.ends[h], HoldsPending(e'.rt, h), sent, told);
  }

  lemma UnsentOther(e: Endpoint, h: nat, g: nat, f: Frame, out: seq<Frame>, sent: Digest, told: Digest)
    requires h < |e.ends| == |e.rt.chans| && g < |e.ends| && g != h && EndFresh(e, g, Note(sent, f), told)
    requires e.rt.chans[h].id == f.id && e.rt.chans[g].id != f.id
    ensures Untouched(e, Unsent(e, h, f.id, out), g, Note(sent, f), sent, told, told)
  {
    NoteOther(sent, f, e.rt.chans[g].id);
    OnlyAtSame(e.rt, Unsent(e, h, f.id, out).rt, h, g);
  }

  /** Taking back an Open frame that never reached the link. */
  lemma UnsentFresh(e1: Endpoint, h: nat, f: Frame, out: seq<Frame>, sent: Digest, told: Digest)
    requires Fresh(e1, Note(sent, f), told) && Covered(e1, sent, told) && LawfulLog(out, e1.rt.parity)
    requires f.Open? && f.id !in sent.announced && !(f.id in sent.answered && sent.answered[f.id] == Success)
    requires Got(sent, f.id) == [] && f.id !in sent.fins && Unheard(told, f.id)
    requires h < |e1.ends| && e1.rt.chans[h].id == f.id && e1.ends[h].local
    requires e1.ends[h].sentOut == [] && e1.ends[h].readOut == [] && e1.ends[h].taken == NoTerminal
    ensures Fresh(Unsent(e1, h, f.id, out), sent, told)
  {
    var sent1 := Note(sent, f);
    var e2 := Unsent(e1, h, f.id, out);
    forall g | 0 <= g < |e1.ends| && g != h ensures Untouched(e1, e2, g, sent1, sent, told, told) {
      assert EndFresh(e1, g, sent1, told);
      DistinctIds(e1, g, h, sent1, told);
      UnsentOther(e1, h, g, f, out, sent, told);
    }
    assert EndFresh(e1, h, sent1, told);
    UnsentHalf(e1, h, f, out, sent, told);
    assert Covered(e2, sent, told);
    OneFresh(e1, e2, h, sent1, sent, told, told);
  }

  // ---------------------------------------------------------------- handling frames

  /** Hearing a lawful frame about a half nobody can deliver to changes nothing that was promised about it. */
  lemma HearUnheld(e: Endpoint, h: nat, f: Frame, sent: Digest, told: Digest)
    requires h < |e.ends| && h < |e.rt.chans| && e.rt.parity < 2
    requires EndFresh(e, h, sent, told) && Lawful(told, 1 - e.rt.parity, f)
    requires !Held(e.rt, h) || f.id != e.rt.chans[h].id || f.Reset? || f.Window?
    ensures EndFresh(e, h, sent, Note(told, f))
  {
  }

  lemma CoveredHear(e: Endpoint, f: Frame, sent: Digest, told: Digest)
    requires Covered(e, sent, told)
    ensures Covered(e, sent, Note(told, f))
  {
  }

  /** A frame handled without any change to this side. */
  lemma HearOnly(e: Endpoint, f: Frame, sent: Digest, told: Digest)
    requires Fresh(e, sent, told) && e.rt.parity < 2 && Lawful(told, 1 - e.rt.parity, f)
    requires forall h :: 0 <= h < |e.ends| && e.rt.chans[h].id == f.id && Held(e.rt, h) ==> f.Reset? || f.Window?
    ensures Fresh(e, sent, Note(told, f))
  {
    CoveredHear(e, f, sent, told);
    forall h | 0 <= h < |e.ends| ensures EndFresh(e, h, sent, Note(told, f)) {
      assert EndFresh(e, h, sent, told);
      HearUnheld(e, h, f, sent, told);
    }
  }

  /** Any frame but an answer leaves the agreement about a half alone. */
  lemma AgreementHear(c: Chan, c': Chan, s: StreamEnd, waiting: bool, waiting': bool, sent: Digest, told: Digest, p: nat, f: Frame)
    requires Agreement(c, s, waiting, sent, told) && Lawful(told, p, f) && !f.OpenResp? && !f.Open?
    requires c'.id == c.id && c'.waiter == c.waiter && (waiting' ==> waiting)
    ensures Agreement(c', s, waiting', sent, Note(told, f))
  {
  }

  /** Handling a frame about half `h` that changes only that half and its place in the maps. */
  lemma HearAbout(e: Endpoint, rt: Runtime, h: nat, f: Frame, sent: Digest, told: Digest)
    requires Fresh(e, sent, told) && h < |e.ends| && OnlyAt(e.rt, rt, h) && e.rt.chans[h].id == f.id
    requires Agreement(rt.chans[h], e.ends[h], HoldsPending(rt, h), sent, Note(told, f))
    requires Flow(rt.chans[h], e.ends[h], HoldsStream(rt, h), HoldsPending(rt, h),
                  Got(Note(told, f), f.id), f.id in Note(told, f).fins)
    ensures Fresh(e.(rt := rt), sent, Note(told, f))
  {
    forall i | i != f.id ensures SameOn(told, Note(told, f), i) { NoteOther(told, f, i); }
    LocalStep(e, e.(rt := rt), h, sent, told, Note(told, f));
  }

  lemma OpenRespShape(rt: Runtime, id: U32, result: CommandResult)
    requires Valid(rt) && id in rt.pending
    ensures var h := rt.pending[id].chan; var rt' := HandleOpenResp(rt, id, result);
      && OnlyAt(rt, rt', h) && !HoldsPending(rt', h)
      && (HoldsStream(rt', h) <==> rt.chans[h].waiter == Waiting && result == Success)
      && rt'.chans[h] == rt.chans[h].(waiter :=
           if rt.chans[h].waiter == Waiting then Answered(result == Success) else rt.chans[h].waiter)
  {
  }

  lemma AnswerAgreement(c: Chan, c': Chan, s: StreamEnd, sent: Digest, told: Digest, f: Frame)
    requires Agreement(c, s, true, sent, told) && f.OpenResp? && f.id == c.id
    requires s.local && s.phase != Over
    requires c' == c.(waiter := if c.waiter == Waiting then Answered(f.result == Success) else c.waiter)
    ensures Agreement(c', s, false, sent, Note(told, f))
  {
  }

  lemma AnsweredFresh(e: Endpoint, f: Frame, sent: Digest, told: Digest)
    requires BaseInv(e) && Fresh(e, sent, told) && f.OpenResp? && f.id in e.rt.pending
    ensures Fresh(e.(rt := HandleOpenResp(e.rt, f.id, f.result)), sent, Note(told, f))
  {
    var h := e.rt.pending[f.id].chan;
    var rt := HandleOpenResp(e.rt, f.id, f.result);
    OpenRespShape(e.rt, f.id, f.result);
    assert EndFresh(e, h, sent, told);
    assert EndOk(e.rt, h, e.ends[h]);
    AnswerAgreement(e.rt.chans[h], rt.chans[h], e.ends[h], sent, told, f);
    HearAbout(e, rt, h, f, sent, told);
  }

  lemma OpenRespFresh(e: Endpoint, f: Frame, sent: Digest, told: Digest)
    requires BaseInv(e) && Fresh(e, sent, told) && f.OpenResp? && Lawful(told, 1 - e.rt.parity, f)
    ensures Fresh(e.(rt := HandleOpenResp(e.rt, f.id, f.result)), sent, Note(told, f))
  {
    if f.id in e.rt.pending {
      AnsweredFresh(e, f, sent, told);
    } else {
      forall h | 0 <= h < |e.ends| ensures EndFresh(e, h, sent, Note(told, f)) {
        assert EndFresh(e, h, sent, told);
        HearAnswerUnheld(e, h, f, sent, told);
      }
      CoveredHear(e, f, sent, told);
    }
  }

  lemma HearAnswerUnheld(e: Endpoint, h: nat, f: Frame, sent: Digest, told: Digest)
    requires h < |e.ends| && h < |e.rt.chans| && e.rt.parity < 2 && f.OpenResp? && Lawful(told, 1 - e.rt.parity, f)
    requires EndFresh(e, h, sent, told) && f.id !in e.rt.pending
    ensures EndFresh(e, h, sent, Note(told, f))
  {
  }

  /** The terminal item of a stream follows everything that was delivered. */
  lemma FlowRetired(c: Chan, s: StreamEnd, last: Item, got: Bytes, got': Bytes, fin: bool)
    requires Flow(c, s, true, false, got, false) && ChanOk(c) && s.taken == NoTerminal
    requires !last.Chunk? && got <= got' && (last == End ==> fin && got' == got)
    requires AllChunks(c.queue) && |c.queue| <= QUEUE_CAPACITY
    ensures Flow(TrySend(c, last).0, s, false, false, got', fin)
  {
    var c' := TrySend(c, last).0;
    QueueBytesAppend(c.queue, last);
    if c.alive {
      assert QueueBytes(c'.queue) == QueueBytes(c.queue);
      assert Received(c', s) == Received(c, s);
    }
  }

  /** A registered half, and what every run promises about it. */
  ghost predicate Live(e: Endpoint, h: nat) {
    && h < |e.ends| == |e.rt.chans| && e.rt.parity < 2
    && HoldsStream(e.rt, h) && e.rt.chans[h].id !in e.rt.pending
    && ChanOk(e.rt.chans[h]) && AllChunks(e.rt.chans[h].queue) && |e.rt.chans[h].queue| <= QUEUE_CAPACITY
    && e.ends[h].taken == NoTerminal
  }

  lemma RegisteredIsLive(e: Endpoint, id: U32)
    requires BaseInv(e) && id in e.rt.streams
    ensures e.rt.streams[id] < |e.rt.chans| && Live(e, e.rt.streams[id]) && e.rt.chans[e.rt.streams[id]].id == id
  {
    assert EndOk(e.rt, e.rt.streams[id], e.ends[e.rt.streams[id]]);
  }

  lemma RetireShape(rt: Runtime, h: nat, last: Item)
    requires h < |rt.chans| && HoldsStream(rt, h) && rt.chans[h].id !in rt.pending
    ensures var rt' := Retire(rt, rt.chans[h].id, last);
      && OnlyAt(rt, rt', h) && !HoldsPending(rt', h) && !HoldsStream(rt', h)
      && rt'.chans[h] == TrySend(rt.chans[h], last).0
  {
  }

  /** A stream is taken down. */
  lemma RetireFresh(e: Endpoint, h: nat, f: Frame, last: Item, sent: Digest, told: Digest)
    requires Live(e, h) && Fresh(e, sent, told) && Lawful(told, 1 - e.rt.parity, f) && f.id == e.rt.chans[h].id
    requires (last == End && f.Fin?) || (last.Abort? && (f.Data? || f.Reset?))
    ensures Fresh(e.(rt := Retire(e.rt, f.id, last)), sent, Note(told, f))
  {
    var rt := Retire(e.rt, f.id, last);
    RetireShape(e.rt, h, last);
    assert EndFresh(e, h, sent, told);
    assert Got(told, f.id) <= Got(Note(told, f), f.id);
    FlowRetired(e.rt.chans[h], e.ends[h], last, Got(told, f.id), Got(Note(told, f), f.id), f.id in Note(told, f).fins);
    AgreementHear(e.rt.chans[h], rt.chans[h], e.ends[h], false, false, sent, told, 1 - e.rt.parity, f);
    HearAbout(e, rt, h, f, sent, told);
  }

  lemma FlowPushed(c: Chan, s: StreamEnd, bytes: Bytes, got: Bytes)
    requires Flow(c, s, true, false, got, false) && AllChunks(c.queue) && s.taken == NoTerminal && c.alive && bytes != []
    ensures Flow(c.(queue := c.queue + [Chunk(bytes)]), s, true, false, got + bytes, false)
  {
    var c' := c.(queue := c.queue + [Chunk(bytes)]);
    QueueBytesAppend(c.queue, Chunk(bytes));
    assert Received(c', s) == Received(c, s) + bytes;
  }

  lemma FlowDead(c: Chan, s: StreamEnd, got: Bytes, got': Bytes)
    requires Flow(c, s, true, false, got, false) && ChanOk(c) && !c.alive && s.taken == NoTerminal && got <= got'
    ensures Flow(c, s, false, false, got', false)
  {
  }

  lemma DeliverShape(rt: Runtime, h: nat, bytes: Bytes)
    requires h < |rt.chans| && HoldsStream(rt, h) && rt.chans[h].id !in rt.pending
    requires |rt.chans[h].queue| < QUEUE_CAPACITY
    ensures var rt' := Deliver(rt, rt.chans[h].id, bytes).0;
      && OnlyAt(rt, rt', h) && !HoldsPending(rt', h) && (HoldsStream(rt', h) <==> rt.chans[h].alive)
      && rt'.chans[h] == TrySend(rt.chans[h], Chunk(bytes)).0
  {
  }

  /** Data for a registered stream: queued, or the stream is taken down. */
  lemma DeliverFresh(e: Endpoint, h: nat, f: Frame, sent: Digest, told: Digest)
    requires Live(e, h) && Fresh(e, sent, told) && Lawful(told, 1 - e.rt.parity, f) && f.Data? && f.id == e.rt.chans[h].id
    ensures Fresh(e.(rt := Deliver(e.rt, f.id, f.bytes).0), sent, Note(told, f))
  {
    var c := e.rt.chans[h];
    if |c.queue| >= QUEUE_CAPACITY {
      RetireFresh(e, h, f, Abort(QueueFull), sent, told);
    } else {
      QueuedFresh(e, h, f, sent, told);
    }
  }

  lemma QueuedFresh(e: Endpoint, h: nat, f: Frame, sent: Digest, told: Digest)
    requires Live(e, h) && Fresh(e, sent, told) && Lawful(told, 1 - e.rt.parity, f) && f.Data? && f.id == e.rt.chans[h].id
    requires |e.rt.chans[h].queue| < QUEUE_CAPACITY
    ensures Fresh(e.(rt := Deliver(e.rt, f.id, f.bytes).0), sent, Note(told, f))
  {
    var c := e.rt.chans[h];
    var rt := Deliver(e.rt, f.id, f.bytes).0;
    assert EndFresh(e, h, sent, told);
    DeliverShape(e.rt, h, f.bytes);
    if c.alive {
      FlowPushed(c, e.ends[h], f.bytes, Got(told, f.id));
    } else {
      FlowDead(c, e.ends[h], Got(told, f.id), Got(told, f.id) + f.bytes);
    }
    AgreementHear(c, rt.chans[h], e.ends[h], false, false, sent, told, 1 - e.rt.parity, f);
    HearAbout(e, rt, h, f, sent, told);
  }

  /** A frame about a stream that is not registered here is dropped. */
  lemma DroppedFresh(e: Endpoint, f: Frame, sent: Digest, told: Digest)
    requires BaseInv(e) && Fresh(e, sent, told) && Lawful(told, 1 - e.rt.parity, f)
    requires f.id !in e.rt.streams && (f.Data? || f.Fin? || f.Reset?)
    ensures Fresh(e, sent, Note(told, f))
  {
    forall h | 0 <= h < |e.ends| && e.rt.chans[h].id == f.id && Held(e.rt, h) ensures f.Reset? {
      assert EndFresh(e, h, sent, told);
      assert HoldsPending(e.rt, h);
    }
    HearOnly(e, f, sent, told);
  }

  // ---------------------------------------------------------------- accepting

  /** Nothing is known on this side about an id the peer is only now announcing. */
  lemma AnnouncedIdIsNew(e: Endpoint, f: Frame, sent: Digest, told: Digest)
    requires BaseInv(e) && Fresh(e, sent, told) && sent == DigestOf(e.out)
    requires f.Open? && Lawful(told, 1 - e.rt.parity, f) && SpeakersEstablished(told, 1 - e.rt.parity)
    ensures f.id !in e.index && f.id !in sent.announced && f.id !in sent.answered
    ensures Got(told, f.id) == [] && f.id !in told.fins && Got(sent, f.id) == [] && f.id !in sent.fins
    ensures forall h :: 0 <= h < |e.ends| ==> e.rt.chans[h].id != f.id
  {
    forall h | 0 <= h < |e.ends| ensures e.rt.chans[h].id != f.id {
      assert EndFresh(e, h, sent, told) && EndOk(e.rt, h, e.ends[h]);
    }
    assert !Established(told, 1 - e.rt.parity, f.id);
    SilentId(e, f.id, sent, told);
  }

  lemma AnswerLogged(e: Endpoint, f: Frame, r: CommandResult, sent: Digest)
    requires sent == DigestOf(e.out) && LawfulLog(e.out, e.rt.parity) && f.id % 2 != e.rt.parity && f.id !in sent.answered
    ensures LawfulLog(e.out + [OpenResp(f.id, r)], e.rt.parity)
    ensures DigestOf(e.out + [OpenResp(f.id, r)]) == Note(sent, OpenResp(f.id, r))
  {
    LogAppend(e.out, OpenResp(f.id, r), e.rt.parity);
  }

  /** An open is refused before a channel is made. */
  lemma RefusedFresh(e: Endpoint, f: Frame, r: CommandResult, sent: Digest, told: Digest)
    requires Fresh(e, sent, told) && sent == DigestOf(e.out) && r != Success
    requires f.Open? && f.id !in e.index && f.id % 2 != e.rt.parity && f.id !in sent.answered
    ensures Fresh(e.(out := e.out + [OpenResp(f.id, r)]), Note(sent, OpenResp(f.id, r)), Note(told, f))
  {
    var e' := e.(out := e.out + [OpenResp(f.id, r)]);
    AnswerLogged(e, f, r, sent);
    forall g | 0 <= g < |e.ends|
      ensures Untouched(e, e', g, sent, Note(sent, OpenResp(f.id, r)), told, Note(told, f))
    {
      assert EndFresh(e, g, sent, told);
      NoteOther(told, f, e.rt.chans[g].id);
      NoteOther(sent, OpenResp(f.id, r), e.rt.chans[g].id);
    }
    OneFresh(e, e', |e.ends|, sent, Note(sent, OpenResp(f.id, r)), told, Note(told, f));
  }

  lemma AdmittedCovered(e: Endpoint, e': Endpoint, f: Frame, r: CommandResult, sent: Digest, told: Digest)
    requires Covered(e, sent, told) && f.Open? && |e'.rt.chans| == |e.rt.chans| + 1
    requires e'.rt.chans[..|e.rt.chans|] == e.rt.chans && e'.rt.chans[|e.rt.chans|].id == f.id
    requires e'.index == e.index[f.id := |e.rt.chans|]
    ensures Covered(e', Note(sent, OpenResp(f.id, r)), Note(told, f))
  {
    NewHalfCovered(e, e', f.id, sent, told);
  }

  lemma AdmittedElsewhere(f: Frame, r: CommandResult, sent: Digest, told: Digest)
    requires f.Open?
    ensures forall i :: i != f.id ==> SameOn(sent, Note(sent, OpenResp(f.id, r)), i) && SameOn(told, Note(told, f), i)
  {
    forall i | i != f.id ensures SameOn(sent, Note(sent, OpenResp(f.id, r)), i) && SameOn(told, Note(told, f), i) {
      NoteOther(told, f, i);
      NoteOther(sent, OpenResp(f.id, r), i);
    }
  }

  /** A channel is made for a peer's open; the half is exposed exactly when the answer is Success. */
  lemma AdmittedFresh(e: Endpoint, e': Endpoint, f: Frame, r: CommandResult, sent: Digest, told: Digest)
    requires Fresh(e, sent, told) && sent == DigestOf(e.out) && (r == Success || r == Retired)
    requires f.Open? && f.id !in e.index && f.id % 2 != e.rt.parity && f.id !in sent.answered && f.id !in sent.announced
    requires Got(told, f.id) == [] && f.id !in told.fins && Got(sent, f.id) == [] && f.id !in sent.fins
    requires f.id !in e.rt.streams && f.id !in e.rt.pending
    requires e' == e.(rt := e.rt.(chans := e.rt.chans + [AdmittedChan(f, r)],
                                 streams := if r == Success then e.rt.streams[f.id := |e.rt.chans|] else e.rt.streams),
                      ends := e.ends + [AdmittedEnd(f, r)],
                      index := e.index[f.id := |e.rt.chans|],
                      out := e.out + [OpenResp(f.id, r)])
    ensures Fresh(e', Note(sent, OpenResp(f.id, r)), Note(told, f))
  {
    var sent' := Note(sent, OpenResp(f.id, r));
    var c, s := AdmittedChan(f, r), AdmittedEnd(f, r);
    AnswerLogged(e, f, r, sent);
    AdmittedCovered(e, e', f, r, sent, told);
    AdmittedElsewhere(f, r, sent, told);
    AdmittedHalf(f, r, sent, told);
    AppendFresh(e, e', c, s, sent, sent', told, Note(told, f));
  }

  function AdmittedChan(f: Frame, r: CommandResult): Chan { Chan(f.id, [], r == Success, NoWaiter) }

  function AdmittedEnd(f: Frame, r: CommandResult): StreamEnd
    requires f.Open?
  {
    NewEnd(false, f.purpose, if r == Success then Exposed else Over, f.id)
  }

  lemma AdmittedHalf(f: Frame, r: CommandResult, sent: Digest, told: Digest)
    requires f.Open? && f.id !in sent.answered && f.id !in sent.announced
    requires Got(told, f.id) == [] && f.id !in told.fins && Got(sent, f.id) == [] && f.id !in sent.fins
    ensures var c, s, told' := AdmittedChan(f, r), AdmittedEnd(f, r), Note(told, f);
      && Agreement(c, s, false, Note(sent, OpenResp(f.id, r)), told')
      && Flow(c, s, r == Success, false, Got(told', c.id), c.id in told'.fins)
  {
  }

  lemma OpenFrameFresh(e: Endpoint, f: Frame, env: Consult, sent: Digest, told: Digest)
    requires BaseInv(e) && Fresh(e, sent, told) && sent == DigestOf(e.out)
    requires f.Open? && Lawful(told, 1 - e.rt.parity, f) && SpeakersEstablished(told, 1 - e.rt.parity)
    ensures var (rt, r) := HandleOpen(e.rt, f.id, f.purpose, env);
      Fresh(Accepted(e, f, rt).(out := e.out + [OpenResp(f.id, r)]), Note(sent, OpenResp(f.id, r)), Note(told, f))
  {
    AnnouncedIdIsNew(e, f, sent, told);
    var (rt, r) := HandleOpen(e.rt, f.id, f.purpose, env);
    if |rt.chans| > |e.rt.chans| {
      AdmittedFresh(e, Accepted(e, f, rt).(out := e.out + [OpenResp(f.id, r)]), f, r, sent, told);
    } else {
      RefusedFresh(e, f, r, sent, told);
    }
  }

  // ---------------------------------------------------------------- one received frame

  function WithReply(e: Endpoint, reply: Option<Frame>): Endpoint {
    if reply.Some? then e.(out := e.out + [reply.value]) else e
  }

  function Replied(sent: Digest, reply: Option<Frame>): Digest {
    if reply.Some? then Note(sent, reply.value) else sent
  }

  /** Only the lawfulness of the log, and what it adds up to, matters. */
  lemma LogReplaced(e: Endpoint, out: seq<Frame>, sent: Digest, told: Digest)
    requires Fresh(e, sent, told) && LawfulLog(out, e.rt.parity)
    ensures Fresh(e.(out := out), sent, told)
  {
    forall h | 0 <= h < |e.ends| ensures EndFresh(e.(out := out), h, sent, told) {
      assert EndFresh(e, h, sent, told);
    }
  }

  lemma DataFrameFresh(e: Endpoint, f: Frame, sent: Digest, told: Digest)
    requires BaseInv(e) && Fresh(e, sent, told) && sent == DigestOf(e.out)
    requires Lawful(told, 1 - e.rt.parity, f) && f.Data?
    ensures var (rt, failure) := Deliver(e.rt, f.id, f.bytes);
      var reply := if failure.Some? then Some(Frame.Reset(f.id, failure.value)) else None;
      Fresh(WithReply(e.(rt := rt), reply), sent, Note(told, f))
  {
    var (rt, failure) := Deliver(e.rt, f.id, f.bytes);
    if f.id in e.rt.streams {
      RegisteredIsLive(e, f.id);
      DeliverFresh(e, e.rt.streams[f.id], f, sent, told);
    } else {
      DroppedFresh(e, f, sent, told);
    }
    if failure.Some? {
      LogAppend(e.out, Frame.Reset(f.id, failure.value), e.rt.parity);
      LogReplaced(e.(rt := rt), e.out + [Frame.Reset(f.id, failure.value)], sent, Note(told, f));
    }
  }

  lemma TerminalFrameFresh(e: Endpoint, f: Frame, last: Item, sent: Digest, told: Digest)
    requires BaseInv(e) && Fresh(e, sent, told) && Lawful(told, 1 - e.rt.parity, f)
    requires (last == End && f.Fin?) || (last.Abort? && f.Reset?)
    ensures Fresh(if f.id in e.rt.streams then e.(rt := Retire(e.rt, f.id, last)) else e, sent, Note(told, f))
  {
    if f.id in e.rt.streams {
      RegisteredIsLive(e, f.id);
      RetireFresh(e, e.rt.streams[f.id], f, last, sent, told);
    } else {
      DroppedFresh(e, f, sent, told);
    }
  }

  /** Handling `f` keeps the agreement, and the reply is what its digest adds. */
  ghost predicate FrameKept(e: Endpoint, f: Frame, env: Consult, sent: Digest, told: Digest)
    requires Valid(e.rt)
  {
    var (rt, reply) := HandleFrame(e.rt, f, env);
    var e' := WithReply(Accepted(e, f, rt), reply);
    Fresh(e', Replied(sent, reply), Note(told, f)) && Replied(sent, reply) == DigestOf(e'.out)
  }

  lemma OpenFrameKept(e: Endpoint, f: Frame, env: Consult, sent: Digest, told: Digest)
    requires BaseInv(e) && Fresh(e, sent, told) && sent == DigestOf(e.out)
    requires f.Open? && Lawful(told, 1 - e.rt.parity, f) && SpeakersEstablished(told, 1 - e.rt.parity)
    ensures FrameKept(e, f, env, sent, told)
  {
    OpenFrameFresh(e, f, env, sent, told);
    LogAppend(e.out, OpenResp(f.id, HandleOpen(e.rt, f.id, f.purpose, env).1), e.rt.parity);
  }

  lemma DataFrameKept(e: Endpoint, f: Frame, env: Consult, sent: Digest, told: Digest)
    requires BaseInv(e) && Fresh(e, sent, told) && sent == DigestOf(e.out)
    requires f.Data? && Lawful(told, 1 - e.rt.parity, f)
    ensures FrameKept(e, f, env, sent, told)
  {
    DataFrameFresh(e, f, sent, told);
    var failure := Deliver(e.rt, f.id, f.bytes).1;
    if failure.Some? { LogAppend(e.out, Frame.Reset(f.id, failure.value), e.rt.parity); }
  }

  lemma SilentFrameKept(e: Endpoint, f: Frame, env: Consult, sent: Digest, told: Digest)
    requires BaseInv(e) && Fresh(e, sent, told) && sent == DigestOf(e.out)
    requires !f.Open? && !f.Data? && Lawful(told, 1 - e.rt.parity, f)
    ensures FrameKept(e, f, env, sent, told)
  {
    match f {
      case OpenResp(_, _) => OpenRespFresh(e, f, sent, told);
      case Fin(_) => TerminalFrameFresh(e, f, End, sent, told);
      case Reset(_, why) => TerminalFrameFresh(e, f, Abort(Reason(ResultCode(why), "control stream reset")), sent, told);
      case Window(_, _) => HearOnly(e, f, sent, told);
    }
  }

  lemma FrameFresh(e: Endpoint, f: Frame, env: Consult, sent: Digest, told: Digest)
    requires BaseInv(e) && Fresh(e, sent, told) && sent == DigestOf(e.out)
    requires Lawful(told, 1 - e.rt.parity, f) && SpeakersEstablished(told, 1 - e.rt.parity)
    ensures FrameKept(e, f, env, sent, told)
  {
    match f {
      case Open(_, _) => OpenFrameKept(e, f, env, sent, told);
      case Data(_, _) => DataFrameKept(e, f, env, sent, told);
      case _ => SilentFrameKept(e, f, env, sent, told);
    }
  }
}
