/** A run that ends cleanly: a byte is written, read, and followed by the end of the stream. And a run in which a reader
    that was told of a Reset then sees what looks like a clean end, although bytes for it are still on the link. */
module ControlExample {
  import opened Wrappers
  import opened ControlTypes
  import opened ControlRuntime
  import opened ControlEndpoint
  import opened ControlNet
  import W = ControlWriter

  const Why: Reason := Reason(CodeInterrupted, "closed")
  const Byte7: Bytes := [7]
  const Sends: W.Env := W.Env(false, W.Done, false, W.NotYet, false)
  const Accepts: Consult := Consult(true, true)

  function Left(streams: map<U32, nat>, pending: map<U32, Pending>, waiter: Waiter, phase: Phase, out: seq<Frame>,
                handled: nat, sent: Bytes): Endpoint {
    Endpoint(Runtime(1, 3, streams, pending, [Chan(1, [], true, waiter)], false, false, None),
             [NewEnd(true, [], phase, 1).(sentOut := sent)], out, handled, map[1 := 0], 1)
  }

  const L0: Endpoint := Start(true)
  const L1: Endpoint := Left(map[], map[1 := Pending([], 0)], Waiting, Opening, [Open(1, [])], 0, [])
  const L2: Endpoint := Left(map[1 := 0], map[], Answered(true), Opening, [Open(1, [])], 1, [])
  const L3: Endpoint := Left(map[1 := 0], map[], Answered(true), Exposed, [Open(1, [])], 1, [])
  const L4: Endpoint := Left(map[1 := 0], map[], Answered(true), Exposed, [Open(1, []), Data(1, Byte7)], 1, Byte7)

  function Right(streams: map<U32, nat>, queue: seq<Item>, reason: Option<Reason>, taken: Taken): Endpoint {
    Endpoint(Runtime(0, 2, streams, map[], [Chan(1, queue, true, NoWaiter)], reason.None?, reason.Some?, reason),
             [NewEnd(false, [], Exposed, 1).(taken := taken)], [OpenResp(1, Success)], 1, map[1 := 0], 0)
  }

  const R0: Endpoint := Start(false)
  const R1: Endpoint := R0.(rt := R0.rt.(listening := true))
  const R2: Endpoint := Right(map[1 := 0], [], None, NoTerminal)
  const R3: Endpoint := Right(map[], [Abort(Why)], Some(Why), NoTerminal)
  const R4: Endpoint := Right(map[], [], Some(Why), TookAbort)

  /** One endpoint takes one step. */
  ghost predicate Takes(e: Endpoint, inbox: seq<Frame>, s: Step, e': Endpoint) {
    Enabled(e, inbox, s) && (Valid(e.rt) ==> e' == Apply(e, inbox, s))
  }

  lemma OpensStream()
    ensures Takes(L0, R1.out, OpenStart(0, [], Delivered), L1)
  {
    assert Nth(L0.rt.next, 0) == 1;
  }

  lemma Accepted()
    ensures Takes(R1, L1.out, Receive(Accepts, Delivered), R2)
  {
  }

  lemma Answers()
    ensures Takes(L1, R2.out, Receive(Accepts, Delivered), L2)
  {
    assert map[1 := Pending([], 0)] - {1} == map[];
  }

  lemma Returns()
    ensures Takes(L2, R2.out, OpenReturn(0), L3)
  {
    var none: map<U32, Pending> := map[];
    assert none - {1} == none;
  }

  lemma Writes()
    ensures Takes(L3, R2.out, Send(0, W.Write(Byte7), Sends), L4)
  {
    var sent := [Data(1, Byte7)];
    W.FrameBytesShort(sent);
    var done := W.Do(L3.ends[0].writer, W.Write(Byte7), Sends);
    assert done.0 == L3.ends[0].writer && done.1 == sent;
    assert L3.out + sent == L4.out && [] + Byte7 == Byte7;
    assert DoSend(L3, 0, W.Write(Byte7), Sends).ends == L4.ends;
  }

  lemma Closes()
    ensures Takes(R2, L4.out, Close(Why), R3)
  {
    var none: seq<Item> := [];
    assert none + [Abort(Why)] == [Abort(Why)];
    assert HoldsStream(R2.rt, 0);
    var chans := CloseAll(R2.rt, Why).chans;
    assert chans[0] == CloseChan(R2.rt, 0, Why) == R3.rt.chans[0];
    assert chans == R3.rt.chans;
  }

  lemma Reads()
    ensures Takes(R3, L4.out, Read(0, 1), R4)
  {
    var none: Bytes := [];
    assert [Abort(Why)][1..] == [] && none + none == none;
    assert !Held(R3.rt, 0);
    assert DoRead(R3, 0, 1).ends == R4.ends;
    assert TakeItem(R3.rt, 0).chans == R4.rt.chans;
  }

  lemma RunToOpen() returns (run: seq<Net>, acts: seq<Action>)
    ensures IsRun(run, acts) && run[|acts|] == Net(L2, R2)
  {
    OpensStream();
    Accepted();
    Answers();
    run, acts := [Net(L0, R0)], [];
    run, acts := Extend(run, acts, Action(false, Listen), Net(L0, R1));
    run, acts := Extend(run, acts, Action(true, OpenStart(0, [], Delivered)), Net(L1, R1));
    run, acts := Extend(run, acts, Action(false, Receive(Accepts, Delivered)), Net(L1, R2));
    run, acts := Extend(run, acts, Action(true, Receive(Accepts, Delivered)), Net(L2, R2));
  }

  lemma RunToEnd() returns (run: seq<Net>, acts: seq<Action>)
    ensures IsRun(run, acts) && run[|acts|] == Net(L4, R4)
  {
    Returns();
    Writes();
    Closes();
    Reads();
    run, acts := RunToOpen();
    run, acts := Extend(run, acts, Action(true, OpenReturn(0)), Net(L3, R2));
    run, acts := Extend(run, acts, Action(true, Send(0, W.Write(Byte7), Sends)), Net(L4, R2));
    run, acts := Extend(run, acts, Action(false, Close(Why)), Net(L4, R3));
    run, acts := Extend(run, acts, Action(false, Read(0, 1)), Net(L4, R4));
  }

  /** Without the proviso on Reset `CleanEndIsComplete` is false: at the end of this run the reader on the right
      reports end of stream, having read nothing of the byte that the writer on the left has sent. */
  lemma EndAfterResetLooksClean() returns (run: seq<Net>, acts: seq<Action>)
    ensures IsRun(run, acts) && FewOpens(run[|acts|])
    ensures var n := run[|acts|];
      && SameStream(n, 0, 0) && n.right.ends[0].phase == Exposed && n.right.rt.chans[0].alive
      && n.right.ends[0].taken == TookAbort && ReportsEnd(n.right, 0, 1)
      && n.right.ends[0].readOut == [] && n.left.ends[0].sentOut == [7]
  {
    run, acts := RunToEnd();
  }

  // ---------------------------------------------------------------- the clean end

  const Finishes: W.Env := W.Env(false, W.NotYet, false, W.Done, false)

  const L5: Endpoint :=
    L4.(ends := [L4.ends[0].(writer := W.Writer(1, None, 0, false, true))], out := [Open(1, []), Data(1, Byte7), Fin(1)])

  function Reading(streams: map<U32, nat>, queue: seq<Item>, handled: nat, read: Bytes, taken: Taken): Endpoint {
    var e := Right(streams, queue, None, taken);
    e.(handled := handled, ends := [e.ends[0].(readOut := read)])
  }

  const R5: Endpoint := Reading(map[1 := 0], [Chunk(Byte7)], 2, [], NoTerminal)
  const R6: Endpoint := Reading(map[], [Chunk(Byte7), End], 3, [], NoTerminal)
  const R7: Endpoint := Reading(map[], [End], 3, Byte7, NoTerminal)
  const R8: Endpoint := Reading(map[], [], 3, Byte7, TookEnd)

  lemma ShutsDown()
    ensures Takes(L4, R2.out, Send(0, W.Shutdown, Finishes), L5)
  {
    var sent := [Fin(1)];
    W.FrameBytesShort(sent);
    var done := W.Do(L4.ends[0].writer, W.Shutdown, Finishes);
    assert done.1 == [] + sent == sent;
    assert L4.out + sent == L5.out && Byte7 + [] == Byte7;
    assert DoSend(L4, 0, W.Shutdown, Finishes).ends == L5.ends;
  }

  lemma TakesData()
    ensures Takes(R2, L5.out, Receive(Accepts, Delivered), R5)
  {
    var none: seq<Item> := [];
    assert none + [Chunk(Byte7)] == [Chunk(Byte7)];
    assert L5.out[1] == Data(1, Byte7);
    assert HandleFrame(R2.rt, Data(1, Byte7), Accepts).0.chans == R5.rt.chans;
  }

  lemma TakesFin()
    ensures Takes(R5, L5.out, Receive(Accepts, Delivered), R6)
  {
    var none: map<U32, nat> := map[];
    assert [Chunk(Byte7)] + [End] == [Chunk(Byte7), End] && map[1 := 0] - {1} == none;
    assert L5.out[2] == Fin(1);
    assert HandleFrame(R5.rt, Fin(1), Accepts).0.chans == R6.rt.chans;
  }

  lemma ReadsByte()
    ensures Takes(R6, L5.out, Read(0, 1), R7)
  {
    var none: Bytes := [];
    assert [Chunk(Byte7), End][1..] == [End] && none + Byte7 == Byte7 && Byte7[..1] == Byte7;
    assert DoRead(R6, 0, 1).ends == R7.ends;
    assert TakeItem(R6.rt, 0).chans == R7.rt.chans;
  }

  lemma ReadsEnd()
    ensures Takes(R7, L5.out, Read(0, 1), R8)
  {
    assert [End][1..] == [] && Byte7 + [] == Byte7;
    assert DoRead(R7, 0, 1).ends == R8.ends;
    assert TakeItem(R7.rt, 0).chans == R8.rt.chans;
  }

  /** Listen, open, accept, answer, return, write, shut down, take the data, take the Fin, read the byte, read the end. */
  lemma EndsCleanly() returns (run: seq<Net>, acts: seq<Action>)
    ensures IsRun(run, acts) && FewOpens(run[|acts|])
    ensures var n := run[|acts|];
      && SameStream(n, 0, 0) && n.right.ends[0].taken == TookEnd && ReportsEnd(n.right, 0, 1)
      && n.right.ends[0].readOut == [7] == n.left.ends[0].sentOut
  {
    Returns();
    Writes();
    ShutsDown();
    TakesData();
    TakesFin();
    ReadsByte();
    ReadsEnd();
    run, acts := RunToOpen();
    run, acts := Extend(run, acts, Action(true, OpenReturn(0)), Net(L3, R2));
    run, acts := Extend(run, acts, Action(true, Send(0, W.Write(Byte7), Sends)), Net(L4, R2));
    run, acts := Extend(run, acts, Action(true, Send(0, W.Shutdown, Finishes)), Net(L5, R2));
    run, acts := Extend(run, acts, Action(false, Receive(Accepts, Delivered)), Net(L5, R5));
    run, acts := Extend(run, acts, Action(false, Receive(Accepts, Delivered)), Net(L5, R6));
    run, acts := Extend(run, acts, Action(false, Read(0, 1)), Net(L5, R7));
    run, acts := Extend(run, acts, Action(false, Read(0, 1)), Net(L5, R8));
  }

  lemma Extend(run: seq<Net>, acts: seq<Action>, a: Action, n: Net) returns (run': seq<Net>, acts': seq<Action>)
    requires IsRun(run, acts) && Moves(run[|acts|], a, n)
    ensures IsRun(run', acts') && run'[|acts'|] == n
  {
    run', acts' := run + [n], acts + [a];
    forall k | 0 <= k < |acts'| ensures Moves(run'[k], acts'[k], run'[k + 1]) {
      if k < |acts| { assert Moves(run[k], acts[k], run[k + 1]); }
    }
  }
}
