/** The write half of a control stream: chunking, the in-flight send, flush and shutdown.

    A frame reaches the link at the poll where its send future reports success. */
module ControlWriter {
  import opened Wrappers
  import opened ControlTypes

  datatype Writer = Writer(id: U32, inFlight: Option<Bytes>, inFlightLen: nat, shuttingDown: bool, closed: bool)

  /** What polling a send future reports. */
  datatype Poll = NotYet | Done | Broken

  datatype WriteResult = Pending | Accepted(n: nat) | Error

  /** The answers of the environment during one poll: the runtime's closed flag before and after the
      data future is polled, what that future and the Fin future report, and the flag after the latter. */
  datatype Env = Env(closed: bool, data: Poll, closedAfter: bool, fin: Poll, closedEnd: bool)

  function NewWriter(id: U32): Writer { Writer(id, None, 0, false, false) }

  ghost predicate WriterOk(w: Writer) {
    match w.inFlight
    case None => w.inFlightLen == 0
    case Some(c) => 1 <= |c| <= WRITE_CHUNK && w.inFlightLen == |c|
  }

  function PollInFlight(w: Writer, env: Env): (Writer, seq<Frame>, WriteResult) {
    if env.closed then (w.(inFlight := None, inFlightLen := 0, closed := true), [], Error)
    else if w.inFlight.None? then (w, [], Accepted(0))
    else
      match env.data
      case NotYet => (w, [], Pending)
      case Broken => (w.(inFlight := None, inFlightLen := 0, closed := true), [], Error)
      case Done =>
        var w1 := w.(inFlight := None, inFlightLen := 0);
        var sent := [Data(w.id, w.inFlight.value)];
        if env.closedAfter then (w1.(closed := true), sent, Error) else (w1, sent, Accepted(w.inFlightLen))
  }

  function Head(src: Bytes): Bytes {
    if |src| < WRITE_CHUNK then src else src[..WRITE_CHUNK]
  }

  function PollWrite(w: Writer, src: Bytes, env: Env): (Writer, seq<Frame>, WriteResult) {
    if w.closed || env.closed then (w.(closed := true), [], Error)
    else if w.inFlight.Some? then PollInFlight(w, env)
    else if src == [] then (w, [], Accepted(0))
    else PollInFlight(w.(inFlight := Some(Head(src)), inFlightLen := |Head(src)|), env)
  }

  function PollFlush(w: Writer, env: Env): (Writer, seq<Frame>, WriteResult) {
    var (w1, sent, res) := if w.inFlight.Some? then PollInFlight(w, env) else (w, [], Accepted(0));
    if !res.Accepted? then (w1, sent, res)
    else if env.closedAfter then (w1.(closed := true), sent, Error)
    else (w1, sent, Accepted(0))
  }

  function PollShutdown(w: Writer, env: Env): (Writer, seq<Frame>, WriteResult) {
    var (w1, sent, res) := if w.inFlight.Some? then PollInFlight(w, env) else (w, [], Accepted(0));
    if !res.Accepted? then (w1, sent, res)
    else if env.closedAfter then (w1.(shuttingDown := false, closed := true), sent, Error)
    else if w1.closed then (w1, sent, Accepted(0))
    else
      match env.fin
      case NotYet => (w1.(shuttingDown := true), sent, Pending)
      case Broken => (w1.(shuttingDown := false, closed := true), sent, Error)
      case Done =>
        (w1.(shuttingDown := false, closed := true), sent + [Fin(w.id)],
         if env.closedEnd then Error else Accepted(0))
  }

  /** Writing, flushing and shutting down as one alphabet of calls. */
  datatype Call = Write(src: Bytes) | Flush | Shutdown

  function Do(w: Writer, call: Call, env: Env): (Writer, seq<Frame>, WriteResult) {
    match call
    case Write(src) => PollWrite(w, src, env)
    case Flush => PollFlush(w, env)
    case Shutdown => PollShutdown(w, env)
  }

  function FrameBytes(fs: seq<Frame>): Bytes {
    if fs == [] then [] else (if fs[0].Data? then fs[0].bytes else []) + FrameBytes(fs[1..])
  }

  lemma FrameBytesShort(fs: seq<Frame>)
    requires |fs| <= 2
    ensures |fs| == 1 ==> FrameBytes(fs) == if fs[0].Data? then fs[0].bytes else []
    ensures |fs| == 2 && fs[0].Data? && fs[1].Fin? ==> FrameBytes(fs) == fs[0].bytes
  {
    if |fs| == 1 {
      assert fs[1..] == [];
    } else if |fs| == 2 {
      assert fs[1..] == [fs[1]] && [fs[1]][1..] == [];
    }
  }

  /** A writer that will never put another frame on the link. */
  predicate Quiet(w: Writer) { w.closed && w.inFlight.None? }

  /** Everything one call can put on the link: nothing; the chunk; the Fin; the chunk and then the Fin.
      After a Fin the writer is quiet, and a quiet writer stays quiet. */
  lemma CallFrames(w: Writer, call: Call, env: Env)
    requires WriterOk(w)
    ensures var (w', sent, res) := Do(w, call, env);
      && WriterOk(w') && w'.id == w.id
      && (Quiet(w) ==> Quiet(w') && sent == [])
      && |sent| <= 2
      && (forall f :: f in sent ==> f.id == w.id && (f.Data? || f.Fin?))
      && (forall f :: f in sent && f.Data? ==> 1 <= |f.bytes| <= 61440)
      && (|sent| == 2 ==> sent[0].Data? && sent[1].Fin?)
      && (forall f :: f in sent && f.Fin? ==> Quiet(w'))
  {
  }

  // ------------------------------------------------- what each call sends and answers

  /** No chunk is in the way of what follows it: none was in flight, or its send succeeds in this poll. */
  predicate Drained(w: Writer, env: Env) { w.inFlight.None? || (!env.closed && env.data == Done) }

  /** A chunk is in flight and stays there. */
  predicate Stuck(w: Writer, env: Env) { w.inFlight.Some? && !env.closed && env.data == NotYet }

  /** The send of a chunk in flight is given up. */
  predicate Lost(w: Writer, env: Env) { w.inFlight.Some? && (env.closed || env.data == Broken) }

  /** The chunk whose send succeeds. */
  function ChunkSent(w: Writer, env: Env): seq<Frame> {
    if w.inFlight.Some? && !env.closed && env.data == Done then [Data(w.id, w.inFlight.value)] else []
  }

  /** A shutdown comes to the Fin: no chunk is in the way, and neither the runtime nor the writer is closed. */
  predicate FinDue(w: Writer, env: Env) { Drained(w, env) && !env.closedAfter && !w.closed }

  /** A shutdown comes past the chunk, and finds the writer open or the runtime closed. */
  predicate FinReached(w: Writer, env: Env) {
    Drained(w, env) && if env.closedAfter then w.inFlight.None? else !w.closed
  }

  /** A shutdown puts the chunk in flight and then the Fin on the link, each when its send succeeds. It is pending exactly
      while a send it needs is not done, and fails exactly if one broke or the runtime was found closed; otherwise it
      succeeds, and unless the writer was closed before, the Fin is then the last frame sent. */
  lemma ShutdownMeaning(w: Writer, env: Env)
    requires WriterOk(w)
    ensures var (w', sent, res) := PollShutdown(w, env);
      && sent == ChunkSent(w, env) + (if FinDue(w, env) && env.fin == Done then [Fin(w.id)] else [])
      && (res == Pending <==> Stuck(w, env) || (FinDue(w, env) && env.fin == NotYet))
      && (res == Error <==>
            Lost(w, env) || (Drained(w, env) && env.closedAfter)
            || (FinDue(w, env) && (env.fin == Broken || (env.fin == Done && env.closedEnd))))
      && (res.Accepted? ==> res.n == 0)
      && (res.Accepted? && !w.closed ==> sent == ChunkSent(w, env) + [Fin(w.id)] && Quiet(w'))
      && (w'.closed <==> w.closed || res == Error || (FinDue(w, env) && env.fin == Done))
      && w'.inFlight == (if Stuck(w, env) then w.inFlight else None) && w'.id == w.id
      && w'.shuttingDown == (if FinReached(w, env) then FinDue(w, env) && env.fin == NotYet else w.shuttingDown)
  {
  }

  /** A flush completes the chunk in flight, and is pending exactly while that is not done. */
  lemma FlushMeaning(w: Writer, env: Env)
    requires WriterOk(w)
    ensures var (w', sent, res) := PollFlush(w, env);
      && sent == ChunkSent(w, env)
      && (res == Pending <==> Stuck(w, env))
      && (res == Error <==> Lost(w, env) || (Drained(w, env) && env.closedAfter))
      && (res.Accepted? ==> res.n == 0)
      && (w'.closed <==> w.closed || res == Error)
      && w'.inFlight == (if Stuck(w, env) then w.inFlight else None)
      && w'.id == w.id && w'.shuttingDown == w.shuttingDown
  {
  }

  /** The chunk a write offers: the one in flight, or else as much of the source as fits into 60 KiB. */
  ghost predicate Offers(w: Writer, src: Bytes, chunk: Bytes) {
    if w.inFlight.Some? then chunk == w.inFlight.value
    else |chunk| == (if |src| < 61440 then |src| else 61440) && chunk <= src
  }

  /** A write sends its chunk when the send succeeds and reports its length; it is pending exactly while that is not
      done, and fails exactly if the writer or the runtime is closed or the send broke. */
  lemma WriteMeaning(w: Writer, src: Bytes, env: Env, chunk: Bytes)
    requires WriterOk(w) && Offers(w, src, chunk)
    ensures var (w', sent, res) := PollWrite(w, src, env);
      var refused := w.closed || env.closed;
      && sent == (if !refused && chunk != [] && env.data == Done then [Data(w.id, chunk)] else [])
      && (res == Pending <==> !refused && chunk != [] && env.data == NotYet)
      && (res == Error <==> refused || (chunk != [] && (env.data == Broken || (env.data == Done && env.closedAfter))))
      && (res.Accepted? ==> res.n == |chunk|)
      && (w'.closed <==> w.closed || res == Error)
      && w'.inFlight == (if refused then w.inFlight else if res == Pending then Some(chunk) else None)
      && w'.id == w.id && w'.shuttingDown == w.shuttingDown
  {
    if w.inFlight.None? { assert chunk == Head(src); }
  }

  // ------------------------------------------------- what callers are told, over whole sequences of calls

  datatype Event = Event(call: Call, env: Env)

  /** The bytes one call puts on the link. */
  function CallSent(w: Writer, ev: Event): Bytes {
    FrameBytes(Do(w, ev.call, ev.env).1)
  }

  /** The bytes one call reports as accepted: the front of the source it was given. */
  function CallReported(w: Writer, ev: Event): Bytes {
    var res := Do(w, ev.call, ev.env).2;
    if ev.call.Write? && res.Accepted? && res.n <= |ev.call.src| then ev.call.src[..res.n] else []
  }

  function Sent(w: Writer, evs: seq<Event>): Bytes
    decreases |evs|
  {
    if evs == [] then [] else CallSent(w, evs[0]) + Sent(Do(w, evs[0].call, evs[0].env).0, evs[1..])
  }

  function Reported(w: Writer, evs: seq<Event>): Bytes
    decreases |evs|
  {
    if evs == [] then [] else CallReported(w, evs[0]) + Reported(Do(w, evs[0].call, evs[0].env).0, evs[1..])
  }

  /** The send of a chunk completes in a call that cannot report it: a flush or shutdown with a write in flight, or a
      write during which the runtime closes. */
  predicate Loses(w: Writer, ev: Event) {
    && ev.env.data == Done && !ev.env.closed
    && match ev.call
       case Write(src) => !w.closed && (w.inFlight.Some? || src != []) && ev.env.closedAfter
       case Flush => w.inFlight.Some?
       case Shutdown => w.inFlight.Some?
  }

  predicate NeverLoses(w: Writer, evs: seq<Event>)
    decreases |evs|
  {
    evs == [] || (!Loses(w, evs[0]) && NeverLoses(Do(w, evs[0].call, evs[0].env).0, evs[1..]))
  }

  /** The caller polls again with the source it was refused with, until the write is reported. */
  predicate Repolls(w: Writer, src: Bytes, evs: seq<Event>)
    decreases |evs|
  {
    evs != [] ==>
      && (w.inFlight.Some? && evs[0].call.Write? ==> evs[0].call.src == src)
      && Repolls(Do(w, evs[0].call, evs[0].env).0, if evs[0].call.Write? then evs[0].call.src else src, evs[1..])
  }

  /** The chunk in flight is the front of the caller's source. */
  ghost predicate Remembers(w: Writer, src: Bytes) {
    w.inFlight.Some? ==> w.inFlight.value == Head(src)
  }

  /** A call that writes puts the front of its source on the link, or nothing. */
  lemma WriteAccounting(w: Writer, src: Bytes, env: Env)
    requires WriterOk(w) && Remembers(w, src)
    ensures var (w', sent, res) := PollWrite(w, src, env);
      && WriterOk(w') && Remembers(w', src)
      && (sent == [] || sent == [Data(w.id, Head(src))])
      && (res.Accepted? && sent == [] ==> res.n == 0)
      && (res.Accepted? && sent != [] ==> res.n == |Head(src)| && !env.closedAfter)
      && (sent != [] && !env.closedAfter ==> res.Accepted?)
  {
  }

  /** Exactly then bytes go out that the call does not report. */
  lemma LosesUnreported(w: Writer, ev: Event)
    requires WriterOk(w)
    ensures Loses(w, ev) <==> CallSent(w, ev) != [] && !(ev.call.Write? && !ev.env.closedAfter)
  {
    CallFrames(w, ev.call, ev.env);
    FrameBytesShort(Do(w, ev.call, ev.env).1);
  }

  lemma WriteReported(w: Writer, src: Bytes, env: Env)
    requires WriterOk(w) && Remembers(w, src)
    ensures var ev := Event(Write(src), env);
      if Loses(w, ev) then CallReported(w, ev) == [] else CallReported(w, ev) == CallSent(w, ev)
  {
    WriteAccounting(w, src, env);
    FrameBytesShort(PollWrite(w, src, env).1);
    assert Head(src) == src[..|Head(src)|];
    LosesUnreported(w, Event(Write(src), env));
  }

  lemma CallAccounting(w: Writer, src: Bytes, ev: Event)
    requires WriterOk(w) && Remembers(w, src)
    requires w.inFlight.Some? && ev.call.Write? ==> ev.call.src == src
    ensures var w' := Do(w, ev.call, ev.env).0;
      WriterOk(w') && Remembers(w', if ev.call.Write? then ev.call.src else src)
    ensures if Loses(w, ev) then CallReported(w, ev) == [] else CallReported(w, ev) == CallSent(w, ev)
  {
    if ev.call.Write? {
      WriteAccounting(w, ev.call.src, ev.env);
      WriteReported(w, ev.call.src, ev.env);
    } else {
      CallFrames(w, ev.call, ev.env);
      LosesUnreported(w, ev);
    }
  }

  lemma {:induction false} ReportedBounded(w: Writer, src: Bytes, evs: seq<Event>)
    requires WriterOk(w) && Remembers(w, src) && Repolls(w, src, evs)
    ensures |Reported(w, evs)| <= |Sent(w, evs)|
    ensures |Reported(w, evs)| == |Sent(w, evs)| ==> NeverLoses(w, evs)
    decreases |evs|
  {
    if evs != [] {
      CallAccounting(w, src, evs[0]);
      ReportedBounded(Do(w, evs[0].call, evs[0].env).0, if evs[0].call.Write? then evs[0].call.src else src, evs[1..]);
    }
  }

  lemma {:induction false} NothingLost(w: Writer, src: Bytes, evs: seq<Event>)
    requires WriterOk(w) && Remembers(w, src) && Repolls(w, src, evs) && NeverLoses(w, evs)
    ensures Reported(w, evs) == Sent(w, evs)
    decreases |evs|
  {
    if evs != [] {
      CallAccounting(w, src, evs[0]);
      NothingLost(Do(w, evs[0].call, evs[0].env).0, if evs[0].call.Write? then evs[0].call.src else src, evs[1..]);
    }
  }

  /** For callers that re-poll, the bytes reported as accepted are exactly the bytes put on the link if and only
      if no in-flight write completes in a flush or shutdown, or while the runtime closes. */
  lemma ReportedIsSent(id: U32, evs: seq<Event>)
    requires Repolls(NewWriter(id), [], evs)
    ensures Reported(NewWriter(id), evs) == Sent(NewWriter(id), evs) <==> NeverLoses(NewWriter(id), evs)
  {
    ReportedBounded(NewWriter(id), [], evs);
    if NeverLoses(NewWriter(id), evs) { NothingLost(NewWriter(id), [], evs); }
  }

  /** The caller neither flushes nor shuts down with a write pending, and the runtime closes between polls only. */
  predicate Careful(w: Writer, evs: seq<Event>)
    decreases |evs|
  {
    evs != [] ==>
      && (w.inFlight.Some? ==> evs[0].call.Write?) && (evs[0].env.closedAfter ==> evs[0].env.closed)
      && Careful(Do(w, evs[0].call, evs[0].env).0, evs[1..])
  }

  lemma {:induction false} CarefulNeverLoses(w: Writer, evs: seq<Event>)
    requires Careful(w, evs)
    ensures NeverLoses(w, evs)
    decreases |evs|
  {
    if evs != [] { CarefulNeverLoses(Do(w, evs[0].call, evs[0].env).0, evs[1..]); }
  }

  /** For such callers the bytes reported are the bytes sent. */
  lemma CarefulCallersAreTold(id: U32, evs: seq<Event>)
    requires Repolls(NewWriter(id), [], evs) && Careful(NewWriter(id), evs)
    ensures Reported(NewWriter(id), evs) == Sent(NewWriter(id), evs)
  {
    CarefulNeverLoses(NewWriter(id), evs);
    ReportedIsSent(id, evs);
  }

  /** A flush between a pending write and its re-poll makes the caller send the same bytes twice. */
  lemma FlushDuplicates(id: U32, b: Byte)
    ensures var open := Env(false, NotYet, false, NotYet, false); var done := open.(data := Done);
      var evs := [Event(Write([b]), open), Event(Flush, done), Event(Write([b]), done)];
      Repolls(NewWriter(id), [], evs) && Sent(NewWriter(id), evs) == [b, b] && Reported(NewWriter(id), evs) == [b]
  {
    var open := Env(false, NotYet, false, NotYet, false);
    var done := open.(data := Done);
    var w0 := NewWriter(id);
    var e0, e1, e2 := Event(Write([b]), open), Event(Flush, done), Event(Write([b]), done);
    var w1 := Do(w0, e0.call, e0.env).0;
    var w2 := Do(w1, e1.call, e1.env).0;
    assert w2 == w0;
    assert [Data(id, [b])][1..] == [];
    assert CallSent(w0, e0) == [] && CallSent(w1, e1) == [b] && CallSent(w2, e2) == [b];
    assert [b][..1] == [b];
    assert [e0, e1, e2][1..] == [e1, e2] && [e1, e2][1..] == [e2] && [e2][1..] == [];
    var w3 := Do(w2, e2.call, e2.env).0;
    assert CallReported(w2, e2) == [b] && Reported(w3, []) == [] && Sent(w3, []) == [];
    assert Reported(w2, [e2]) == [b] + Reported(w3, []) && Sent(w2, [e2]) == [b] + Sent(w3, []);
    assert Repolls(w2, [b], [e2]);
    assert Sent(w1, [e1, e2]) == [b] + [b];
    assert Repolls(w1, [b], [e1, e2]) && Reported(w1, [e1, e2]) == [b];
  }

  // ------------------------------------------------- when a shutdown that succeeds has sent the Fin

  /** The writer after a sequence of calls. */
  function After(w: Writer, evs: seq<Event>): Writer
    decreases |evs|
  {
    if evs == [] then w else var n := |evs| - 1; Do(After(w, evs[..n]), evs[n].call, evs[n].env).0
  }

  /** The frames it has put on the link. */
  function FramesOf(w: Writer, evs: seq<Event>): seq<Frame>
    decreases |evs|
  {
    if evs == [] then [] else var n := |evs| - 1; FramesOf(w, evs[..n]) + Do(After(w, evs[..n]), evs[n].call, evs[n].env).1
  }

  /** A send breaks during the call. */
  predicate Breaks(w: Writer, ev: Event) {
    match ev.call
    case Write(src) => !w.closed && (w.inFlight.Some? || src != []) && ev.env.data == Broken
    case Flush => w.inFlight.Some? && ev.env.data == Broken
    case Shutdown => (w.inFlight.Some? && ev.env.data == Broken) || (FinDue(w, ev.env) && ev.env.fin == Broken)
  }

  /** A send breaks during one of the calls. */
  predicate BreaksIn(w: Writer, evs: seq<Event>)
    decreases |evs|
  {
    evs != [] && var n := |evs| - 1; BreaksIn(w, evs[..n]) || Breaks(After(w, evs[..n]), evs[n])
  }

  /** The runtime stays open. */
  predicate StaysOpen(ev: Event) { !ev.env.closed && !ev.env.closedAfter && !ev.env.closedEnd }

  /** The last frame is the Fin, and no other one is. */
  ghost predicate FinLast(id: U32, fs: seq<Frame>) {
    fs != [] && fs[|fs| - 1] == Fin(id) && Fin(id) !in fs[..|fs| - 1]
  }

  /** A writer is closed by its Fin or by a broken send, and not by both. */
  ghost predicate ClosedByFin(id: U32, w: Writer, fs: seq<Frame>, broken: bool) {
    && w.id == id && WriterOk(w) && (w.closed ==> w.inFlight.None?)
    && (w.closed <==> FinLast(id, fs) || broken) && (FinLast(id, fs) ==> !broken) && (!FinLast(id, fs) ==> Fin(id) !in fs)
  }

  lemma OneCallClosed(id: U32, w: Writer, fs: seq<Frame>, broken: bool, ev: Event)
    requires ClosedByFin(id, w, fs, broken) && StaysOpen(ev)
    ensures var (w', sent, _) := Do(w, ev.call, ev.env); ClosedByFin(id, w', fs + sent, broken || Breaks(w, ev))
  {
    var (w', sent, res) := Do(w, ev.call, ev.env);
    CallFrames(w, ev.call, ev.env);
    match ev.call {
      case Write(src) => WriteMeaning(w, src, ev.env, if w.inFlight.Some? then w.inFlight.value else Head(src));
      case Flush => FlushMeaning(w, ev.env);
      case Shutdown => ShutdownMeaning(w, ev.env);
    }
    FinAppended(id, fs, sent);
  }

  lemma FinAppended(id: U32, fs: seq<Frame>, sent: seq<Frame>)
    requires Fin(id) !in fs || sent == []
    requires |sent| <= 2 && (|sent| == 2 ==> sent[0] != Fin(id))
    ensures sent == [] ==> fs + sent == fs
    ensures Fin(id) !in fs ==> (FinLast(id, fs + sent) <==> sent != [] && sent[|sent| - 1] == Fin(id))
    ensures Fin(id) !in fs && Fin(id) !in sent ==> Fin(id) !in fs + sent
  {
    if sent != [] { assert (fs + sent)[..|fs + sent| - 1] == fs + sent[..|sent| - 1]; }
  }

  lemma {:induction false} CallsClosed(id: U32, evs: seq<Event>)
    requires forall k :: 0 <= k < |evs| ==> StaysOpen(evs[k])
    ensures ClosedByFin(id, After(NewWriter(id), evs), FramesOf(NewWriter(id), evs), BreaksIn(NewWriter(id), evs))
    decreases |evs|
  {
    if evs != [] {
      var n := |evs| - 1;
      var w := NewWriter(id);
      CallsClosed(id, evs[..n]);
      OneCallClosed(id, After(w, evs[..n]), FramesOf(w, evs[..n]), BreaksIn(w, evs[..n]), evs[n]);
    }
  }

  /** On a runtime that stays open, when a shutdown succeeds the Fin has been sent, once and after everything else, if
      and only if no send has broken before. */
  lemma ShutdownMeansFin(id: U32, evs: seq<Event>, env: Env)
    requires (forall k :: 0 <= k < |evs| ==> StaysOpen(evs[k])) && StaysOpen(Event(Shutdown, env))
    requires PollShutdown(After(NewWriter(id), evs), env).2.Accepted?
    ensures var fs := FramesOf(NewWriter(id), evs) + PollShutdown(After(NewWriter(id), evs), env).1;
      && (FinLast(id, fs) <==> !BreaksIn(NewWriter(id), evs)) && (Fin(id) in fs <==> FinLast(id, fs))
  {
    var w := NewWriter(id);
    CallsClosed(id, evs);
    OneCallClosed(id, After(w, evs), FramesOf(w, evs), BreaksIn(w, evs), Event(Shutdown, env));
    ShutdownMeaning(After(w, evs), env);
  }

  /** A write whose send breaks, and then a shutdown: it succeeds, and no Fin was ever sent. */
  lemma BrokenThenShutdown(id: U32, b: Byte)
    ensures var broken := Env(false, Broken, false, NotYet, false); var evs := [Event(Write([b]), broken)];
      var (w, sent, res) := PollShutdown(After(NewWriter(id), evs), broken.(data := NotYet));
      res == Accepted(0) && FramesOf(NewWriter(id), evs) + sent == []
  {
    var broken := Env(false, Broken, false, NotYet, false);
    var ev := Event(Write([b]), broken);
    assert [ev][..0] == [];
    assert After(NewWriter(id), [ev]) == Do(NewWriter(id), ev.call, ev.env).0;
  }
}
