/** The read half of a control stream: `poll_read` over a bounded inbound queue. */
module ControlReader {
  import opened Wrappers
  import opened ControlTypes

  datatype Reader = Reader(pending: Bytes, offset: nat)

  /** `Ready([])` into a non-empty buffer is how the reader reports end of stream. */
  datatype ReadResult = NotReady | Ready(bytes: Bytes) | Failed(reason: Reason)

  const FreshReader := Reader([], 0)

  ghost predicate ReaderOk(r: Reader) {
    r.offset < |r.pending| || (r.pending == [] && r.offset == 0)
  }

  ghost function Unread(r: Reader): Bytes {
    if r.offset <= |r.pending| then r.pending[r.offset..] else []
  }

  /** One poll: the new reader, whether the head of the queue was popped, and the result.
      `held`: a sender for this queue still exists. */
  function PollRead(r: Reader, queue: seq<Item>, held: bool, room: nat): (Reader, bool, ReadResult) {
    if r.offset < |r.pending| then
      var len := Min(|r.pending| - r.offset, room);
      var end := r.offset + len;
      (if end == |r.pending| then FreshReader else r.(offset := end), false, Ready(r.pending[r.offset..end]))
    else if queue == [] then
      (r, false, if held then NotReady else Ready([]))
    else
      match queue[0]
      case Chunk(bytes) =>
        var len := Min(|bytes|, room);
        (if len < |bytes| then Reader(bytes, len) else r, true, Ready(bytes[..len]))
      case End => (r, true, Ready([]))
      case Abort(reason) => (r, true, Failed(reason))
  }

  function Rest(queue: seq<Item>, popped: bool): seq<Item>
    requires popped ==> queue != []
  {
    if popped then queue[1..] else queue
  }

  function Output(res: ReadResult): Bytes {
    if res.Ready? then res.bytes else []
  }

  lemma PollReadShape(r: Reader, queue: seq<Item>, held: bool, room: nat)
    requires ReaderOk(r)
    ensures ReaderOk(PollRead(r, queue, held, room).0)
    ensures PollRead(r, queue, held, room).1 <==> queue != [] && Unread(r) == []
  {
    if r.offset < |r.pending| { assert Unread(r)[0] == r.pending[r.offset]; }
  }

  /** One poll moves bytes from the unread part to the caller, in order, and never more than asked for. */
  lemma PollReadConserves(r: Reader, queue: seq<Item>, held: bool, room: nat)
    requires ReaderOk(r)
    ensures var (r', popped, res) := PollRead(r, queue, held, room);
      && ReaderOk(r')
      && (popped ==> queue != [] && Unread(r) == [])
      && |Output(res)| <= room
      && Output(res) + Unread(r') + QueueBytes(Rest(queue, popped)) == Unread(r) + QueueBytes(queue)
  {
    var (r', popped, res) := PollRead(r, queue, held, room);
    if r.offset < |r.pending| {
      assert Output(res) + Unread(r') == Unread(r);
    } else if queue != [] && queue[0].Chunk? {
      assert Output(res) + Unread(r') == queue[0].bytes;
      assert QueueBytes(queue) == queue[0].bytes + QueueBytes(queue[1..]);
    }
  }

  /** The exact meaning of a zero-byte read into a non-empty buffer: a terminal `End`, a queue whose
      senders are all gone, or an empty chunk, which a runtime never sends but a peer could. */
  lemma ZeroReadMeaning(r: Reader, queue: seq<Item>, held: bool, room: nat)
    requires ReaderOk(r) && room > 0
    ensures PollRead(r, queue, held, room).2 == Ready([]) <==>
      && Unread(r) == []
      && (if queue == [] then !held else queue[0] == End || queue[0] == Chunk([]))
  {
    if r.offset < |r.pending| {
      assert Unread(r)[0] == r.pending[r.offset];
    }
  }

  /** A poll fails exactly with the reason of a terminal item it comes to, and waits exactly for an empty queue that
      still has a sender. */
  lemma FailureMeaning(r: Reader, queue: seq<Item>, held: bool, room: nat, why: Reason)
    requires ReaderOk(r)
    ensures PollRead(r, queue, held, room).2 == Failed(why) <==> Unread(r) == [] && queue != [] && queue[0] == Abort(why)
    ensures PollRead(r, queue, held, room).2 == NotReady <==> Unread(r) == [] && queue == [] && held
  {
    if r.offset < |r.pending| { assert Unread(r)[0] == r.pending[r.offset]; }
  }

  // ------------------------------------------------- whole sequences of polls

  /** The bytes handed out by a sequence of polls with the given buffer sizes. */
  function ReadAll(r: Reader, queue: seq<Item>, held: bool, rooms: seq<nat>): Bytes
    decreases |rooms|
  {
    if rooms == [] then []
    else
      var (r', popped, res) := PollRead(r, queue, held, rooms[0]);
      Output(res) + ReadAll(r', if popped && queue != [] then queue[1..] else queue, held, rooms[1..])
  }

  /** Everything the caller has not been given yet. */
  ghost function Remaining(r: Reader, queue: seq<Item>): Bytes {
    Unread(r) + QueueBytes(queue)
  }

  lemma PollReadProgress(r: Reader, queue: seq<Item>, held: bool, room: nat)
    requires ReaderOk(r) && room > 0 && Remaining(r, queue) != []
    requires queue != [] ==> queue[0].Chunk? && queue[0].bytes != []
    ensures Output(PollRead(r, queue, held, room).2) != []
  {
  }

  /** What is left of a chunk is handed out before anything else. */
  lemma PollReadProgressUnread(r: Reader, queue: seq<Item>, held: bool, room: nat)
    requires ReaderOk(r) && room > 0 && Unread(r) != []
    ensures Output(PollRead(r, queue, held, room).2) != [] && !PollRead(r, queue, held, room).1
  {
  }

  lemma PollReadRemaining(r: Reader, queue: seq<Item>, held: bool, room: nat)
    requires ReaderOk(r)
    ensures var (r', popped, res) := PollRead(r, queue, held, room);
      && ReaderOk(r')
      && (popped ==> queue != [])
      && |Output(res)| <= room
      && Output(res) + Remaining(r', Rest(queue, popped)) == Remaining(r, queue)
  {
    PollReadConserves(r, queue, held, room);
    var (r', popped, res) := PollRead(r, queue, held, room);
    Regroup([], Output(res), Unread(r'), QueueBytes(Rest(queue, popped)));
  }

  /** One poll of a sequence: what it hands out comes off the front of what remains. */
  lemma ReadAllStep(r: Reader, queue: seq<Item>, held: bool, rooms: seq<nat>)
    requires ReaderOk(r) && rooms != []
    ensures var (r', popped, res) := PollRead(r, queue, held, rooms[0]);
      && ReaderOk(r')
      && (popped ==> queue != [])
      && ReadAll(r, queue, held, rooms) == Output(res) + ReadAll(r', Rest(queue, popped), held, rooms[1..])
      && Remaining(r, queue) == Output(res) + Remaining(r', Rest(queue, popped))
  {
    PollReadRemaining(r, queue, held, rooms[0]);
  }

  ghost predicate AllPositive(rooms: seq<nat>) {
    forall k :: 0 <= k < |rooms| ==> rooms[k] > 0
  }

  /** For every queue of non-empty chunks and every sequence of buffer sizes, the polls hand out a
      prefix of the concatenation; as many polls with non-empty buffers as there are bytes hand out all of it. */
  lemma {:induction false} ReadAllIsConcatenation(r: Reader, queue: seq<Item>, held: bool, rooms: seq<nat>)
    requires ReaderOk(r) && AllChunks(queue) && NonEmptyChunks(queue)
    ensures ReadAll(r, queue, held, rooms) <= Remaining(r, queue)
    ensures AllPositive(rooms) && |rooms| >= |Remaining(r, queue)|
      ==> ReadAll(r, queue, held, rooms) == Remaining(r, queue)
    decreases |rooms|
  {
    if rooms == [] {
      assert |Remaining(r, queue)| == 0 ==> Remaining(r, queue) == [];
    } else {
      var (r', popped, res) := PollRead(r, queue, held, rooms[0]);
      ReadAllStep(r, queue, held, rooms);
      ReadAllIsConcatenation(r', Rest(queue, popped), held, rooms[1..]);
      if rooms[0] > 0 && Remaining(r, queue) != [] {
        assert queue != [] ==> queue[0] in queue;
        PollReadProgress(r, queue, held, rooms[0]);
      }
    }
  }
}
