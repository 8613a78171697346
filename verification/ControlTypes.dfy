/** Wire frames, queue items and constants shared by the control-stream model. */
module ControlTypes {

  const ID_SPACE := 0x1_0000_0000
  const WRITE_CHUNK: nat := 60 * 1024
  const QUEUE_CAPACITY: nat := 1024
  const TERMINAL_RESERVE: nat := 1

  type U32 = x: int | 0 <= x < 0x1_0000_0000
  type Byte = x: int | 0 <= x < 256
  type Bytes = seq<Byte>
  type Purpose = seq<Byte>

  datatype CommandResult =
    | Success | PortNotListen | ListenerClosed | AcceptQueueFull | ConflictLost | LeaseMismatch
    | Retired | ProtocolError | Timeout | Interrupted | InvalidParam | InternalError

  /** The error codes that the control-stream code itself produces; any other code a caller
      may close the runtime with is `OtherCode`. */
  datatype ErrorCode =
    | CodeOk | CodePortNotListen | CodeInterrupted | CodeReject | CodeConflict | CodeInvalidData
    | CodeTimeout | CodeInvalidParam | CodeUnknown | CodeOutOfLimit | OtherCode(n: nat)

  function ResultCode(r: CommandResult): ErrorCode {
    match r
    case Success => CodeOk
    case PortNotListen => CodePortNotListen
    case ListenerClosed | Retired | Interrupted => CodeInterrupted
    case AcceptQueueFull | LeaseMismatch => CodeReject
    case ConflictLost => CodeConflict
    case ProtocolError => CodeInvalidData
    case Timeout => CodeTimeout
    case InvalidParam => CodeInvalidParam
    case InternalError => CodeUnknown
  }

  /** Which results stand for which error. */
  lemma ResultCodes(r: CommandResult)
    ensures ResultCode(r) == CodeOk <==> r == Success
    ensures ResultCode(r) == CodeInterrupted <==> r == ListenerClosed || r == Retired || r == Interrupted
    ensures ResultCode(r) == CodeReject <==> r == AcceptQueueFull || r == LeaseMismatch
    ensures ResultCode(r) == CodePortNotListen <==> r == PortNotListen
    ensures ResultCode(r) == CodeConflict <==> r == ConflictLost
    ensures ResultCode(r) == CodeInvalidData <==> r == ProtocolError
    ensures ResultCode(r) == CodeTimeout <==> r == Timeout
    ensures ResultCode(r) == CodeInvalidParam <==> r == InvalidParam
    ensures ResultCode(r) == CodeUnknown <==> r == InternalError
  {
  }

  datatype Reason = Reason(code: ErrorCode, msg: string)

  datatype Frame =
    | Open(id: U32, purpose: Purpose)
    | OpenResp(id: U32, result: CommandResult)
    | Data(id: U32, bytes: Bytes)
    | Fin(id: U32)
    | Reset(id: U32, why: CommandResult)
    | Window(id: U32, credit: U32)

  /** One element of a stream's inbound queue: a chunk, or one of the two terminal items. */
  datatype Item = Chunk(bytes: Bytes) | End | Abort(reason: Reason)

  ghost predicate AllChunks(q: seq<Item>) {
    forall x :: x in q ==> x.Chunk?
  }

  ghost predicate NonEmptyChunks(q: seq<Item>) {
    forall x :: x in q && x.Chunk? ==> x.bytes != []
  }

  /** Chunks followed by exactly one terminal item. */
  ghost predicate Sealed(q: seq<Item>) {
    0 < |q| && AllChunks(q[..|q| - 1]) && !q[|q| - 1].Chunk?
  }

  lemma SealedBy(q: seq<Item>, last: Item)
    requires AllChunks(q) && !last.Chunk?
    ensures Sealed(q + [last])
  {
    assert (q + [last])[..|q + [last]| - 1] == q;
  }

  /** The bytes carried by the chunks of a queue, in order. */
  function QueueBytes(q: seq<Item>): Bytes {
    if q == [] then [] else (if q[0].Chunk? then q[0].bytes else []) + QueueBytes(q[1..])
  }

  lemma {:induction false} QueueBytesAppend(q: seq<Item>, x: Item)
    ensures QueueBytes(q + [x]) == QueueBytes(q) + (if x.Chunk? then x.bytes else [])
  {
    if q == [] {
      assert q + [x] == [x];
      assert [x][1..] == [];
    } else {
      assert (q + [x])[1..] == q[1..] + [x];
      QueueBytesAppend(q[1..], x);
    }
  }
}
