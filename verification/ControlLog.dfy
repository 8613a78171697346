/** The frames one runtime has ever sent, in order, and what such a log adds up to.

    A link is the part of the sender's log that the receiver has not handled yet. */
module ControlLog {
  import opened ControlTypes

  datatype Digest = Digest(
    announced: map<U32, Purpose>,
    answered: map<U32, CommandResult>,
    data: map<U32, Bytes>,
    fins: set<U32>)

  const Nothing := Digest(map[], map[], map[], {})

  /** All bytes carried by the Data frames of stream `i`. */
  function Got(d: Digest, i: U32): Bytes {
    if i in d.data then d.data[i] else []
  }

  function Note(d: Digest, f: Frame): Digest {
    match f
    case Open(i, purpose) => d.(announced := d.announced[i := purpose])
    case OpenResp(i, result) => d.(answered := d.answered[i := result])
    case Data(i, bytes) => d.(data := d.data[i := Got(d, i) + bytes])
    case Fin(i) => d.(fins := d.fins + {i})
    case Reset(_, _) => d
    case Window(_, _) => d
  }

  function DigestOf(log: seq<Frame>): Digest {
    if log == [] then Nothing else Note(DigestOf(log[..|log| - 1]), log[|log| - 1])
  }

  /** The sender of a stream of its own has announced it; of a peer's stream, has accepted it. */
  ghost predicate Established(d: Digest, p: nat, i: U32) {
    if i % 2 == p then i in d.announced else i in d.answered && d.answered[i] == Success
  }

  /** What a runtime of parity `p` may send after a log that adds up to `d`: an id is announced once,
      answered once, carries data only when established, and nothing after its Fin. */
  ghost predicate Lawful(d: Digest, p: nat, f: Frame) {
    match f
    case Open(i, _) => i % 2 == p && i !in d.announced
    case OpenResp(i, _) => i % 2 != p && i !in d.answered
    case Data(i, bytes) => bytes != [] && i !in d.fins && Established(d, p, i)
    case Fin(i) => i !in d.fins && Established(d, p, i)
    case Reset(_, _) => true
    case Window(_, _) => true
  }

  ghost predicate LawfulLog(log: seq<Frame>, p: nat) {
    log == [] ||
    (LawfulLog(log[..|log| - 1], p) && Lawful(DigestOf(log[..|log| - 1]), p, log[|log| - 1]))
  }

  lemma LogAppend(log: seq<Frame>, f: Frame, p: nat)
    ensures DigestOf(log + [f]) == Note(DigestOf(log), f)
    ensures LawfulLog(log + [f], p) <==> LawfulLog(log, p) && Lawful(DigestOf(log), p, f)
  {
    assert (log + [f])[..|log + [f]| - 1] == log;
  }

  /** The next frame a receiver handles. */
  lemma LogNext(log: seq<Frame>, k: nat, p: nat)
    requires k < |log| && LawfulLog(log, p)
    ensures DigestOf(log[..k + 1]) == Note(DigestOf(log[..k]), log[k])
    ensures LawfulLog(log[..k], p) && Lawful(DigestOf(log[..k]), p, log[k])
  {
    LawfulPrefix(log, k + 1, p);
    assert log[..k + 1] == log[..k] + [log[k]];
    LogAppend(log[..k], log[k], p);
  }

  lemma {:induction false} LawfulPrefix(log: seq<Frame>, k: nat, p: nat)
    requires k <= |log| && LawfulLog(log, p)
    ensures LawfulLog(log[..k], p)
    decreases |log|
  {
    if k < |log| {
      assert log[..|log| - 1][..k] == log[..k];
      LawfulPrefix(log[..|log| - 1], k, p);
    } else {
      assert log[..k] == log;
    }
  }

  /** How a digest may change while its log grows lawfully: announcements and answers are kept, data is
      only appended, and a finished stream's data is final. */
  ghost predicate Extends(d: Digest, d': Digest) {
    && (forall i :: i in d.announced ==> i in d'.announced && d'.announced[i] == d.announced[i])
    && (forall i :: i in d.answered ==> i in d'.answered && d'.answered[i] == d.answered[i])
    && (forall i :: Got(d, i) <= Got(d', i))
    && d.fins <= d'.fins
    && (forall i :: i in d.fins ==> Got(d', i) == Got(d, i))
  }

  lemma NoteExtends(d: Digest, p: nat, f: Frame)
    requires Lawful(d, p, f)
    ensures Extends(d, Note(d, f))
  {
  }

  lemma ExtendsTrans(d0: Digest, d1: Digest, d2: Digest)
    requires Extends(d0, d1) && Extends(d1, d2)
    ensures Extends(d0, d2)
  {
    forall i ensures Got(d0, i) <= Got(d2, i) {
      assert Got(d0, i) <= Got(d1, i) <= Got(d2, i);
    }
  }

  lemma {:induction false} DigestGrows(log: seq<Frame>, k: nat, p: nat)
    requires k <= |log| && LawfulLog(log, p)
    ensures Extends(DigestOf(log[..k]), DigestOf(log))
    decreases |log|
  {
    if k < |log| {
      var front := log[..|log| - 1];
      assert front[..k] == log[..k];
      DigestGrows(front, k, p);
      NoteExtends(DigestOf(front), p, log[|log| - 1]);
      ExtendsTrans(DigestOf(log[..k]), DigestOf(front), DigestOf(log));
    } else {
      assert log[..k] == log;
    }
  }

  /** Streams that carry data or a Fin are established. */
  ghost predicate SpeakersEstablished(d: Digest, p: nat) {
    && (forall i :: i in d.data ==> Established(d, p, i))
    && (forall i :: i in d.fins ==> Established(d, p, i))
  }

  lemma {:induction false} LawfulSpeakers(log: seq<Frame>, p: nat)
    requires LawfulLog(log, p)
    ensures SpeakersEstablished(DigestOf(log), p)
  {
    if log != [] {
      LawfulSpeakers(log[..|log| - 1], p);
    }
  }
}
