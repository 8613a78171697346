/** Closing a control-stream runtime while other calls are between two of their lock sections.

    Elsewhere each call is one step. Here a call that was let in by the check of the closed flag takes its locks one by
    one, and closing swaps the flag and then drains the two maps. A channel stands for itself; the maps are the sets of
    channels registered in them. */
module ControlRace {

  type Chan = nat
  type Caller = nat

  /** What a call that passed the check has still to do. */
  datatype Job =
    | Open(c: Chan)      // put a new channel into the pending map
    | Accept(c: Chan)    // put a new channel into the stream map
    | Answer(c: Chan)    // take a channel out of the pending map
    | Holding(c: Chan)   // put the channel it took into the stream map
    | Remove(c: Chan)    // take a channel out of the stream map, with its terminal item

  datatype Closer = Idle | Swapped | Draining | Finished

  /** `ended`: channels that were given a terminal item. */
  datatype State = State(closer: Closer, streams: set<Chan>, pending: set<Chan>, ended: set<Chan>, calls: map<Caller, Job>)

  predicate Closed(s: State) { s.closer != Idle }

  datatype Event =
    | Check(caller: Caller, job: Job)
    | Section(caller: Caller)
    | Discard(caller: Caller)
    | Cleanup(c: Chan)
    | Swap
    | DrainStreams
    | DrainPending

  /** Only an open runtime lets calls in; an answer whose waiter is gone is discarded; an open that has returned or
      timed out takes its channel out of the pending map. */
  predicate Enabled(s: State, e: Event) {
    match e
    case Check(t, job) => !Closed(s) && t !in s.calls && !job.Holding?
    case Section(t) => t in s.calls
    case Discard(t) => t in s.calls && s.calls[t].Holding?
    case Cleanup(_) => true
    case Swap => s.closer == Idle
    case DrainStreams => s.closer == Swapped
    case DrainPending => s.closer == Draining
  }

  /** The next lock section of a call. */
  function Run(s: State, t: Caller): State
    requires t in s.calls
  {
    var rest := s.calls - {t};
    match s.calls[t]
    case Open(c) => s.(pending := s.pending + {c}, calls := rest)
    case Accept(c) => s.(streams := s.streams + {c}, calls := rest)
    case Answer(c) =>
      if c in s.pending then s.(pending := s.pending - {c}, calls := s.calls[t := Holding(c)]) else s.(calls := rest)
    case Holding(c) => s.(streams := s.streams + {c}, calls := rest)
    case Remove(c) =>
      if c in s.streams then s.(streams := s.streams - {c}, ended := s.ended + {c}, calls := rest) else s.(calls := rest)
  }

  function Step(s: State, e: Event): State
    requires Enabled(s, e)
  {
    match e
    case Check(t, job) => s.(calls := s.calls[t := job])
    case Section(t) => Run(s, t)
    case Discard(t) => s.(calls := s.calls - {t})
    case Cleanup(c) => s.(pending := s.pending - {c})
    case Swap => s.(closer := Swapped)
    case DrainStreams => s.(closer := Draining, streams := {}, ended := s.ended + s.streams)
    case DrainPending => s.(closer := Finished, pending := {}, ended := s.ended + s.pending)
  }

  /** What the lock section of a call does: it puts its channel into a map; an answer takes it out of the pending map and
      holds it, and is over if it was not there; a removal takes it out of the stream map with its terminal item. */
  lemma SectionMeaning(s: State, t: Caller)
    requires t in s.calls
    ensures var s' := Run(s, t); var c := s.calls[t].c;
      && s'.closer == s.closer && s'.calls - {t} == s.calls - {t}
      && (s.calls[t].Open? ==> s'.pending == s.pending + {c} && s'.streams == s.streams)
      && (s.calls[t].Accept? || s.calls[t].Holding? ==> s'.streams == s.streams + {c} && s'.pending == s.pending)
      && (s.calls[t].Answer? ==> s'.pending == s.pending - {c} && s'.streams == s.streams)
      && (t in s'.calls <==> s.calls[t].Answer? && c in s.pending) && (t in s'.calls ==> s'.calls[t] == Holding(c))
      && (s.calls[t].Remove? ==> s'.streams == s.streams - {c} && s'.pending == s.pending)
      && s'.ended == s.ended + if s.calls[t].Remove? && c in s.streams then {c} else {}
  {
  }

  /** What closing and cleaning up do. */
  lemma CloserMeaning(s: State, c: Chan)
    ensures s.closer == Idle ==> Step(s, Swap) == s.(closer := Swapped)
    ensures s.closer == Swapped ==> var s' := Step(s, DrainStreams);
      s'.closer == Draining && s'.streams == {} && s'.ended == s.ended + s.streams && s'.pending == s.pending && s'.calls == s.calls
    ensures s.closer == Draining ==> var s' := Step(s, DrainPending);
      s'.closer == Finished && s'.pending == {} && s'.ended == s.ended + s.pending && s'.streams == s.streams && s'.calls == s.calls
    ensures Enabled(s, Cleanup(c)) && Step(s, Cleanup(c)) == s.(pending := s.pending - {c})
  {
  }

  /** `events` lead from the first of the states to the last. */
  ghost predicate Leads(states: seq<State>, events: seq<Event>) {
    && |states| == |events| + 1
    && forall i :: 0 <= i < |events| ==> Enabled(states[i], events[i]) && states[i + 1] == Step(states[i], events[i])
  }

  // ---------------------------------------------------------------- the exact condition

  /** A call that still puts a channel into a map. */
  predicate Inserts(s: State, t: Caller) {
    t in s.calls && match s.calls[t]
      case Open(_) => true
      case Accept(_) => true
      case Holding(_) => true
      case Answer(c) => c in s.pending
      case Remove(_) => false
  }

  ghost predicate NoneInserts(s: State) { forall t :: !Inserts(s, t) }

  /** Nobody adds to a map any more, and a stream that left its map got its terminal item. */
  ghost predicate Shrinks(s: State, s': State) {
    && Closed(s') && NoneInserts(s') && s'.streams <= s.streams && s'.pending <= s.pending
    && (forall c :: c in s.streams ==> c in s'.streams || c in s'.ended)
    && s.ended <= s'.ended
    && (s'.closer == Draining || s'.closer == Finished ==> s'.streams == {})
    && (s'.closer == Finished ==> s'.pending == {})
  }

  lemma ShrinksOn(s: State, m: State, e: Event)
    requires Shrinks(s, m) && Enabled(m, e)
    ensures Shrinks(s, Step(m, e))
  {
    var m' := Step(m, e);
    if e.Section? { assert !Inserts(m, e.caller); }
    forall t ensures !Inserts(m', t) { assert !Inserts(m, t); }
  }

  lemma {:induction false} ShrinksAlong(states: seq<State>, events: seq<Event>, j: nat)
    requires Leads(states, events) && |events| > 0 && events[0] == Swap && NoneInserts(states[0]) && 1 <= j <= |events|
    ensures Shrinks(states[0], states[j])
  {
    if j == 1 {
      assert states[0 + 1] == Step(states[0], events[0]);
      forall t ensures !Inserts(states[1], t) { assert !Inserts(states[0], t); }
    } else {
      ShrinksAlong(states, events, j - 1);
      assert Enabled(states[j - 1], events[j - 1]) && states[j] == Step(states[j - 1], events[j - 1]);
      ShrinksOn(states[0], states[j - 1], events[j - 1]);
    }
  }

  /** If no call is between its check and its insert when the flag is swapped, both maps are empty in every state after
      the drains, and every stream registered at the swap has been given its terminal item. */
  lemma ClosesCleanly(states: seq<State>, events: seq<Event>, j: nat)
    requires Leads(states, events) && |events| > 0 && events[0] == Swap && NoneInserts(states[0])
    requires 1 <= j <= |events| && states[j].closer == Finished
    ensures states[j].streams == {} && states[j].pending == {} && states[0].streams <= states[j].ended
  {
    ShrinksAlong(states, events, j);
  }

  /** After the drains something is registered again. */
  ghost predicate Leaves(states: seq<State>, events: seq<Event>) {
    && Leads(states, events) && |events| > 0 && events[0] == Swap
    && states[|events|].closer == Finished && (states[|events|].streams != {} || states[|events|].pending != {})
  }

  function After(states: seq<State>, e: Event): (r: seq<State>)
    requires states != [] && Enabled(states[|states| - 1], e)
    ensures |r| == |states| + 1 && r[|states|] == Step(states[|states| - 1], e) && r[..|states|] == states
  {
    states + [Step(states[|states| - 1], e)]
  }

  lemma LeadsOn(states: seq<State>, events: seq<Event>, e: Event)
    requires Leads(states, events) && Enabled(states[|events|], e)
    ensures Leads(After(states, e), events + [e])
  {
    var states', events' := After(states, e), events + [e];
    forall i | 0 <= i < |events'|
      ensures Enabled(states'[i], events'[i]) && states'[i + 1] == Step(states'[i], events'[i])
    {
      if i < |events| { assert states'[i] == states[i] && states'[i + 1] == states[i + 1]; }
    }
  }

  /** From any open state, follow the four events. */
  lemma FourEvents(s: State, a: Event, b: Event, c: Event, d: Event) returns (states: seq<State>)
    requires Enabled(s, a) && Enabled(Step(s, a), b) && Enabled(Step(Step(s, a), b), c)
    requires Enabled(Step(Step(Step(s, a), b), c), d)
    ensures Leads(states, [a, b, c, d]) && states[0] == s && states[4] == Step(Step(Step(Step(s, a), b), c), d)
  {
    states := [s];
    LeadsOn(states, [], a);
    states := After(states, a);
    LeadsOn(states, [a], b);
    states := After(states, b);
    LeadsOn(states, [a, b], c);
    states := After(states, c);
    LeadsOn(states, [a, b, c], d);
    states := After(states, d);
    assert [] + [a] + [b] + [c] + [d] == [a, b, c, d];
  }

  /** A call caught between its check and its insert puts its channel into a map that was drained already; a stream
      registered like that has no terminal item coming. */
  lemma CaughtCall(s: State, t: Caller) returns (states: seq<State>, events: seq<Event>)
    requires s.closer == Idle && Inserts(s, t)
    ensures Leaves(states, events) && states[0] == s
    ensures !s.calls[t].Open? ==> s.calls[t].c in states[|events|].streams
    ensures !s.calls[t].Open? && s.calls[t].c !in s.ended + s.streams + s.pending ==> s.calls[t].c !in states[|events|].ended
  {
    if s.calls[t].Answer? {
      states := FourEvents(s, Swap, Section(t), DrainStreams, DrainPending);
      LeadsOn(states, [Swap, Section(t), DrainStreams, DrainPending], Section(t));
      states, events := After(states, Section(t)), [Swap, Section(t), DrainStreams, DrainPending] + [Section(t)];
    } else {
      states := FourEvents(s, Swap, DrainStreams, DrainPending, Section(t));
      events := [Swap, DrainStreams, DrainPending, Section(t)];
    }
  }

  /** Closing can leave something registered if and only if a call is between its check and its insert when the flag
      is swapped. */
  lemma LeavesExactly(s: State)
    requires s.closer == Idle
    ensures (exists states, events :: Leaves(states, events) && states[0] == s) <==> !NoneInserts(s)
  {
    if !NoneInserts(s) {
      var t :| Inserts(s, t);
      var states, events := CaughtCall(s, t);
    }
    forall states, events | Leaves(states, events) && states[0] == s ensures !NoneInserts(s) {
      if NoneInserts(s) { ClosesCleanly(states, events, |events|); }
    }
  }

  // ---------------------------------------------------------------- a stranded stream

  /** Registered in a drained runtime, with nobody about to take it out. */
  ghost predicate Stranded(s: State, c: Chan) {
    && s.closer == Finished && c in s.streams && c !in s.ended
    && forall t :: t in s.calls ==> s.calls[t] != Remove(c)
  }

  /** Such a stream stays registered and its reader is never told: closing again does nothing, and no call is let in. */
  lemma {:induction false} StrandedForever(states: seq<State>, events: seq<Event>, j: nat, c: Chan)
    requires Leads(states, events) && j <= |events| && Stranded(states[0], c)
    ensures Stranded(states[j], c)
  {
    if j > 0 {
      StrandedForever(states, events, j - 1, c);
      assert Enabled(states[j - 1], events[j - 1]) && states[j] == Step(states[j - 1], events[j - 1]);
    }
  }

  /** The shortest case: one accepted open is between its check and its insert when the runtime is closed. */
  lemma AcceptedAfterClose() returns (states: seq<State>, events: seq<Event>)
    ensures Leads(states, events) && states[0] == State(Idle, {}, {}, {}, map[])
    ensures Stranded(states[|events|], 7)
  {
    var s0 := State(Idle, {}, {}, {}, map[]);
    var check := Check(0, Accept(7));
    states := FourEvents(s0, check, Swap, DrainStreams, DrainPending);
    events := [check, Swap, DrainStreams, DrainPending];
    LeadsOn(states, events, Section(0));
    states, events := After(states, Section(0)), events + [Section(0)];
  }
}
