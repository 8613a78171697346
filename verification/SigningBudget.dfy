/** The signing budget of a NAT probe reflector: at most 128 signatures in any second and 4 at a time.

    The budget keeps a short queue of admission times; what it should do is said over the full history. Times
    are nanoseconds, an input of each attempt. */
module SigningBudget {
  import opened Wrappers

  const SECOND: int := 1_000_000_000
  const MAX_PER_SECOND: nat := 128
  const MAX_IN_FLIGHT: nat := 4

  datatype Budget = Budget(admitted: seq<int>, inFlight: nat)

  /** The queue without the expired times at its front. */
  function Prune(q: seq<int>, now: int): seq<int> {
    if q != [] && now - q[0] >= SECOND then Prune(q[1..], now) else q
  }

  function TryAcquire(b: Budget, now: int): (Budget, bool) {
    var q := Prune(b.admitted, now);
    if |q| >= MAX_PER_SECOND || b.inFlight >= MAX_IN_FLIGHT then (b.(admitted := q), false)
    else (Budget(q + [now], b.inFlight + 1), true)
  }

  /** A dropped permit; the subtraction stops at zero. */
  function Release(b: Budget): Budget {
    b.(inFlight := if b.inFlight == 0 then 0 else b.inFlight - 1)
  }

  // ---------------------------------------------------------------- runs

  datatype Event = Attempt(now: int) | Drop

  /** The budget with all admissions so far, the permits alive and the latest time of an attempt. */
  datatype State = State(budget: Budget, history: seq<int>, live: nat, clock: int)

  function Later(a: int, b: int): int { if a < b then b else a }

  /** The clock is read before the lock is taken, so an attempt may be behind another that was handled before it, by
      at most `skew`; only a live permit is dropped. */
  predicate Enabled(s: State, e: Event, skew: nat) {
    match e
    case Attempt(now) => s.clock - skew <= now
    case Drop => s.live > 0
  }

  function Step(s: State, e: Event): State
    requires e.Drop? ==> s.live > 0
  {
    match e
    case Attempt(now) =>
      var (b, ok) := TryAcquire(s.budget, now);
      var clock := Later(s.clock, now);
      if ok then State(b, s.history + [now], s.live + 1, clock) else State(b, s.history, s.live, clock)
    case Drop => State(Release(s.budget), s.history, s.live - 1, s.clock)
  }

  predicate Initial(s: State) {
    s.budget == Budget([], 0) && s.history == [] && s.live == 0
  }

  ghost predicate IsRun(states: seq<State>, events: seq<Event>, skew: nat) {
    && |states| == |events| + 1 && Initial(states[0])
    && forall i :: 0 <= i < |events| ==> Enabled(states[i], events[i], skew) && states[i + 1] == Step(states[i], events[i])
  }

  // ---------------------------------------------------------------- the full-history specification

  /** The times of `h` in `lo <= t < hi`. */
  function CountIn(h: seq<int>, lo: int, hi: int): (n: nat)
    ensures n <= |h|
  {
    if h == [] then 0
    else CountIn(h[..|h| - 1], lo, hi) + if lo <= h[|h| - 1] < hi then 1 else 0
  }

  function CountFrom(h: seq<int>, lo: int): (n: nat)
    ensures n <= |h|
  {
    if h == [] then 0 else CountFrom(h[..|h| - 1], lo) + if lo <= h[|h| - 1] then 1 else 0
  }

  /** Fewer than 128 of all admissions lie less than `span` before `now`, or after it, and fewer than 4 permits live. */
  predicate NaiveAdmits(s: State, now: int, span: int) {
    CountFrom(s.history, now - span + 1) < MAX_PER_SECOND && s.live < MAX_IN_FLIGHT
  }

  // ---------------------------------------------------------------- the invariant

  ghost predicate AlmostSorted(h: seq<int>, skew: nat) { forall i, j :: 0 <= i < j < |h| ==> h[i] - skew <= h[j] }

  /** The 128th admission after any other comes `span` later. */
  ghost predicate Spread(h: seq<int>, span: int) {
    forall i, j :: 0 <= i && i + MAX_PER_SECOND <= j < |h| ==> h[j] - h[i] >= span
  }

  /** The queue is the end of the history; everything before it has expired at time `clock`. */
  ghost predicate Keeps(h: seq<int>, q: seq<int>, clock: int) {
    && |q| <= |h| && q == h[|h| - |q|..]
    && forall i :: 0 <= i < |h| - |q| ==> clock - h[i] >= SECOND
  }

  ghost predicate HistoryOk(h: seq<int>, q: seq<int>, clock: int, skew: nat) {
    && AlmostSorted(h, skew) && Spread(h, SECOND - skew) && (forall i :: 0 <= i < |h| ==> h[i] <= clock)
    && Keeps(h, q, clock) && |q| <= MAX_PER_SECOND
  }

  ghost predicate Inv(s: State, skew: nat) {
    HistoryOk(s.history, s.budget.admitted, s.clock, skew) && s.budget.inFlight == s.live <= MAX_IN_FLIGHT
  }

  lemma {:induction false} PruneKeeps(h: seq<int>, q: seq<int>, now: int, clock: int)
    requires Keeps(h, q, clock) && now <= clock
    ensures Keeps(h, Prune(q, now), clock) && |Prune(q, now)| <= |q|
    ensures Prune(q, now) != [] ==> now - Prune(q, now)[0] < SECOND
    decreases |q|
  {
    if q != [] && now - q[0] >= SECOND {
      PruneKeeps(h, q[1..], now, clock);
    }
  }

  lemma {:induction false} CountBelow(h: seq<int>, lo: int, hi: int, k: nat)
    requires k <= |h| && forall i :: 0 <= i < k ==> h[i] < lo
    ensures CountIn(h, lo, hi) <= |h| - k && CountFrom(h, lo) <= |h| - k
  {
    if k < |h| { CountBelow(h[..|h| - 1], lo, hi, k); } else if k > 0 { CountBelow(h[..k - 1], lo, hi, k - 1); }
  }

  lemma {:induction false} CountAbove(h: seq<int>, lo: int, k: nat)
    requires k <= |h| && forall i :: k <= i < |h| ==> lo <= h[i]
    ensures CountFrom(h, lo) >= |h| - k
  {
    if k < |h| { CountAbove(h[..|h| - 1], lo, k); }
  }

  lemma QueueAtLeast(h: seq<int>, q: seq<int>, now: int, clock: int, skew: nat)
    requires Keeps(h, q, clock) && clock - skew <= now
    ensures CountFrom(h, now - (SECOND - skew) + 1) <= |q|
  {
    CountBelow(h, now - (SECOND - skew) + 1, 0, |h| - |q|);
  }

  lemma QueueAtMost(h: seq<int>, q: seq<int>, now: int, clock: int, skew: nat)
    requires Keeps(h, q, clock) && AlmostSorted(h, skew) && (q != [] ==> now - q[0] < SECOND)
    ensures |q| <= CountFrom(h, now - (SECOND + skew) + 1)
  {
    var k := |h| - |q|;
    forall i | k <= i < |h| ensures now - (SECOND + skew) + 1 <= h[i] { assert q[0] == h[k]; }
    CountAbove(h, now - (SECOND + skew) + 1, k);
  }

  /** The length of the pruned queue lies between two counts over the full history. */
  lemma QueueBetween(s: State, now: int, skew: nat)
    requires Inv(s, skew) && s.clock - skew <= now
    ensures var n := |Prune(s.budget.admitted, now)|;
      CountFrom(s.history, now - (SECOND - skew) + 1) <= n <= CountFrom(s.history, now - (SECOND + skew) + 1)
  {
    var h, q, clock := s.history, Prune(s.budget.admitted, now), Later(s.clock, now);
    PruneKeeps(h, s.budget.admitted, now, clock);
    QueueAtLeast(h, q, now, clock, skew);
    QueueAtMost(h, q, now, clock, skew);
  }

  lemma PruneOk(h: seq<int>, q: seq<int>, clock: int, now: int, skew: nat)
    requires HistoryOk(h, q, clock, skew)
    ensures HistoryOk(h, Prune(q, now), Later(clock, now), skew)
  {
    PruneKeeps(h, q, now, Later(clock, now));
  }

  lemma SpreadGrows(h: seq<int>, q: seq<int>, now: int, clock: int, skew: nat)
    requires Spread(h, SECOND - skew) && Keeps(h, q, clock) && |q| < MAX_PER_SECOND && clock - skew <= now
    ensures Spread(h + [now], SECOND - skew)
  {
    var h' := h + [now];
    forall i, j | 0 <= i && i + MAX_PER_SECOND <= j < |h'| ensures h'[j] - h'[i] >= SECOND - skew {
      assert h'[i] == h[i] && (j < |h| ==> h'[j] == h[j]);
    }
  }

  lemma AdmitOk(h: seq<int>, q: seq<int>, now: int, clock: int, skew: nat)
    requires HistoryOk(h, q, clock, skew) && |q| < MAX_PER_SECOND && clock - skew <= now <= clock
    ensures HistoryOk(h + [now], q + [now], clock, skew)
  {
    SpreadGrows(h, q, now, clock, skew);
    assert q + [now] == (h + [now])[|h| - |q|..];
  }

  lemma AttemptAdmits(s: State, now: int, skew: nat)
    requires Inv(s, skew) && s.clock - skew <= now
    ensures TryAcquire(s.budget, now).1 ==> NaiveAdmits(s, now, SECOND - skew)
    ensures NaiveAdmits(s, now, SECOND + skew) ==> TryAcquire(s.budget, now).1
  {
    QueueBetween(s, now, skew);
  }

  lemma AttemptKeeps(s: State, now: int, skew: nat)
    requires Inv(s, skew) && s.clock - skew <= now
    ensures Inv(Step(s, Attempt(now)), skew)
  {
    PruneOk(s.history, s.budget.admitted, s.clock, now, skew);
    if TryAcquire(s.budget, now).1 {
      AdmitOk(s.history, Prune(s.budget.admitted, now), now, Later(s.clock, now), skew);
    }
  }

  lemma StepKeeps(s: State, e: Event, skew: nat)
    requires Inv(s, skew) && Enabled(s, e, skew)
    ensures Inv(Step(s, e), skew)
  {
    if e.Attempt? { AttemptKeeps(s, e.now, skew); }
  }

  lemma {:induction false} RunKeeps(states: seq<State>, events: seq<Event>, skew: nat, i: nat)
    requires IsRun(states, events, skew) && i <= |events|
    ensures Inv(states[i], skew)
  {
    if i > 0 {
      RunKeeps(states, events, skew, i - 1);
      assert Enabled(states[i - 1], events[i - 1], skew) && states[i] == Step(states[i - 1], events[i - 1]);
      StepKeeps(states[i - 1], events[i - 1], skew);
    }
  }

  /** If the 128th successor of every admission comes `span` later, no window of that length holds more than 128. */
  lemma {:induction false} WindowBound(h: seq<int>, span: int, from: int)
    requires Spread(h, span)
    ensures CountIn(h, from, from + span) <= MAX_PER_SECOND
  {
    if h != [] {
      var n := |h| - 1;
      WindowBound(h[..n], span, from);
      if from <= h[n] < from + span && n >= MAX_PER_SECOND {
        CountBelow(h, from, from + span, n - MAX_PER_SECOND + 1);
      }
    }
  }

  // ---------------------------------------------------------------- whole runs

  /** In every run an admitted attempt has fewer than 128 of all admissions within a second less the skew before it,
      and an attempt with fewer than 128 within a second and the skew, and fewer than 4 permits alive, is admitted. */
  lemma AdmitsWithinSkew(states: seq<State>, events: seq<Event>, skew: nat, i: nat, now: int)
    requires IsRun(states, events, skew) && i <= |events| && states[i].clock - skew <= now
    ensures TryAcquire(states[i].budget, now).1 ==> NaiveAdmits(states[i], now, SECOND - skew)
    ensures NaiveAdmits(states[i], now, SECOND + skew) ==> TryAcquire(states[i].budget, now).1
  {
    RunKeeps(states, events, skew, i);
    AttemptAdmits(states[i], now, skew);
  }

  /** So when attempts are handled in the order of their clocks, one is admitted exactly when fewer than 128 of all
      admissions lie within the last second and fewer than 4 permits are alive. */
  lemma AdmitsLikeFullHistory(states: seq<State>, events: seq<Event>, i: nat, now: int)
    requires IsRun(states, events, 0) && i <= |events| && states[i].clock <= now
    ensures TryAcquire(states[i].budget, now).1 <==>
      CountFrom(states[i].history, now - 1_000_000_000 + 1) < 128 && states[i].live < 4
  {
    AdmitsWithinSkew(states, events, 0, i, now);
  }

  /** In every run every half-open window of a second less the skew holds at most 128 admissions, at most 4 permits
      are alive, and the queue is never longer than 128. */
  lemma RunsStayInBudget(states: seq<State>, events: seq<Event>, skew: nat, i: nat, from: int)
    requires IsRun(states, events, skew) && i <= |events|
    ensures CountIn(states[i].history, from, from + 1_000_000_000 - skew) <= 128
    ensures states[i].live <= 4 && |states[i].budget.admitted| <= 128
    ensures states[i].budget.inFlight == states[i].live
  {
    RunKeeps(states, events, skew, i);
    WindowBound(states[i].history, SECOND - skew, from);
  }

  // ---------------------------------------------------------------- the bound is exact

  /** After `n` admissions at time zero, with all permits dropped. */
  function AtZero(n: nat): State { State(Budget(Repeat(0, n), 0), Repeat(0, n), 0, 0) }

  lemma OneMoreAtZero(n: nat)
    requires n < MAX_PER_SECOND
    ensures Step(AtZero(n), Attempt(0)).live > 0
    ensures Step(Step(AtZero(n), Attempt(0)), Drop) == AtZero(n + 1)
  {
    assert Repeat(0, n) + [0] == Repeat(0, n + 1);
  }

  ghost function Extended(states: seq<State>, events: seq<Event>, skew: nat, e: Event): (r: seq<State>)
    requires IsRun(states, events, skew) && Enabled(states[|events|], e, skew)
    ensures IsRun(r, events + [e], skew) && r[|events| + 1] == Step(states[|events|], e)
  {
    states + [Step(states[|events|], e)]
  }

  lemma {:induction false} AtZeroReachable(n: nat, skew: nat) returns (states: seq<State>, events: seq<Event>)
    requires n <= MAX_PER_SECOND
    ensures IsRun(states, events, skew) && states[|events|] == AtZero(n)
  {
    if n == 0 {
      states, events := [AtZero(0)], [];
    } else {
      states, events := AtZeroReachable(n - 1, skew);
      OneMoreAtZero(n - 1);
      states, events := Extended(states, events, skew, Attempt(0)), events + [Attempt(0)];
      states, events := Extended(states, events, skew, Drop), events + [Drop];
    }
  }

  lemma {:induction false} CountAll(h: seq<int>, lo: int, hi: int)
    requires forall i :: 0 <= i < |h| ==> lo <= h[i] < hi
    ensures CountIn(h, lo, hi) == |h|
  {
    if h != [] { CountAll(h[..|h| - 1], lo, hi); }
  }

  lemma CountSnoc(h: seq<int>, x: int, lo: int, hi: int)
    ensures CountIn(h + [x], lo, hi) == CountIn(h, lo, hi) + if lo <= x < hi then 1 else 0
  {
    assert (h + [x])[..|h|] == h;
  }

  lemma {:induction false} PruneAll(q: seq<int>, now: int)
    requires forall i :: 0 <= i < |q| ==> now - q[i] >= SECOND
    ensures Prune(q, now) == []
  {
    if q != [] { PruneAll(q[1..], now); }
  }

  /** After 128 admissions at time zero, one a second later clears the queue, and one that is `skew` behind it is
      admitted too. */
  lemma TwoMore(skew: nat)
    requires 0 < skew <= SECOND
    ensures var s := AtZero(MAX_PER_SECOND); var s1 := Step(s, Attempt(SECOND)); var s2 := Step(s1, Attempt(SECOND - skew));
      s1.clock == SECOND && s2.history == s.history + [SECOND] + [SECOND - skew]
  {
    PruneAll(Repeat(0, MAX_PER_SECOND), SECOND);
    assert [] + [SECOND] == [SECOND];
    assert Prune([SECOND], SECOND - skew) == [SECOND];
  }

  /** With any skew a window one tick longer than that can hold 129 admissions: the bound cannot be improved, and a
      whole second is safe only when no attempt overtakes another. */
  lemma OvertakingExceedsBudget(skew: nat) returns (states: seq<State>, events: seq<Event>)
    requires 0 < skew <= SECOND
    ensures IsRun(states, events, skew)
    ensures CountIn(states[|events|].history, 0, 1_000_000_000 - skew + 1) == 129
  {
    states, events := AtZeroReachable(MAX_PER_SECOND, skew);
    var h := Repeat(0, MAX_PER_SECOND);
    TwoMore(skew);
    states, events := Extended(states, events, skew, Attempt(SECOND)), events + [Attempt(SECOND)];
    states, events := Extended(states, events, skew, Attempt(SECOND - skew)), events + [Attempt(SECOND - skew)];
    CountAll(h, 0, SECOND - skew + 1);
    CountSnoc(h, SECOND, 0, SECOND - skew + 1);
    CountSnoc(h + [SECOND], SECOND - skew, 0, SECOND - skew + 1);
  }

  // ---------------------------------------------------------------- the shared context

  class SigningContext {
    var admitted: seq<int>
    var inFlight: nat

    ghost function Value(): Budget
      reads this
    {
      Budget(admitted, inFlight)
    }

    constructor ()
      ensures Value() == Budget([], 0)
    {
      admitted, inFlight := [], 0;
    }

    method Acquire(now: int) returns (ok: bool)
      modifies this
      ensures (Value(), ok) == TryAcquire(old(Value()), now)
      ensures inFlight == old(inFlight) + (if ok then 1 else 0) && |admitted| <= Max(|old(admitted)|, 128)
      ensures ok ==> admitted != [] && admitted[|admitted| - 1] == now && inFlight <= 4
    {
      while admitted != [] && now - admitted[0] >= SECOND
        invariant Prune(admitted, now) == Prune(old(admitted), now) && inFlight == old(inFlight)
        decreases |admitted|
      {
        admitted := admitted[1..];
      }
      if |admitted| >= MAX_PER_SECOND { return false; }
      if inFlight >= MAX_IN_FLIGHT { return false; }
      admitted := admitted + [now];
      inFlight := inFlight + 1;
      ok := true;
    }

    method DropPermit()
      modifies this
      ensures Value() == Release(old(Value()))
      ensures admitted == old(admitted) && inFlight == if old(inFlight) > 0 then old(inFlight) - 1 else 0
    {
      if inFlight > 0 { inFlight := inFlight - 1; }
    }
  }
}
