/** Activity leases of a tunnel: counters behind a lock, guards that give their count back once, and retirement. */
module TunnelActivity {
  import opened Wrappers

  /** The state behind the lock. */
  datatype Activity = Activity(retired: bool, pendingOpen: nat, work: nat, latestActive: int, latestBusiness: Option<int>)

  function Less1(n: nat): nat { if n > 0 then n - 1 else 0 }

  function Note(a: Activity, now: int): Activity { if a.retired then a else a.(latestActive := now) }

  function BeginPending(a: Activity, now: int): (Activity, bool) {
    if a.retired then (a, false) else (a.(pendingOpen := a.pendingOpen + 1, latestActive := now), true)
  }

  function AcquireWork(a: Activity, n: nat, now: int): (Activity, bool) {
    if a.retired then (a, false)
    else (a.(work := a.work + n, latestActive := now, latestBusiness := Some(now)), true)
  }

  /** The pending count goes down even when the promotion is refused. */
  function Promote(a: Activity, n: nat, now: int): (Activity, bool) {
    AcquireWork(a.(pendingOpen := Less1(a.pendingOpen)), n, now)
  }

  function DropPending(a: Activity, now: int): Activity {
    a.(pendingOpen := Less1(a.pendingOpen), latestActive := now)
  }

  function DropWork(a: Activity, now: int): Activity {
    a.(work := Less1(a.work), latestActive := now)
  }

  function TryRetireIdle(a: Activity, now: int, timeout: nat): (Activity, bool) {
    if a.retired || a.pendingOpen != 0 || a.work != 0 || now < a.latestActive || now - a.latestActive <= timeout
    then (a, false) else (a.(retired := true), true)
  }

  function Retire(a: Activity): Activity { a.(retired := true) }

  // ---------------------------------------------------------------- runs

  /** One section under the lock; `now` is the clock it reads there, `guard` the guard it consumes. The time of an
      idle check was read before the lock was taken, so it may lie before activity that came in between. */
  datatype Event =
    | Begin(now: int)
    | Track(n: nat, now: int)
    | Promotion(guard: nat, n: nat, now: int)
    | PendingDropped(guard: nat, now: int)
    | WorkDropped(guard: nat, now: int)
    | Noted(now: int)
    | IdleCheck(now: int, timeout: nat)
    | Retirement(now: int)

  /** The shared state, the outstanding guards of both kinds, when there was activity, and when work was begun. */
  datatype State = State(act: Activity, pending: set<nat>, work: set<nat>, next: nat, touches: seq<int>, business: seq<int>,
                         clock: int)

  predicate Enabled(s: State, e: Event) {
    && (e.IdleCheck? || s.clock <= e.now)
    && (e.Promotion? || e.PendingDropped? ==> e.guard in s.pending)
    && (e.WorkDropped? ==> e.guard in s.work)
  }

  function NewGuards(next: nat, n: nat): (gs: set<nat>)
    ensures |gs| == n && forall g :: g in gs <==> next <= g < next + n
  {
    if n == 0 then {} else NewGuards(next, n - 1) + {next + n - 1}
  }

  function Touch(s: State, now: int): State { s.(touches := s.touches + [now], clock := now) }

  /** The event hands out a guard. */
  predicate HandsOut(s: State, e: Event) {
    match e
    case Begin(now) => BeginPending(s.act, now).1
    case Track(n, now) => AcquireWork(s.act, n, now).1
    case Promotion(_, n, now) => Promote(s.act, n, now).1
    case _ => false
  }

  predicate RetiresIdle(s: State, e: Event) { e.IdleCheck? && TryRetireIdle(s.act, e.now, e.timeout).1 }

  function Step(s: State, e: Event): State
    requires Enabled(s, e)
  {
    match e
    case Begin(now) =>
      var (a, ok) := BeginPending(s.act, now);
      if ok then Touch(s, now).(act := a, pending := s.pending + {s.next}, next := s.next + 1)
      else s.(act := a, clock := now)
    case Track(n, now) =>
      var (a, ok) := AcquireWork(s.act, n, now);
      if ok then
        Touch(s, now).(act := a, work := s.work + NewGuards(s.next, n), next := s.next + n, business := s.business + [now])
      else s.(act := a, clock := now)
    case Promotion(g, n, now) =>
      var (a, ok) := Promote(s.act, n, now);
      var s' := s.(act := a, pending := s.pending - {g}, clock := now);
      if ok then
        Touch(s', now).(work := s.work + NewGuards(s.next, n), next := s.next + n, business := s.business + [now])
      else s'
    case PendingDropped(g, now) => Touch(s, now).(act := DropPending(s.act, now), pending := s.pending - {g})
    case WorkDropped(g, now) => Touch(s, now).(act := DropWork(s.act, now), work := s.work - {g})
    case Noted(now) => if s.act.retired then s.(clock := now) else Touch(s, now).(act := Note(s.act, now))
    case IdleCheck(now, timeout) => s.(act := TryRetireIdle(s.act, now, timeout).0)
    case Retirement(now) => s.(act := Retire(s.act), clock := now)
  }

  predicate Initial(s: State) {
    s.act == Activity(false, 0, 0, s.clock, None) && s.pending == {} && s.work == {} && s.touches == [s.clock]
    && s.business == []
  }

  ghost predicate IsRun(states: seq<State>, events: seq<Event>) {
    && |states| == |events| + 1 && Initial(states[0])
    && forall i :: 0 <= i < |events| ==> Enabled(states[i], events[i]) && states[i + 1] == Step(states[i], events[i])
  }

  // ---------------------------------------------------------------- counters and guards

  ghost predicate Counted(s: State) {
    && s.act.pendingOpen == |s.pending| && s.act.work == |s.work|
    && (forall g :: g in s.pending ==> g < s.next) && (forall g :: g in s.work ==> g < s.next)
    && s.pending !! s.work
  }

  /** The recorded time is that of the latest activity. */
  ghost predicate Timed(s: State) {
    && (forall t :: t in s.touches ==> t <= s.act.latestActive) && s.act.latestActive <= s.clock
    && s.act.latestActive in s.touches
  }

  /** The recorded time of business is that of the latest work begun, if there was any. */
  ghost predicate Worked(s: State) {
    s.act.latestBusiness == if s.business == [] then None else Some(s.business[|s.business| - 1])
  }

  ghost predicate Inv(s: State) { Counted(s) && Timed(s) && Worked(s) }

  lemma CountUnion(a: set<nat>, next: nat, n: nat)
    requires forall g :: g in a ==> g < next
    ensures |a + NewGuards(next, n)| == |a| + n
  {
    assert a !! NewGuards(next, n);
  }

  lemma CountRemoved(a: set<nat>, g: nat)
    requires g in a
    ensures |a - {g}| == |a| - 1
  {
  }

  lemma BeginCounted(s: State, e: Event)
    requires Counted(s) && Enabled(s, e) && e.Begin?
    ensures Counted(Step(s, e))
  {
    assert s.next !in s.pending;
  }

  lemma WorkCounted(s: State, e: Event)
    requires Counted(s) && Enabled(s, e) && (e.Track? || e.Promotion?)
    ensures Counted(Step(s, e))
  {
    CountUnion(s.work, s.next, e.n);
    if e.Promotion? { CountRemoved(s.pending, e.guard); }
  }

  lemma GuardsKeep(s: State, e: Event)
    requires Counted(s) && Enabled(s, e)
    ensures Counted(Step(s, e))
  {
    match e
    case Begin(_) => BeginCounted(s, e);
    case Track(_, _) => WorkCounted(s, e);
    case Promotion(_, _, _) => WorkCounted(s, e);
    case PendingDropped(g, _) => CountRemoved(s.pending, g);
    case WorkDropped(g, _) => CountRemoved(s.work, g);
    case _ =>
  }

  lemma TimesKeep(s: State, e: Event)
    requires Timed(s) && Enabled(s, e)
    ensures Timed(Step(s, e))
  {
  }

  lemma StepKeeps(s: State, e: Event)
    requires Inv(s) && Enabled(s, e)
    ensures Inv(Step(s, e))
  {
    GuardsKeep(s, e);
    TimesKeep(s, e);
  }

  lemma {:induction false} RunKeeps(states: seq<State>, events: seq<Event>, i: nat)
    requires IsRun(states, events) && i <= |events|
    ensures Inv(states[i])
  {
    if i > 0 {
      RunKeeps(states, events, i - 1);
      assert Enabled(states[i - 1], events[i - 1]) && states[i] == Step(states[i - 1], events[i - 1]);
      StepKeeps(states[i - 1], events[i - 1]);
    }
  }

  /** In every interleaving the two counters are the numbers of outstanding guards, no guard is of both kinds, and
      the recorded times are those of the latest activity and of the latest work begun. */
  lemma CountersAreGuards(states: seq<State>, events: seq<Event>, i: nat)
    requires IsRun(states, events) && i <= |events|
    ensures states[i].act.pendingOpen == |states[i].pending| && states[i].act.work == |states[i].work|
    ensures states[i].pending !! states[i].work
    ensures states[i].act.latestActive in states[i].touches
    ensures forall t :: t in states[i].touches ==> t <= states[i].act.latestActive
    ensures var b := states[i].business; states[i].act.latestBusiness == if b == [] then None else Some(b[|b| - 1])
  {
    RunKeeps(states, events, i);
  }

  /** What a live tunnel does: each section notes the time and changes its counter by the guards it hands out or
      takes back; handing out work is business. */
  lemma LiveSections(a: Activity, n: nat, now: int)
    requires !a.retired
    ensures BeginPending(a, now) == (a.(pendingOpen := a.pendingOpen + 1, latestActive := now), true)
    ensures AcquireWork(a, n, now) == (a.(work := a.work + n, latestActive := now, latestBusiness := Some(now)), true)
    ensures a.pendingOpen > 0 ==>
      var a' := a.(pendingOpen := a.pendingOpen - 1, work := a.work + n, latestActive := now, latestBusiness := Some(now));
      Promote(a, n, now) == (a', true)
    ensures Note(a, now) == a.(latestActive := now)
  {
  }

  /** A retired tunnel hands out nothing, and only dropped guards change it. */
  lemma RetiredSections(a: Activity, n: nat, now: int)
    requires a.retired
    ensures BeginPending(a, now) == (a, false) && AcquireWork(a, n, now) == (a, false) && Note(a, now) == a
    ensures a.pendingOpen > 0 ==> Promote(a, n, now) == (a.(pendingOpen := a.pendingOpen - 1), false)
  {
  }

  /** A dropped guard gives its count back, never below zero, and notes the time, also after retirement. */
  lemma DropSections(a: Activity, now: int)
    ensures DropPending(a, now) == a.(pendingOpen := if a.pendingOpen == 0 then 0 else a.pendingOpen - 1, latestActive := now)
    ensures DropWork(a, now) == a.(work := if a.work == 0 then 0 else a.work - 1, latestActive := now)
  {
  }

  /** Every event of a run is its section under the lock. */
  lemma EventsAreSections(s: State, e: Event)
    requires Enabled(s, e)
    ensures Step(s, e).act ==
      match e
      case Begin(now) => BeginPending(s.act, now).0
      case Track(n, now) => AcquireWork(s.act, n, now).0
      case Promotion(_, n, now) => Promote(s.act, n, now).0
      case PendingDropped(_, now) => DropPending(s.act, now)
      case WorkDropped(_, now) => DropWork(s.act, now)
      case Noted(now) => Note(s.act, now)
      case IdleCheck(now, timeout) => TryRetireIdle(s.act, now, timeout).0
      case Retirement(_) => s.act.(retired := true)
    ensures !e.IdleCheck? ==> Step(s, e).clock == e.now
  {
  }

  /** A run in which activity comes in after an idle check has read the clock, and before it takes the lock: the check
      refuses, and a later one retires the tunnel. */
  lemma StaleCheckHappens() returns (states: seq<State>, events: seq<Event>)
    ensures IsRun(states, events) && events == [Noted(9), IdleCheck(8, 0), IdleCheck(20, 10)]
    ensures !RetiresIdle(states[1], events[1]) && states[2] == states[1] && RetiresIdle(states[2], events[2])
    ensures states[3].act == Activity(true, 0, 0, 9, None)
  {
    var s0 := State(Activity(false, 0, 0, 0, None), {}, {}, 0, [0], [], 0);
    var s1 := Step(s0, Noted(9));
    events := [Noted(9), IdleCheck(8, 0), IdleCheck(20, 10)];
    states := [s0, s1, s1, s1.(act := Activity(true, 0, 0, 9, None))];
  }

  // ---------------------------------------------------------------- retirement

  lemma RetiredStep(s: State, e: Event)
    requires Enabled(s, e) && s.act.retired
    ensures var s' := Step(s, e); s'.act.retired && s'.pending <= s.pending && s'.work <= s.work
    ensures !HandsOut(s, e) && !RetiresIdle(s, e)
  {
  }

  /** Retirement is for good: guards only go away, and no call hands one out or retires the tunnel again. */
  lemma {:induction false} RetiredForever(states: seq<State>, events: seq<Event>, i: nat, j: nat)
    requires IsRun(states, events) && i <= j <= |events| && states[i].act.retired
    ensures states[j].act.retired && states[j].pending <= states[i].pending && states[j].work <= states[i].work
    ensures j < |events| ==> !HandsOut(states[j], events[j]) && !RetiresIdle(states[j], events[j])
    decreases j
  {
    if i < j {
      RetiredForever(states, events, i, j - 1);
      assert Enabled(states[j - 1], events[j - 1]) && states[j] == Step(states[j - 1], events[j - 1]);
      RetiredStep(states[j - 1], events[j - 1]);
    }
    if j < |events| {
      assert Enabled(states[j], events[j]);
      RetiredStep(states[j], events[j]);
    }
  }

  /** An idle check that answers yes finds no guard outstanding and no activity within the timeout; afterwards
      the counters stay zero in every state, no call hands out a guard, and no idle check answers yes. */
  lemma IdleRetirementIsFinal(states: seq<State>, events: seq<Event>, i: nat, j: nat)
    requires IsRun(states, events) && i < j <= |events| && RetiresIdle(states[i], events[i])
    ensures states[i].pending == {} && states[i].work == {}
    ensures forall t :: t in states[i].touches ==> events[i].now - t > events[i].timeout
    ensures states[j].act.pendingOpen == 0 && states[j].act.work == 0 && states[j].pending == {} && states[j].work == {}
    ensures j < |events| ==> !HandsOut(states[j], events[j]) && !RetiresIdle(states[j], events[j])
  {
    RunKeeps(states, events, i);
    RunKeeps(states, events, j);
    assert states[i + 1] == Step(states[i], events[i]);
    RetiredForever(states, events, i + 1, j);
  }

  /** The check answers yes whenever it may: live, no guard, and silence for longer than the timeout. */
  lemma IdleRetiresExactly(states: seq<State>, events: seq<Event>, i: nat)
    requires IsRun(states, events) && i < |events| && events[i].IdleCheck?
    ensures RetiresIdle(states[i], events[i]) <==>
      && !states[i].act.retired && states[i].pending == {} && states[i].work == {}
      && forall t :: t in states[i].touches ==> events[i].now - t > events[i].timeout
  {
    RunKeeps(states, events, i);
    assert Enabled(states[i], events[i]);
  }

  /** A check whose clock was read before the latest activity never retires the tunnel. */
  lemma StaleCheckRefuses(states: seq<State>, events: seq<Event>, i: nat, t: int)
    requires IsRun(states, events) && i < |events| && events[i].IdleCheck?
    requires t in states[i].touches && events[i].now < t
    ensures !RetiresIdle(states[i], events[i]) && states[i + 1] == states[i]
  {
    RunKeeps(states, events, i);
    assert Enabled(states[i], events[i]) && states[i + 1] == Step(states[i], events[i]);
  }

  // ---------------------------------------------------------------- the shared objects

  class Shared {
    var retired: bool
    var pendingOpen: nat
    var work: nat
    var latestActive: int
    var latestBusiness: Option<int>

    ghost function Value(): Activity
      reads this
    {
      Activity(retired, pendingOpen, work, latestActive, latestBusiness)
    }

    constructor (now: int)
      ensures Value() == Activity(false, 0, 0, now, None)
    {
      retired, pendingOpen, work, latestActive, latestBusiness := false, 0, 0, now, None;
    }

    method NoteActivity(now: int)
      modifies this`latestActive
      ensures Value() == Note(old(Value()), now)
      ensures latestActive == if retired then old(latestActive) else now
    {
      if !retired { latestActive := now; }
    }

    method Begin(now: int) returns (guard: Option<PendingGuard>)
      modifies this
      ensures (Value(), guard.Some?) == BeginPending(old(Value()), now)
      ensures guard.Some? ==> fresh(guard.value) && guard.value.shared == this && guard.value.active
    {
      if retired { return None; }
      pendingOpen := pendingOpen + 1;
      latestActive := now;
      var g := new PendingGuard(this);
      guard := Some(g);
    }

    method Acquire(n: nat, now: int) returns (guards: Option<seq<WorkGuard>>)
      modifies this
      ensures (Value(), guards.Some?) == AcquireWork(old(Value()), n, now)
      ensures guards.Some? ==> |guards.value| == n && WorkGuards(this, guards.value) && fresh(set g | g in guards.value)
    {
      if retired { return None; }
      work := work + n;
      latestActive := now;
      latestBusiness := Some(latestActive);
      var gs := NewWorkGuards(this, n);
      guards := Some(gs);
    }

    method RetireIfIdle(now: int, timeout: nat) returns (ok: bool)
      modifies this
      ensures (Value(), ok) == TryRetireIdle(old(Value()), now, timeout)
    {
      if retired || pendingOpen != 0 || work != 0 || now < latestActive || now - latestActive <= timeout { return false; }
      retired := true;
      ok := true;
    }

    method RetireNow()
      modifies this`retired
      ensures Value() == Retire(old(Value()))
      ensures retired
    {
      retired := true;
    }
  }

  /** Active guards of `shared`, all different. */
  ghost predicate WorkGuards(shared: Shared, gs: seq<WorkGuard>)
    reads gs
  {
    && (forall g :: g in gs ==> g.shared == shared && g.active)
    && (forall i, j :: 0 <= i < j < |gs| ==> gs[i] != gs[j])
  }

  method NewWorkGuards(shared: Shared, n: nat) returns (gs: seq<WorkGuard>)
    ensures |gs| == n && WorkGuards(shared, gs) && fresh(set g | g in gs)
  {
    gs := [];
    while |gs| < n
      invariant |gs| <= n && WorkGuards(shared, gs) && fresh(set g | g in gs)
      decreases n - |gs|
    {
      var g := new WorkGuard(shared);
      gs := gs + [g];
    }
  }

  class PendingGuard {
    const shared: Shared
    var active: bool

    constructor (shared: Shared)
      ensures this.shared == shared && active
    {
      this.shared, active := shared, true;
    }

    /** Consumes the guard, whatever the answer. */
    method PromoteTo(n: nat, now: int) returns (guards: Option<seq<WorkGuard>>)
      requires active
      modifies this, shared
      ensures (shared.Value(), guards.Some?) == Promote(old(shared.Value()), n, now) && !active
      ensures guards.Some? ==> |guards.value| == n && WorkGuards(shared, guards.value) && fresh(set g | g in guards.value)
    {
      if shared.pendingOpen > 0 { shared.pendingOpen := shared.pendingOpen - 1; }
      active := false;
      if shared.retired { return None; }
      shared.work := shared.work + n;
      shared.latestActive := now;
      shared.latestBusiness := Some(now);
      var gs := NewWorkGuards(shared, n);
      guards := Some(gs);
    }

    /** A guard that was promoted gives nothing back. */
    method Drop(now: int)
      modifies shared
      ensures shared.Value() == if active then DropPending(old(shared.Value()), now) else old(shared.Value())
    {
      if !active { return; }
      if shared.pendingOpen > 0 { shared.pendingOpen := shared.pendingOpen - 1; }
      shared.latestActive := now;
    }
  }

  class WorkGuard {
    const shared: Shared
    var active: bool

    constructor (shared: Shared)
      ensures this.shared == shared && active
    {
      this.shared, active := shared, true;
    }

    method Drop(now: int)
      modifies this, shared
      ensures shared.Value() == if old(active) then DropWork(old(shared.Value()), now) else old(shared.Value())
      ensures !active
    {
      if !active { return; }
      if shared.work > 0 { shared.work := shared.work - 1; }
      shared.latestActive := now;
      active := false;
    }
  }
}
