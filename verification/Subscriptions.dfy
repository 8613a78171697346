/** Who owns the subscription for incoming tunnels, and what becomes of every dispatched tunnel. */
module Subscriptions {
  import opened Wrappers

  type Id = string
  type Owner = nat
  type Ticket = nat

  /** A legacy subscriber answers whether it is still there; the other kind accepts or rejects the tunnel. */
  datatype Entry = Entry(owner: Owner, legacy: bool)

  /** Where the dispatch of one tunnel stands; between phases other calls run. */
  datatype Phase =
    | Validating(local: Id)
    | Publishing(local: Id)
    | Calling(local: Id, entry: Entry)
    | Closing
    | Done(accepted: bool)

  datatype Dispatch = Dispatch(phase: Phase, closes: nat)

  /** `guards` maps the owner token of each live guard to the id it was registered for. */
  datatype Manager = Manager(subs: map<Id, Entry>, guards: map<Owner, Id>, next: Owner, dispatches: map<Ticket, Dispatch>)

  // ---------------------------------------------------------------- the locked sections

  function Register(subs: map<Id, Entry>, local: Id, entry: Entry): Option<map<Id, Entry>> {
    if local in subs then None else Some(subs[local := entry])
  }

  /** Removes the entry only while it still belongs to `owner`. */
  function RemoveOwned(subs: map<Id, Entry>, local: Id, owner: Owner): map<Id, Entry> {
    if local in subs && subs[local].owner == owner then subs - {local} else subs
  }

  /** The phase after validation. */
  function Validate(local: Id, ok: bool): Phase { if ok then Publishing(local) else Closing }

  /** The phase after the subscriber was looked up. */
  function Publish(local: Id, subs: map<Id, Entry>): Phase { if local in subs then Calling(local, subs[local]) else Closing }

  /** The phase after the callback answered. */
  function Answer(accepted: bool): Phase { if accepted then Done(true) else Closing }

  /** A legacy subscriber that answers no loses its own entry. */
  function TableAfter(subs: map<Id, Entry>, local: Id, entry: Entry, accepted: bool): map<Id, Entry> {
    if !accepted && entry.legacy then RemoveOwned(subs, local, entry.owner) else subs
  }

  datatype Event =
    | Registration(local: Id, legacy: bool)
    | GuardDropped(owner: Owner)
    | Arrival(ticket: Ticket, local: Id)
    | Validated(ticket: Ticket, ok: bool)
    | Published(ticket: Ticket)
    | Answered(ticket: Ticket, accepted: bool)
    | Closed(ticket: Ticket)

  predicate Enabled(m: Manager, e: Event) {
    match e
    case Registration(_, _) => true
    case GuardDropped(owner) => owner in m.guards
    case Arrival(t, _) => t !in m.dispatches
    case Validated(t, _) => t in m.dispatches && m.dispatches[t].phase.Validating?
    case Published(t) => t in m.dispatches && m.dispatches[t].phase.Publishing?
    case Answered(t, _) => t in m.dispatches && m.dispatches[t].phase.Calling?
    case Closed(t) => t in m.dispatches && m.dispatches[t].phase.Closing?
  }

  function Move(m: Manager, t: Ticket, phase: Phase): Manager
    requires t in m.dispatches
  {
    m.(dispatches := m.dispatches[t := m.dispatches[t].(phase := phase)])
  }

  function Step(m: Manager, e: Event): Manager
    requires Enabled(m, e)
  {
    match e
    case Registration(local, legacy) =>
      var r := Register(m.subs, local, Entry(m.next, legacy));
      if r.None? then m else m.(subs := r.value, guards := m.guards[m.next := local], next := m.next + 1)
    case GuardDropped(owner) =>
      m.(subs := RemoveOwned(m.subs, m.guards[owner], owner), guards := m.guards - {owner})
    case Arrival(t, local) => m.(dispatches := m.dispatches[t := Dispatch(Validating(local), 0)])
    case Validated(t, ok) => Move(m, t, Validate(m.dispatches[t].phase.local, ok))
    case Published(t) => Move(m, t, Publish(m.dispatches[t].phase.local, m.subs))
    case Answered(t, accepted) =>
      var call := m.dispatches[t].phase;
      Move(m, t, Answer(accepted)).(subs := TableAfter(m.subs, call.local, call.entry, accepted))
    case Closed(t) =>
      m.(dispatches := m.dispatches[t := Dispatch(Done(false), m.dispatches[t].closes + 1)])
  }

  const Start: Manager := Manager(map[], map[], 0, map[])

  ghost predicate IsRun(states: seq<Manager>, events: seq<Event>) {
    && |states| == |events| + 1 && states[0] == Start
    && forall i :: 0 <= i < |events| ==> Enabled(states[i], events[i]) && states[i + 1] == Step(states[i], events[i])
  }

  // ---------------------------------------------------------------- what every step keeps

  ghost predicate Owned(m: Manager) {
    && (forall id :: id in m.subs ==> m.subs[id].owner in m.guards && m.guards[m.subs[id].owner] == id)
    && (forall o :: o in m.guards ==> o < m.next)
    && (forall t :: t in m.dispatches && m.dispatches[t].phase.Calling? ==> m.dispatches[t].phase.entry.owner < m.next)
  }

  /** Closed once if rejected, never otherwise. */
  predicate Settles(d: Dispatch) { d.closes == if d.phase == Done(false) then 1 else 0 }

  ghost predicate Inv(m: Manager) {
    Owned(m) && forall t :: t in m.dispatches ==> Settles(m.dispatches[t])
  }

  lemma StepKeeps(m: Manager, e: Event)
    requires Inv(m) && Enabled(m, e)
    ensures Inv(Step(m, e))
  {
  }

  /** The two ways to lose an entry: its guard is dropped, or its own callback answers no. */
  ghost predicate Releases(m: Manager, e: Event, owner: Owner) {
    || e == GuardDropped(owner)
    || (e.Answered? && !e.accepted && e.ticket in m.dispatches
        && var p := m.dispatches[e.ticket].phase; p.Calling? && p.entry.legacy && p.entry.owner == owner)
  }

  lemma EntryKept(m: Manager, e: Event, id: Id)
    requires Inv(m) && Enabled(m, e) && id in m.subs && !Releases(m, e, m.subs[id].owner)
    ensures id in Step(m, e).subs && Step(m, e).subs[id] == m.subs[id]
  {
  }

  /** The token was handed out, and is not in the table for `id`. */
  ghost predicate Absent(m: Manager, id: Id, owner: Owner) {
    owner < m.next && (id in m.subs ==> m.subs[id].owner != owner)
  }

  /** A token that is out of the table never comes back. */
  lemma StaysAbsent(m: Manager, e: Event, id: Id, owner: Owner)
    requires Enabled(m, e) && Absent(m, id, owner)
    ensures Absent(Step(m, e), id, owner)
  {
  }

  lemma DoneKept(m: Manager, e: Event, t: Ticket)
    requires Enabled(m, e) && t in m.dispatches && m.dispatches[t].phase.Done?
    ensures t in Step(m, e).dispatches && Step(m, e).dispatches[t] == m.dispatches[t]
  {
  }

  // ---------------------------------------------------------------- whole runs

  lemma OwnStep(states: seq<Manager>, events: seq<Event>, k: nat)
    requires IsRun(states, events) && k < |events|
    ensures Enabled(states[k], events[k]) && states[k + 1] == Step(states[k], events[k])
  {
  }

  lemma {:induction false} RunKeeps(states: seq<Manager>, events: seq<Event>, i: nat)
    requires IsRun(states, events) && i <= |events|
    ensures Inv(states[i])
  {
    if i > 0 {
      RunKeeps(states, events, i - 1);
      OwnStep(states, events, i - 1);
      StepKeeps(states[i - 1], events[i - 1]);
    }
  }

  /** An entry stays exactly as registered until its own guard is dropped or its own callback answers no;
      in-flight calls of earlier subscribers of the same id cannot remove it. While it is there its guard lives. */
  lemma {:induction false} EntrySurvives(states: seq<Manager>, events: seq<Event>, i: nat, j: nat, id: Id)
    requires IsRun(states, events) && i <= j <= |events| && id in states[i].subs
    requires forall k :: i <= k < j ==> !Releases(states[k], events[k], states[i].subs[id].owner)
    ensures id in states[j].subs && states[j].subs[id] == states[i].subs[id]
    ensures states[j].subs[id].owner in states[j].guards && states[j].guards[states[j].subs[id].owner] == id
    decreases j
  {
    RunKeeps(states, events, j);
    if i < j {
      EntrySurvives(states, events, i, j - 1, id);
      RunKeeps(states, events, j - 1);
      OwnStep(states, events, j - 1);
      EntryKept(states[j - 1], events[j - 1], id);
    }
  }

  /** An entry that was removed never comes back under the same token. */
  lemma {:induction false} RemovedForGood(states: seq<Manager>, events: seq<Event>, i: nat, j: nat, id: Id, owner: Owner)
    requires IsRun(states, events) && i <= j <= |events| && Absent(states[i], id, owner)
    ensures Absent(states[j], id, owner)
    decreases j
  {
    if i < j {
      RemovedForGood(states, events, i, j - 1, id, owner);
      OwnStep(states, events, j - 1);
      StaysAbsent(states[j - 1], events[j - 1], id, owner);
    }
  }

  /** In every run each entry has a live guard for its id, and a dispatch has been closed once if it was rejected
      and never otherwise. */
  lemma EntriesHaveGuards(states: seq<Manager>, events: seq<Event>, i: nat)
    requires IsRun(states, events) && i <= |events|
    ensures var m := states[i];
      forall id :: id in m.subs ==> m.subs[id].owner in m.guards && m.guards[m.subs[id].owner] == id
    ensures var m := states[i];
      forall t :: t in m.dispatches ==> m.dispatches[t].closes == if m.dispatches[t].phase == Done(false) then 1 else 0
  {
    RunKeeps(states, events, i);
    forall t | t in states[i].dispatches ensures Settles(states[i].dispatches[t]) {}
  }

  /** A legacy subscriber that answers no is gone for good, whoever registers for its id afterwards. */
  lemma AnswerNoRemoves(states: seq<Manager>, events: seq<Event>, i: nat, j: nat)
    requires IsRun(states, events) && i < j <= |events| && events[i].Answered? && !events[i].accepted
    requires events[i].ticket in states[i].dispatches
    requires var p := states[i].dispatches[events[i].ticket].phase; p.Calling? && p.entry.legacy
    ensures var p := states[i].dispatches[events[i].ticket].phase;
      p.local in states[j].subs ==> states[j].subs[p.local].owner != p.entry.owner
  {
    RunKeeps(states, events, i);
    var p := states[i].dispatches[events[i].ticket].phase;
    OwnStep(states, events, i);
    RemovedForGood(states, events, i + 1, j, p.local, p.entry.owner);
  }

  ghost predicate CallsEntry(m: Manager, t: Ticket, local: Id, entry: Entry) {
    t in m.dispatches && m.dispatches[t].phase == Calling(local, entry)
  }

  /** A callback in flight was the registered one when its dispatch was published. */
  lemma {:induction false} CalledWasRegistered(states: seq<Manager>, events: seq<Event>, j: nat, t: Ticket, local: Id, entry: Entry)
    returns (i: nat)
    requires IsRun(states, events) && j <= |events| && CallsEntry(states[j], t, local, entry)
    ensures i < j && events[i] == Published(t) && local in states[i].subs && states[i].subs[local] == entry
    decreases j
  {
    OwnStep(states, events, j - 1);
    if CallsEntry(states[j - 1], t, local, entry) {
      i := CalledWasRegistered(states, events, j - 1, t, local, entry);
    } else {
      i := j - 1;
    }
  }

  ghost predicate IsAccepted(m: Manager, t: Ticket) { t in m.dispatches && m.dispatches[t].phase == Done(true) }

  /** An accepted tunnel was accepted by a callback, which was the registered one when the tunnel was published. */
  lemma {:induction false} AcceptedByRegistered(states: seq<Manager>, events: seq<Event>, j: nat, t: Ticket)
    returns (i: nat, k: nat, local: Id)
    requires IsRun(states, events) && j <= |events| && IsAccepted(states[j], t)
    ensures i < k < j && events[i] == Published(t) && events[k] == Answered(t, true)
    ensures local in states[i].subs && CallsEntry(states[k], t, local, states[i].subs[local])
    decreases j
  {
    OwnStep(states, events, j - 1);
    if IsAccepted(states[j - 1], t) {
      i, k, local := AcceptedByRegistered(states, events, j - 1, t);
    } else {
      var p := states[j - 1].dispatches[t].phase;
      k, local := j - 1, p.local;
      i := CalledWasRegistered(states, events, k, t, local, p.entry);
    }
  }

  /** A finished dispatch is accepted and never closed, or rejected and closed exactly once, for the rest of the run. */
  lemma {:induction false} OutcomeIsFinal(states: seq<Manager>, events: seq<Event>, i: nat, j: nat, t: Ticket)
    requires IsRun(states, events) && i <= j <= |events| && t in states[i].dispatches && states[i].dispatches[t].phase.Done?
    ensures t in states[j].dispatches && states[j].dispatches[t] == states[i].dispatches[t]
    ensures states[j].dispatches[t].closes == if states[j].dispatches[t].phase.accepted then 0 else 1
    decreases j
  {
    RunKeeps(states, events, i);
    assert Settles(states[i].dispatches[t]);
    if i < j {
      OutcomeIsFinal(states, events, i, j - 1, t);
      OwnStep(states, events, j - 1);
      DoneKept(states[j - 1], events[j - 1], t);
    }
  }

  // ---------------------------------------------------------------- the manager

  class Tunnel {
    var closes: nat

    constructor ()
      ensures closes == 0
    {
      closes := 0;
    }

    method Close()
      modifies this
      ensures closes == old(closes) + 1
    {
      closes := closes + 1;
    }
  }

  datatype Validation = Accept | Reject | Failed

  /** A dispatch that is to be closed is closed and done. */
  function Settle(d: Dispatch): Dispatch {
    if d.phase.Closing? then Dispatch(Done(false), d.closes + 1) else d
  }

  class NetManager {
    var subscriptions: map<Id, Entry>

    method RegisterSubscription(local: Id, entry: Entry) returns (ok: bool)
      modifies this
      ensures ok <==> local !in old(subscriptions)
      ensures ok ==> subscriptions == old(subscriptions)[local := entry]
      ensures !ok ==> subscriptions == old(subscriptions)
      ensures ok <==> Register(old(subscriptions), local, entry).Some?
    {
      if local in subscriptions { return false; }
      subscriptions := subscriptions[local := entry];
      ok := true;
    }

    method UnregisterOwned(local: Id, owner: Owner)
      modifies this
      ensures subscriptions == RemoveOwned(old(subscriptions), local, owner)
      ensures forall id :: id in old(subscriptions) && (id != local || old(subscriptions)[id].owner != owner) ==>
        id in subscriptions && subscriptions[id] == old(subscriptions)[id]
      ensures local in subscriptions ==> subscriptions[local].owner != owner
    {
      var ownsCurrent := local in subscriptions && subscriptions[local].owner == owner;
      if ownsCurrent { subscriptions := subscriptions - {local}; }
    }

    /** `answer` is what the callback returns; `meanwhile` is the table when it returns, since other calls run while
        it is awaited. */
    method PublishTunnel(local: Id, tunnel: Tunnel, answer: bool, meanwhile: map<Id, Entry>) returns (accepted: bool)
      modifies this, tunnel
      ensures accepted <==> local in old(subscriptions) && answer
      ensures tunnel.closes == old(tunnel.closes) + if accepted then 0 else 1
      ensures local !in old(subscriptions) ==> subscriptions == old(subscriptions)
      ensures local in old(subscriptions) ==>
        subscriptions == TableAfter(meanwhile, local, old(subscriptions)[local], answer)
      ensures var found := Publish(local, old(subscriptions));
        var answered := if found.Calling? then Answer(answer) else found;
        Settle(Dispatch(answered, old(tunnel.closes))) == Dispatch(Done(accepted), tunnel.closes)
    {
      if local !in subscriptions {
        tunnel.Close();
        return false;
      }
      var entry := subscriptions[local];
      subscriptions := meanwhile;
      if entry.legacy {
        if answer {
          accepted := true;
        } else {
          UnregisterOwned(local, entry.owner);
          accepted := false;
        }
      } else {
        accepted := answer;
      }
      if !accepted { tunnel.Close(); }
    }

    /** `published` is the table when the validation returns. */
    method DispatchTunnel(local: Id, tunnel: Tunnel, verdict: Validation, published: map<Id, Entry>, answer: bool,
                          meanwhile: map<Id, Entry>) returns (accepted: bool)
      modifies this, tunnel
      ensures accepted <==> verdict == Accept && local in published && answer
      ensures tunnel.closes == old(tunnel.closes) + if accepted then 0 else 1
      ensures verdict != Accept || local !in published ==> subscriptions == published
      ensures verdict == Accept && local in published ==>
        subscriptions == TableAfter(meanwhile, local, published[local], answer)
      ensures var validated := Validate(local, verdict == Accept);
        var found := if validated.Publishing? then Publish(local, published) else validated;
        var answered := if found.Calling? then Answer(answer) else found;
        Settle(Dispatch(answered, old(tunnel.closes))) == Dispatch(Done(accepted), tunnel.closes)
    {
      subscriptions := published;
      match verdict {
        case Accept => accepted := PublishTunnel(local, tunnel, answer, meanwhile);
        case Reject =>
          tunnel.Close();
          accepted := false;
        case Failed =>
          tunnel.Close();
          accepted := false;
      }
    }
  }

  // ---------------------------------------------------------------- one dispatch from end to end

  /** The table after an answer: a legacy subscriber that said no loses its entry if it is still its own. */
  lemma TableMeaning(subs: map<Id, Entry>, local: Id, entry: Entry, accepted: bool)
    ensures TableAfter(subs, local, entry, accepted) ==
      if entry.legacy && !accepted && local in subs && subs[local].owner == entry.owner then subs - {local} else subs
  {
  }

  /** A registration succeeds exactly for a free id: the entry has the kind asked for and a token never used, and its
      guard lives. */
  lemma Registers(m: Manager, local: Id, legacy: bool)
    requires Inv(m)
    ensures var m' := Step(m, Registration(local, legacy));
      && (local in m.subs ==> m' == m)
      && (local !in m.subs ==>
            && m'.subs == m.subs[local := Entry(m.next, legacy)] && m'.guards == m.guards[m.next := local]
            && m.next !in m.guards && m'.dispatches == m.dispatches)
  {
  }

  /** A dropped guard takes its own entry with it, and no other. */
  lemma DropsOwnEntry(m: Manager, owner: Owner, id: Id)
    requires Inv(m) && owner in m.guards
    ensures var m' := Step(m, GuardDropped(owner));
      && (id in m'.subs <==> id in m.subs && m.subs[id].owner != owner) && (id in m'.subs ==> m'.subs[id] == m.subs[id])
      && m'.guards == m.guards - {owner} && m'.dispatches == m.dispatches
  {
  }

  /** A tunnel that nobody interferes with: accepted exactly if the validator says yes, a subscriber is there, and it
      answers yes; otherwise it ends rejected, closed once. */
  lemma DispatchRuns(m: Manager, t: Ticket, local: Id, ok: bool, answer: bool) returns (m': Manager)
    requires t !in m.dispatches
    ensures var accepted := ok && local in m.subs && answer;
      t in m'.dispatches && m'.dispatches[t] == Dispatch(Done(accepted), if accepted then 0 else 1)
    ensures m'.subs == if ok && local in m.subs then TableAfter(m.subs, local, m.subs[local], answer) else m.subs
    ensures forall u :: u in m.dispatches ==> u in m'.dispatches && m'.dispatches[u] == m.dispatches[u]
  {
    m' := Step(m, Arrival(t, local));
    m' := Step(m', Validated(t, ok));
    if ok {
      m' := Step(m', Published(t));
      if local in m.subs { m' := Step(m', Answered(t, answer)); }
    }
    if m'.dispatches[t].phase.Closing? { m' := Step(m', Closed(t)); }
  }

  // ---------------------------------------------------------------- a dispatch among other calls

  /** The events of one dispatch. */
  predicate About(e: Event, t: Ticket) {
    match e
    case Arrival(u, _) => u == t
    case Validated(u, _) => u == t
    case Published(u) => u == t
    case Answered(u, _) => u == t
    case Closed(u) => u == t
    case _ => false
  }

  lemma OthersLeaveDispatch(m: Manager, e: Event, t: Ticket)
    requires Enabled(m, e) && !About(e, t) && t in m.dispatches
    ensures t in Step(m, e).dispatches && Step(m, e).dispatches[t] == m.dispatches[t]
  {
  }

  /** Nothing but its own events moves a dispatch, however many other calls come in between. */
  lemma {:induction false} DispatchWaits(states: seq<Manager>, events: seq<Event>, i: nat, j: nat, t: Ticket)
    requires IsRun(states, events) && i <= j <= |events| && t in states[i].dispatches
    requires forall k :: i <= k < j ==> !About(events[k], t)
    ensures t in states[j].dispatches && states[j].dispatches[t] == states[i].dispatches[t]
    decreases j
  {
    if i < j {
      DispatchWaits(states, events, i, j - 1, t);
      OwnStep(states, events, j - 1);
      OthersLeaveDispatch(states[j - 1], events[j - 1], t);
    }
  }

  /** The three ways to reject a tunnel, as in `DispatchTunnel`. */
  ghost predicate Rejects(m: Manager, e: Event, t: Ticket) {
    About(e, t) && t in m.dispatches
    && match e
       case Validated(_, ok) => !ok
       case Published(_) => m.dispatches[t].phase.Publishing? && m.dispatches[t].phase.local !in m.subs
       case Answered(_, accepted) => !accepted
       case _ => false
  }

  ghost predicate IsRejected(m: Manager, t: Ticket) {
    t in m.dispatches && (m.dispatches[t].phase.Closing? || m.dispatches[t].phase == Done(false))
  }

  lemma RejectionStep(m: Manager, e: Event, t: Ticket)
    requires Enabled(m, e) && IsRejected(Step(m, e), t)
    ensures IsRejected(m, t) || Rejects(m, e, t)
  {
  }

  /** A rejected tunnel was refused by the validator, found no subscriber, or was refused by its callback. */
  lemma {:induction false} RejectedForAReason(states: seq<Manager>, events: seq<Event>, j: nat, t: Ticket) returns (k: nat)
    requires IsRun(states, events) && j <= |events| && IsRejected(states[j], t)
    ensures k < j && Rejects(states[k], events[k], t)
    decreases j
  {
    OwnStep(states, events, j - 1);
    RejectionStep(states[j - 1], events[j - 1], t);
    if IsRejected(states[j - 1], t) { k := RejectedForAReason(states, events, j - 1, t); } else { k := j - 1; }
  }
}
