/** Recorded state of a pipeline: task statuses and the log of launch waves, checked against its task graph. */
module WaveSchedule {
  import opened Wrappers
  import opened TaskGraph

  type Status = string

  predicate Finished(s: Status) { s in {"confirmed", "complete"} }

  predicate Allowed(s: Status) { s in {"pending", "running", "confirmed", "complete", "blocked", "returned"} }

  predicate Started(s: Status) { s in {"running", "confirmed", "complete"} }

  type Statuses = map<Id, Status>

  predicate TaskStateOk(g: Graph, st: Statuses, t: Id, complete: bool)
    requires t in g && t in st
  {
    && (Started(st[t]) ==> forall d :: d in g[t].depends && d in st ==> Finished(st[d]))
    && (complete ==> Finished(st[t]))
  }

  ghost predicate StatesOk(g: Graph, st: Statuses, complete: bool) {
    && st.Keys == g.Keys
    && (forall t :: t in st ==> Allowed(st[t]))
    && (forall t :: t in st ==> TaskStateOk(g, st, t, complete))
  }

  /** All tasks of the first `i` waves. */
  ghost function Launched(waves: seq<seq<Id>>, i: nat): set<Id>
    requires i <= |waves|
  {
    if i == 0 then {} else Launched(waves, i - 1) + Elements(waves[i - 1])
  }

  lemma {:induction false} LaunchedIn(waves: seq<seq<Id>>, i: nat, t: Id)
    requires i <= |waves|
    ensures t in Launched(waves, i) <==> exists j :: 0 <= j < i && t in waves[j]
  {
    if i > 0 { LaunchedIn(waves, i - 1, t); }
  }

  lemma {:induction false} LaunchedGrows(waves: seq<seq<Id>>, j: nat, i: nat)
    requires j <= i <= |waves|
    ensures Launched(waves, j) <= Launched(waves, i)
    decreases i
  {
    if j < i { LaunchedGrows(waves, j, i - 1); }
  }

  predicate Ready(g: Graph, st: Statuses, launched: set<Id>, d: Id) {
    if d in g && g[d].automatic then d in launched else d in st ==> Finished(st[d])
  }

  ghost predicate CanLaunch(g: Graph, st: Statuses, launched: set<Id>, t: Id) {
    t in g && g[t].automatic && forall d :: d in g[t].depends ==> Ready(g, st, launched, d)
  }

  ghost predicate WaveOk(g: Graph, st: Statuses, launched: set<Id>, wave: seq<Id>) {
    && wave != []
    && (forall i, j :: 0 <= i < j < |wave| ==> wave[i] != wave[j])
    && (forall t :: t in wave ==> CanLaunch(g, st, launched, t))
  }

  /** Wave `i` fits the log before it. */
  ghost predicate WaveFits(g: Graph, st: Statuses, waves: seq<seq<Id>>, i: nat)
    requires i < |waves|
  {
    WaveOk(g, st, Launched(waves, i), waves[i])
  }

  ghost predicate WavesOk(g: Graph, st: Statuses, waves: seq<seq<Id>>) {
    forall i :: 0 <= i < |waves| ==> WaveFits(g, st, waves, i)
  }

  ghost predicate AllLaunched(g: Graph, waves: seq<seq<Id>>) {
    forall t :: t in g && g[t].automatic ==> t in Launched(waves, |waves|)
  }

  // ---------------------------------------------------------------- what an accepted state means

  lemma {:induction false} FinishedAlong(g: Graph, st: Statuses, complete: bool, p: seq<Id>)
    requires GoodEdges(g) && StatesOk(g, st, complete) && Chain(g, p) && |p| >= 2 && p[0] in st && Started(st[p[0]])
    ensures p[|p| - 1] in st && Finished(st[p[|p| - 1]])
    decreases |p|
  {
    assert Edge(g, p[0], p[1]) && TaskStateOk(g, st, p[0], complete);
    if |p| > 2 { FinishedAlong(g, st, complete, p[1..]); }
  }

  /** A task that has started has all its transitive dependencies finished. */
  lemma StartedNeedsFinished(g: Graph, st: Statuses, complete: bool, t: Id, d: Id)
    requires GoodEdges(g) && StatesOk(g, st, complete) && Needs(g, t, d) && t in st && Started(st[t])
    ensures d in st && Finished(st[d])
  {
    var p: seq<Id> :| |p| >= 2 && Chain(g, p) && p[0] == t && p[|p| - 1] == d;
    FinishedAlong(g, st, complete, p);
  }

  lemma {:induction false} ManualAlong(g: Graph, first: nat, p: seq<Id>)
    requires GoodEdges(g) && ModesFit(g, first) && Chain(g, p) && |p| >= 1 && p[0] in g && !g[p[0]].automatic
    ensures p[|p| - 1] in g && !g[p[|p| - 1]].automatic
    decreases |p|
  {
    if |p| > 1 {
      assert Edge(g, p[0], p[1]) && GoodEdge(g, p[0], p[1]);
      ManualAlong(g, first, p[1..]);
    }
  }

  /** What must hold of a transitive dependency before wave `i`. */
  ghost predicate Settled(g: Graph, st: Statuses, waves: seq<seq<Id>>, i: nat, d: Id)
    requires i <= |waves|
  {
    d in g && d in st && if g[d].automatic then d in Launched(waves, i) else Finished(st[d])
  }

  lemma {:induction false} SettledAlong(g: Graph, first: nat, st: Statuses, complete: bool, waves: seq<seq<Id>>, i: nat, p: seq<Id>)
    requires GoodEdges(g) && ModesFit(g, first) && StatesOk(g, st, complete) && WavesOk(g, st, waves)
    requires i < |waves| && Chain(g, p) && |p| >= 2 && p[0] in waves[i]
    ensures Settled(g, st, waves, i, p[|p| - 1])
    decreases |p|
  {
    assert WaveFits(g, st, waves, i) && CanLaunch(g, st, Launched(waves, i), p[0]);
    assert Edge(g, p[0], p[1]) && GoodEdge(g, p[0], p[1]);
    assert Ready(g, st, Launched(waves, i), p[1]);
    if |p| > 2 {
      var q := p[1..];
      assert Chain(g, q);
      if g[p[1]].automatic {
        LaunchedIn(waves, i, p[1]);
        var j :| 0 <= j < i && p[1] in waves[j];
        SettledAlong(g, first, st, complete, waves, j, q);
        LaunchedGrows(waves, j, i);
      } else {
        ManualAlong(g, first, q);
        FinishedAlong(g, st, complete, q);
      }
    }
  }

  /** Whenever a wave launches a task, every transitive dependency is settled: an automatic one was launched in
      an earlier wave, a manual one is finished. */
  lemma LaunchesAfterDependencies(g: Graph, first: nat, st: Statuses, complete: bool, waves: seq<seq<Id>>, i: nat, t: Id, d: Id)
    requires GoodEdges(g) && ModesFit(g, first) && StatesOk(g, st, complete) && WavesOk(g, st, waves)
    requires i < |waves| && t in waves[i] && Needs(g, t, d)
    ensures Settled(g, st, waves, i, d)
  {
    var p: seq<Id> :| |p| >= 2 && Chain(g, p) && p[0] == t && p[|p| - 1] == d;
    SettledAlong(g, first, st, complete, waves, i, p);
  }

  /** `t` is launched for the first time in wave `i`. */
  ghost predicate FirstIn(waves: seq<seq<Id>>, t: Id, i: nat) {
    i < |waves| && t in waves[i] && forall j :: 0 <= j < i ==> t !in waves[j]
  }

  lemma {:induction false} FirstExists(waves: seq<seq<Id>>, t: Id, n: nat) returns (i: nat)
    requires n <= |waves| && t in Launched(waves, n)
    ensures i < n && FirstIn(waves, t, i)
  {
    LaunchedIn(waves, n - 1, t);
    if t in Launched(waves, n - 1) { i := FirstExists(waves, t, n - 1); } else { i := n - 1; }
  }

  /** A complete accepted log launches every automatic task, first of all strictly after all the automatic tasks
      it needs. */
  lemma CompleteLogIsTopological(g: Graph, first: nat, st: Statuses, waves: seq<seq<Id>>)
    requires GoodEdges(g) && ModesFit(g, first) && StatesOk(g, st, true) && WavesOk(g, st, waves) && AllLaunched(g, waves)
    ensures forall t :: t in g && g[t].automatic ==> exists i :: FirstIn(waves, t, i)
    ensures forall t, d, i, j :: FirstIn(waves, t, i) && FirstIn(waves, d, j) && Needs(g, t, d) ==> j < i
  {
    forall t | t in g && g[t].automatic ensures exists i :: FirstIn(waves, t, i) {
      var i := FirstExists(waves, t, |waves|);
    }
    forall t, d, i, j | FirstIn(waves, t, i) && FirstIn(waves, d, j) && Needs(g, t, d) ensures j < i {
      LaunchesAfterDependencies(g, first, st, true, waves, i, t, d);
      assert WaveFits(g, st, waves, j) && CanLaunch(g, st, Launched(waves, j), d);
      LaunchedIn(waves, i, d);
    }
  }

  // ---------------------------------------------------------------- every good plan can be run

  /** One wave for each automatic task of the order. */
  ghost function Singles(g: Graph, order: seq<Id>): seq<seq<Id>> {
    if order == [] then []
    else
      var n := |order| - 1;
      Singles(g, order[..n]) + if order[n] in g && g[order[n]].automatic then [[order[n]]] else []
  }

  lemma {:induction false} LaunchedPrefix(waves: seq<seq<Id>>, more: seq<seq<Id>>, i: nat)
    requires i <= |waves|
    ensures Launched(waves + more, i) == Launched(waves, i)
  {
    if i > 0 { LaunchedPrefix(waves, more, i - 1); }
  }

  lemma FitsLonger(g: Graph, st: Statuses, waves: seq<seq<Id>>, more: seq<seq<Id>>, i: nat)
    requires i < |waves| && WaveFits(g, st, waves, i)
    ensures WaveFits(g, st, waves + more, i)
  {
    LaunchedPrefix(waves, more, i);
    assert (waves + more)[i] == waves[i];
  }

  lemma LaunchedLast(waves: seq<seq<Id>>, wave: seq<Id>)
    ensures Launched(waves + [wave], |waves|) == Launched(waves, |waves|)
    ensures Launched(waves + [wave], |waves| + 1) == Launched(waves, |waves|) + Elements(wave)
  {
    LaunchedPrefix(waves, [wave], |waves|);
    assert (waves + [wave])[|waves|] == wave;
  }

  lemma FitsLast(g: Graph, st: Statuses, waves: seq<seq<Id>>, wave: seq<Id>)
    requires WaveOk(g, st, Launched(waves, |waves|), wave)
    ensures WaveFits(g, st, waves + [wave], |waves|)
  {
    LaunchedLast(waves, wave);
    assert (waves + [wave])[|waves|] == wave;
  }

  lemma WavesSnoc(g: Graph, st: Statuses, waves: seq<seq<Id>>, all: seq<seq<Id>>)
    requires |all| == |waves| + 1 && all[..|waves|] == waves
    requires WavesOk(g, st, waves) && WaveFits(g, st, all, |waves|)
    ensures WavesOk(g, st, all)
  {
    forall i | 0 <= i < |waves| ensures WaveFits(g, st, all, i) {
      assert WaveFits(g, st, waves, i) && all == waves + all[|waves|..];
      FitsLonger(g, st, waves, all[|waves|..], i);
    }
  }

  ghost predicate LaunchesAutomatic(g: Graph, order: seq<Id>, launched: set<Id>) {
    forall t :: t in launched <==> t in order && t in g && g[t].automatic
  }

  lemma TopologicalPrefix(g: Graph, order: seq<Id>, n: nat)
    requires Topological(g, order) && n <= |order|
    ensures Topological(g, order[..n])
  {
    forall i, d | 0 <= i < n && Edge(g, order[..n][i], d) ensures d in order[..n][..i] {
      assert order[..n][..i] == order[..i];
    }
  }

  lemma NextReady(g: Graph, st: Statuses, order: seq<Id>, n: nat, launched: set<Id>)
    requires Topological(g, order) && Closed(g) && n < |order| && LaunchesAutomatic(g, order[..n], launched)
    requires forall t :: t in g && !g[t].automatic && t in st ==> Finished(st[t])
    requires order[n] in g && g[order[n]].automatic
    ensures WaveOk(g, st, launched, [order[n]])
  {
    forall d | d in g[order[n]].depends ensures Ready(g, st, launched, d) {
      assert Edge(g, order[n], d);
    }
  }

  lemma {:induction false} SinglesOk(g: Graph, st: Statuses, order: seq<Id>)
    requires Topological(g, order) && Closed(g)
    requires forall t :: t in g && !g[t].automatic && t in st ==> Finished(st[t])
    ensures WavesOk(g, st, Singles(g, order))
    ensures LaunchesAutomatic(g, order, Launched(Singles(g, order), |Singles(g, order)|))
  {
    if order != [] {
      var n := |order| - 1;
      var waves := Singles(g, order[..n]);
      TopologicalPrefix(g, order, n);
      SinglesOk(g, st, order[..n]);
      assert order == order[..n] + [order[n]];
      if order[n] in g && g[order[n]].automatic {
        NextReady(g, st, order, n, Launched(waves, |waves|));
        FitsLast(g, st, waves, [order[n]]);
        LaunchedLast(waves, [order[n]]);
        WavesSnoc(g, st, waves, waves + [[order[n]]]);
      } else {
        assert Singles(g, order) == waves;
      }
    }
  }

  /** A graph that can be sorted has a complete log that is accepted once the manual tasks are finished. */
  lemma GoodPlansCanComplete(g: Graph, st: Statuses, order: seq<Id>)
    requires Sorts(g, order) && Closed(g)
    requires forall t :: t in g && !g[t].automatic && t in st ==> Finished(st[t])
    ensures WavesOk(g, st, Singles(g, order)) && AllLaunched(g, Singles(g, order))
  {
    SinglesOk(g, st, order);
  }

  // ---------------------------------------------------------------- the recorded file

  datatype Json =
    | Null | Flag(value: bool) | Number(n: int) | Text(text: string)
    | Array(items: seq<Json>) | Object(fields: map<string, Json>)

  predicate HasText(j: Json, key: string, text: string) {
    j.Object? && key in j.fields && j.fields[key] == Text(text)
  }

  predicate HasStatus(entry: Json) { entry.Object? && "status" in entry.fields && entry.fields["status"].Text? }

  /** The recorded statuses, if every entry is an object with a status. */
  function StatusesOf(tasks: Json): (st: Option<Statuses>)
    ensures st.Some? <==> tasks.Object? && forall t :: t in tasks.fields ==> exists text :: HasText(tasks.fields[t], "status", text)
    ensures st.Some? ==> st.value.Keys == tasks.fields.Keys
    ensures st.Some? ==> forall t :: t in st.value ==> HasText(tasks.fields[t], "status", st.value[t])
  {
    assert forall j: Json :: HasStatus(j) ==> HasText(j, "status", j.fields["status"].text);
    if !tasks.Object? || exists t :: t in tasks.fields && !HasStatus(tasks.fields[t]) then None
    else Some(map t | t in tasks.fields :: tasks.fields[t].fields["status"].text)
  }

  /** The file records one of `words` as the status of `t`. */
  ghost predicate Recorded(tasks: Json, t: Id, words: set<string>) {
    tasks.Object? && t in tasks.fields && exists text :: text in words && HasText(tasks.fields[t], "status", text)
  }

  ghost predicate RecordedFinished(tasks: Json, t: Id) { Recorded(tasks, t, {"confirmed", "complete"}) }

  ghost predicate RecordedStarted(tasks: Json, t: Id) { Recorded(tasks, t, {"running", "confirmed", "complete"}) }

  ghost predicate RecordedAllowed(tasks: Json, t: Id) {
    Recorded(tasks, t, {"pending", "running", "confirmed", "complete", "blocked", "returned"})
  }

  /** What the file must say: a status for exactly the tasks, one of six words; a task that is running or further has
      all its dependencies finished; and for completion every task is finished. */
  ghost predicate StateFileOk(g: Graph, tasks: Json, complete: bool) {
    && tasks.Object? && (forall t :: t in tasks.fields <==> t in g)
    && (forall t :: t in g ==> RecordedAllowed(tasks, t))
    && (forall t, d :: t in g && d in g[t].depends && RecordedStarted(tasks, t) ==> RecordedFinished(tasks, d))
    && (complete ==> forall t :: t in g ==> RecordedFinished(tasks, t))
  }

  lemma RecordedStatus(tasks: Json, st: Statuses, t: Id, words: set<string>)
    requires StatusesOf(tasks) == Some(st)
    ensures Recorded(tasks, t, words) <==> t in st && st[t] in words
  {
  }

  /** The status read from the file says what the file says. */
  ghost predicate ReadsAt(tasks: Json, st: Statuses, t: Id) {
    && (RecordedAllowed(tasks, t) <==> t in st && Allowed(st[t]))
    && (RecordedStarted(tasks, t) <==> t in st && Started(st[t]))
    && (RecordedFinished(tasks, t) <==> t in st && Finished(st[t]))
  }

  lemma StatusRead(tasks: Json, st: Statuses, t: Id)
    requires StatusesOf(tasks) == Some(st)
    ensures ReadsAt(tasks, st, t)
  {
    RecordedStatus(tasks, st, t, {"pending", "running", "confirmed", "complete", "blocked", "returned"});
    RecordedStatus(tasks, st, t, {"running", "confirmed", "complete"});
    RecordedStatus(tasks, st, t, {"confirmed", "complete"});
  }

  lemma StateFileMeans(g: Graph, tasks: Json, complete: bool)
    requires Closed(g)
    ensures StateFileOk(g, tasks, complete) <==> StatusesOf(tasks).Some? && StatesOk(g, StatusesOf(tasks).value, complete)
  {
    if StateFileOk(g, tasks, complete) {
      forall t | t in tasks.fields ensures exists text :: HasText(tasks.fields[t], "status", text) {
        assert RecordedAllowed(tasks, t);
      }
    }
    if StatusesOf(tasks).Some? {
      var st := StatusesOf(tasks).value;
      forall t ensures ReadsAt(tasks, st, t) { StatusRead(tasks, st, t); }
      if StateFileOk(g, tasks, complete) { FileGivesStates(g, tasks, st, complete); }
      if StatesOk(g, st, complete) { StatesGiveFile(g, tasks, st, complete); }
    }
  }

  lemma FileGivesStates(g: Graph, tasks: Json, st: Statuses, complete: bool)
    requires tasks.Object? && st.Keys == tasks.fields.Keys && forall t :: ReadsAt(tasks, st, t)
    requires StateFileOk(g, tasks, complete)
    ensures StatesOk(g, st, complete)
  {
    forall t | t in st ensures Allowed(st[t]) && TaskStateOk(g, st, t, complete) {
      assert ReadsAt(tasks, st, t) && RecordedAllowed(tasks, t);
      forall d | d in g[t].depends && d in st && Started(st[t]) ensures Finished(st[d]) { assert ReadsAt(tasks, st, d); }
    }
  }

  lemma StatesGiveFile(g: Graph, tasks: Json, st: Statuses, complete: bool)
    requires Closed(g) && tasks.Object? && st.Keys == tasks.fields.Keys && forall t :: ReadsAt(tasks, st, t)
    requires StatesOk(g, st, complete)
    ensures StateFileOk(g, tasks, complete)
  {
    forall t | t in g ensures RecordedAllowed(tasks, t) && (complete ==> RecordedFinished(tasks, t)) {
      assert ReadsAt(tasks, st, t) && TaskStateOk(g, st, t, complete);
    }
    forall t, d | t in g && d in g[t].depends && RecordedStarted(tasks, t) ensures RecordedFinished(tasks, d) {
      assert ReadsAt(tasks, st, t) && ReadsAt(tasks, st, d);
      assert TaskStateOk(g, st, t, complete) && Edge(g, t, d);
    }
  }

  predicate SettingsOk(scheduler: Json) {
    && HasText(scheduler, "strategy", "dependency-ready-set")
    && HasText(scheduler, "max_concurrency", "runtime-available-slots")
    && HasText(scheduler, "shared_artifact_owner", "parent-orchestrator")
    && HasText(scheduler, "lock_directory", ".harness/locks")
  }

  predicate AllTexts(items: seq<Json>) { forall i :: 0 <= i < |items| ==> items[i].Text? }

  predicate WaveShaped(wave: Json) {
    && wave.Object?
    && "tasks" in wave.fields && wave.fields["tasks"].Array? && AllTexts(wave.fields["tasks"].items)
    && "serialization_reasons" in wave.fields && wave.fields["serialization_reasons"].Object?
    && (forall k :: k in wave.fields["serialization_reasons"].fields ==> wave.fields["serialization_reasons"].fields[k].Text?)
  }

  function Texts(items: seq<Json>): (ids: seq<Id>)
    requires AllTexts(items)
    ensures |ids| == |items| && forall i :: 0 <= i < |items| ==> Text(ids[i]) == items[i]
  {
    seq(|items|, i requires 0 <= i < |items| => items[i].text)
  }

  function WaveTasks(wave: Json): seq<Id>
    requires WaveShaped(wave)
  {
    Texts(wave.fields["tasks"].items)
  }

  predicate WavesShaped(scheduler: Json) {
    && scheduler.Object? && "waves" in scheduler.fields && scheduler.fields["waves"].Array?
    && forall w :: w in scheduler.fields["waves"].items ==> WaveShaped(w)
  }

  /** A wave has an array of texts and a map from texts to texts. */
  lemma ShapeMeaning(wave: Json)
    ensures WaveShaped(wave) <==>
      && wave.Object? && "tasks" in wave.fields && "serialization_reasons" in wave.fields
      && (exists ids :: RecordsWave(wave, ids))
      && (exists reasons: map<string, string> :: RecordsReasons(wave.fields["serialization_reasons"], reasons))
  {
    if WaveShaped(wave) {
      assert RecordsWave(wave, WaveTasks(wave));
      var fields := wave.fields["serialization_reasons"].fields;
      assert RecordsReasons(wave.fields["serialization_reasons"], map k | k in fields :: fields[k].text);
    }
    if wave.Object? && "tasks" in wave.fields && exists ids :: RecordsWave(wave, ids) {
      var ids :| RecordsWave(wave, ids);
      assert AllTexts(wave.fields["tasks"].items);
    }
  }

  ghost predicate RecordsReasons(j: Json, reasons: map<string, string>) {
    j.Object? && j.fields.Keys == reasons.Keys && forall k :: k in reasons ==> j.fields[k] == Text(reasons[k])
  }

  /** The ids of each wave, as recorded. */
  function WavesOf(scheduler: Json): (waves: seq<seq<Id>>)
    requires WavesShaped(scheduler)
    ensures var items := scheduler.fields["waves"].items;
      |waves| == |items| && forall i :: 0 <= i < |items| ==> RecordsWave(items[i], waves[i])
  {
    var items := scheduler.fields["waves"].items;
    assert forall i :: 0 <= i < |items| ==> items[i] in items;
    seq(|items|, i requires 0 <= i < |items| => WaveTasks(items[i]))
  }

  ghost predicate RecordsWave(wave: Json, ids: seq<Id>) {
    && wave.Object? && "tasks" in wave.fields && wave.fields["tasks"].Array? && |wave.fields["tasks"].items| == |ids|
    && forall i :: 0 <= i < |ids| ==> wave.fields["tasks"].items[i] == Text(ids[i])
  }

  // ---------------------------------------------------------------- the checks

  method CheckTaskState(g: Graph, tasks: Json, complete: bool) returns (ok: bool)
    requires Closed(g)
    ensures ok <==> StateFileOk(g, tasks, complete)
  {
    StateFileMeans(g, tasks, complete);
    var recorded := StatusesOf(tasks);
    if recorded.None? { return false; }
    ok := CheckStatuses(g, recorded.value, complete);
  }

  method CheckStatuses(g: Graph, st: Statuses, complete: bool) returns (ok: bool)
    requires Closed(g)
    ensures ok <==> StatesOk(g, st, complete)
  {
    if st.Keys != g.Keys { return false; }
    var rest := st.Keys;
    while rest != {}
      invariant rest <= st.Keys && forall t :: t in st && t !in rest ==> Allowed(st[t])
    {
      var t :| t in rest;
      if !Allowed(st[t]) { return false; }
      rest := rest - {t};
    }
    rest := st.Keys;
    while rest != {}
      invariant rest <= st.Keys && forall t :: t in st && t !in rest ==> TaskStateOk(g, st, t, complete)
    {
      var t :| t in rest;
      if !TaskStateOk(g, st, t, complete) { return false; }
      rest := rest - {t};
    }
    ok := true;
  }

  method CheckWave(g: Graph, st: Statuses, launched: set<Id>, wave: seq<Id>) returns (ok: bool)
    ensures ok <==> WaveOk(g, st, launched, wave)
  {
    if wave == [] || exists i, j :: 0 <= i < j < |wave| && wave[i] == wave[j] { return false; }
    if exists t :: t in wave && !(t in g && g[t].automatic) { return false; }
    var n := 0;
    while n < |wave|
      invariant n <= |wave| && forall k :: 0 <= k < n ==> CanLaunch(g, st, launched, wave[k])
    {
      var unfinished := exists d :: d in g[wave[n]].depends && !Ready(g, st, launched, d);
      if unfinished {
        assert wave[n] in wave && !CanLaunch(g, st, launched, wave[n]);
        return false;
      }
      n := n + 1;
    }
    ok := true;
  }

  ghost predicate WavesOkTo(g: Graph, st: Statuses, waves: seq<seq<Id>>, n: nat)
    requires n <= |waves|
  {
    forall i :: 0 <= i < n ==> WaveFits(g, st, waves, i)
  }

  /** A dependency of a task of wave `i`: an automatic one is in an earlier wave, another one is confirmed or complete. */
  ghost predicate DependencyMet(g: Graph, st: Statuses, waves: seq<seq<Id>>, i: nat, d: Id)
    requires i < |waves|
  {
    if d in g && g[d].automatic then exists j :: 0 <= j < i && d in waves[j]
    else d in st ==> st[d] == "confirmed" || st[d] == "complete"
  }

  /** Wave `i`: not empty, nothing twice, only automatic tasks, each with its dependencies met. */
  ghost predicate GoodWave(g: Graph, st: Statuses, waves: seq<seq<Id>>, i: nat)
    requires i < |waves|
  {
    && |waves[i]| > 0 && (forall a, b :: 0 <= a < b < |waves[i]| ==> waves[i][a] != waves[i][b])
    && (forall t :: t in waves[i] ==> t in g && g[t].automatic)
    && (forall t, d :: t in waves[i] && d in g[t].depends ==> DependencyMet(g, st, waves, i, d))
  }

  ghost predicate GoodLog(g: Graph, st: Statuses, waves: seq<seq<Id>>, complete: bool) {
    && (forall i :: 0 <= i < |waves| ==> GoodWave(g, st, waves, i))
    && (complete ==> forall t :: t in g && g[t].automatic ==> exists i :: 0 <= i < |waves| && t in waves[i])
  }

  lemma WaveMeans(g: Graph, st: Statuses, waves: seq<seq<Id>>, i: nat)
    requires i < |waves|
    ensures WaveFits(g, st, waves, i) <==> GoodWave(g, st, waves, i)
  {
    forall d ensures Ready(g, st, Launched(waves, i), d) <==> DependencyMet(g, st, waves, i, d) { LaunchedIn(waves, i, d); }
    if WaveFits(g, st, waves, i) {
      forall t, d | t in waves[i] && d in g[t].depends ensures DependencyMet(g, st, waves, i, d) {
        assert CanLaunch(g, st, Launched(waves, i), t) && Ready(g, st, Launched(waves, i), d);
      }
    }
  }

  lemma LogMeans(g: Graph, st: Statuses, waves: seq<seq<Id>>, complete: bool)
    ensures WavesOk(g, st, waves) && (complete ==> AllLaunched(g, waves)) <==> GoodLog(g, st, waves, complete)
  {
    forall i | 0 <= i < |waves| ensures WaveFits(g, st, waves, i) <==> GoodWave(g, st, waves, i) { WaveMeans(g, st, waves, i); }
    forall t ensures t in Launched(waves, |waves|) <==> exists i :: 0 <= i < |waves| && t in waves[i] {
      LaunchedIn(waves, |waves|, t);
    }
  }

  method CheckSchedulerState(g: Graph, st: Statuses, scheduler: Json, complete: bool) returns (ok: bool)
    ensures ok <==>
      && HasText(scheduler, "strategy", "dependency-ready-set")
      && HasText(scheduler, "max_concurrency", "runtime-available-slots")
      && HasText(scheduler, "shared_artifact_owner", "parent-orchestrator")
      && HasText(scheduler, "lock_directory", ".harness/locks")
      && WavesShaped(scheduler) && GoodLog(g, st, WavesOf(scheduler), complete)
  {
    if WavesShaped(scheduler) { LogMeans(g, st, WavesOf(scheduler), complete); }
    if !SettingsOk(scheduler) { return false; }
    if !WavesShaped(scheduler) { return false; }
    ok := CheckWaves(g, st, WavesOf(scheduler), complete);
  }

  method CheckWaves(g: Graph, st: Statuses, waves: seq<seq<Id>>, complete: bool) returns (ok: bool)
    ensures ok <==> WavesOk(g, st, waves) && (complete ==> AllLaunched(g, waves))
  {
    var launched: set<Id> := {};
    var n := 0;
    while n < |waves|
      invariant n <= |waves| && launched == Launched(waves, n) && WavesOkTo(g, st, waves, n)
    {
      var good := CheckWave(g, st, launched, waves[n]);
      assert good <==> WaveFits(g, st, waves, n);
      if !good { return false; }
      launched := launched + Elements(waves[n]);
      n := n + 1;
    }
    ok := !complete || forall t :: t in g && g[t].automatic ==> t in launched;
  }

  ghost predicate IsAutomatic(rows: seq<Row>, t: Id) {
    exists k :: 0 <= k < |rows| && rows[k].id == t && rows[k].mode == "auto-pipeline"
  }

  lemma AutomaticAgrees(rows: seq<Row>, g: Graph, t: Id)
    requires GraphOf(rows, g)
    ensures t in g && g[t].automatic <==> IsAutomatic(rows, t)
  {
    if t in g { var k := RowOf(rows, g, t); }
  }

  /** When all three checks accept a complete pipeline, every automatic row of the plan was launched, first of all
      strictly after all automatic rows it needs. */
  lemma AcceptedPipelineIsTopological(rows: seq<Row>, first: nat, tasks: Json, scheduler: Json)
    requires GoodPlan(rows, first) && StateFileOk(Tasks(rows), tasks, true)
    requires StatusesOf(tasks).Some? && WavesShaped(scheduler)
    requires GoodLog(Tasks(rows), StatusesOf(tasks).value, WavesOf(scheduler), true)
    ensures var waves := WavesOf(scheduler);
      && (forall t :: IsAutomatic(rows, t) ==> exists i :: FirstIn(waves, t, i))
      && (forall t, d, i, j :: FirstIn(waves, t, i) && FirstIn(waves, d, j) && RowNeeds(rows, t, d) ==> j < i)
  {
    var g, waves := Tasks(rows), WavesOf(scheduler);
    PlanIsGraph(rows, first);
    GoodRowsFit(rows, first);
    GoodEdgesClose(g);
    StateFileMeans(g, tasks, true);
    LogMeans(g, StatusesOf(tasks).value, waves, true);
    CompleteLogIsTopological(g, first, StatusesOf(tasks).value, waves);
    forall t ensures t in g && g[t].automatic <==> IsAutomatic(rows, t) { AutomaticAgrees(rows, g, t); }
    forall t, d ensures Needs(g, t, d) <==> RowNeeds(rows, t, d) { NeedsAgree(rows, g, t, d); }
  }

  lemma GoodEdgesClose(g: Graph)
    requires GoodEdges(g)
    ensures Closed(g)
  {
    forall a, b | Edge(g, a, b) ensures b in g { assert GoodEdge(g, a, b); }
  }
}
