/** Stage receipts of a high-risk task in manual mode: what the transitions record and what a later check proves. */
module StageReceipts {
  import opened Wrappers

  type Path = string
  type Content = string
  type Digest = string
  type Files = map<Path, Content>

  const StageNames: seq<string> := ["proposal", "design", "implementation", "testing", "acceptance"]

  type Stage = k: int | 0 <= k < 5

  const TESTING: Stage := 3
  const ACCEPTANCE: Stage := 4

  /** What the manifest binds a receipt to, as text, in the current and in the legacy form; and for each stage the
      paths of its artifacts. A field that is absent or not a safe packet path leaves its stage without inputs. */
  datatype Task = Task(bound: Content, legacyBound: Content, artifacts: map<Stage, seq<Path>>)

  datatype TestRun = TestRun(path: Path, digest: Digest)

  /** Receipts written before bindings had a schema have none. */
  datatype Receipt = Receipt(schema: Option<nat>, binding: Digest, inputs: map<Path, Digest>, testRun: Option<TestRun>)

  const SCHEMA: nat := 2

  type Receipts = map<Stage, Receipt>

  /** The digest of a file, as the hash `h` computes it. */
  type Hash = Content -> Digest

  predicate InputsPresent(task: Task, files: Files, k: Stage) {
    k in task.artifacts && forall p :: p in task.artifacts[k] ==> p in files
  }

  function Digests(h: Hash, task: Task, files: Files, k: Stage): map<Path, Digest>
    requires InputsPresent(task, files, k)
  {
    map p | p in task.artifacts[k] :: h(files[p])
  }

  /** `run` is the latest successful test run, if there is one. */
  function Payload(h: Hash, task: Task, files: Files, run: Option<Path>, k: Stage): Option<Receipt> {
    if !InputsPresent(task, files, k) then None
    else if k != TESTING then Some(Receipt(Some(SCHEMA), h(task.bound), Digests(h, task, files, k), None))
    else if run.None? || run.value !in files then None
    else Some(Receipt(Some(SCHEMA), h(task.bound), Digests(h, task, files, k), Some(TestRun(run.value, h(files[run.value])))))
  }

  /** The receipts of the stages before `k`. */
  function Before(rs: Receipts, k: int): Receipts { map x | x in rs && x < k :: rs[x] }

  function Record(rs: Receipts, k: Stage, r: Receipt): Option<Receipts> {
    if exists x: Stage :: x < k && x !in rs then None else Some(Before(rs, k)[k := r])
  }

  predicate TestRunHolds(h: Hash, files: Files, run: Option<TestRun>) {
    run.Some? && run.value.path in files && h(files[run.value.path]) == run.value.digest
  }

  predicate EvidenceHolds(h: Hash, task: Task, files: Files, k: Stage, r: Receipt) {
    && InputsPresent(task, files, k) && r.inputs == Digests(h, task, files, k)
    && (k == TESTING ==> TestRunHolds(h, files, r.testRun))
  }

  /** A receipt without a schema may carry the legacy binding. */
  predicate BindingHolds(h: Hash, task: Task, r: Receipt) {
    || (r.schema.None? && r.binding == h(task.legacyBound))
    || (r.schema == Some(SCHEMA) && r.binding == h(task.bound))
  }

  predicate Verify(h: Hash, task: Task, files: Files, rs: Receipts, limit: nat) {
    forall k: Stage :: k < limit ==> k in rs && BindingHolds(h, task, rs[k]) && EvidenceHolds(h, task, files, k, rs[k])
  }

  // ---------------------------------------------------------------- the stage field of the manifest

  /** One entry of the manifest: where its key starts, its key and its value. */
  datatype Line = Line(column: nat, key: string, value: string)

  type Manifest = seq<Line>

  /** The line that starts the list of changes. */
  predicate IsHeader(l: Line) { l.key == "changes" && l.value == "" }

  function ChangesAt(m: Manifest, i: nat): (j: nat)
    requires i <= |m|
    ensures i <= j <= |m| && (j < |m| ==> IsHeader(m[j])) && forall k :: i <= k < j ==> !IsHeader(m[k])
    decreases |m| - i
  {
    if i == |m| || IsHeader(m[i]) then i else ChangesAt(m, i + 1)
  }

  /** The field at `i` belongs to a change of the list at `c`, and is new in it. */
  predicate NewInChange(m: Manifest, c: nat, i: nat)
    requires i < |m|
  {
    exists j :: c < j < i && m[j].key == "- id" && forall k :: j < k < i ==> m[k].key != "- id" && m[k].key != m[i].key
  }

  /** The parser refuses repeated fields, a second list of changes, and fields of no change. */
  predicate WellFormed(m: Manifest) {
    var c := ChangesAt(m, 0);
    && (forall i, j :: 0 <= i < j < c ==> m[i].key != m[j].key)
    && (forall i :: c < i < |m| ==> FieldFits(m, c, i))
  }

  predicate FieldFits(m: Manifest, c: nat, i: nat)
    requires i < |m|
  {
    !IsHeader(m[i]) && m[i].key != "id" && (m[i].key == "- id" || NewInChange(m, c, i))
  }

  /** The parser strips lines, so it finds the stage at any column, but only before the list of changes. */
  predicate Stops(l: Line) { l.key == "stage" || IsHeader(l) }

  function NextStop(m: Manifest, i: nat): (j: nat)
    requires i <= |m|
    ensures i <= j <= |m| && (j < |m| ==> Stops(m[j])) && forall k :: i <= k < j ==> !Stops(m[k])
    decreases |m| - i
  {
    if i == |m| || Stops(m[i]) then i else NextStop(m, i + 1)
  }

  function StageNamed(name: string): (r: Option<Stage>)
    ensures forall k: Stage :: r == Some(k) <==> StageNames[k] == name
  {
    if name == "proposal" then Some(0) else if name == "design" then Some(1)
    else if name == "implementation" then Some(2) else if name == "testing" then Some(3)
    else if name == "acceptance" then Some(4) else None
  }

  /** The parsed stage; none if the manifest is refused, or the field is absent or not the name of a stage. */
  function ParseStage(m: Manifest): Option<Stage> {
    var p := NextStop(m, 0);
    if !WellFormed(m) || p == |m| || m[p].key != "stage" then None else StageNamed(m[p].value)
  }

  /** The completion checks know these fields of a change, and refuse any other. */
  predicate KnownFields(m: Manifest) {
    forall i :: ChangesAt(m, 0) < i < |m| ==>
      m[i].key in {"- id", "target_module", "changed_paths_file", "scope_paths"}
  }

  lemma KnownFieldNames(m: Manifest)
    ensures KnownFields(m) <==> forall i :: ChangesAt(m, 0) < i < |m| ==>
      m[i].key == "- id" || m[i].key == "target_module" || m[i].key == "changed_paths_file" || m[i].key == "scope_paths"
  {
  }

  /** The writer looks for lines that start with the key, wherever they are. */
  predicate StartsWithStage(l: Line) { l.column == 0 && l.key == "stage" }

  ghost predicate OnlyStart(m: Manifest, i: nat) {
    i < |m| && StartsWithStage(m[i]) && forall j :: 0 <= j < |m| && j != i ==> !StartsWithStage(m[j])
  }

  function CountStarts(m: Manifest): nat {
    if m == [] then 0 else CountStarts(m[..|m| - 1]) + if StartsWithStage(m[|m| - 1]) then 1 else 0
  }

  /** Every such line is replaced, and the file is written only if there was exactly one. */
  function WriteStage(m: Manifest, k: Stage): Option<Manifest> {
    if CountStarts(m) != 1 then None
    else Some(seq(|m|, i requires 0 <= i < |m| => if StartsWithStage(m[i]) then Line(0, "stage", StageNames[k]) else m[i]))
  }

  /** The line that is parsed is the only one that is rewritten. */
  ghost predicate Rewritable(m: Manifest) { OnlyStart(m, NextStop(m, 0)) }

  lemma {:induction false} CountZero(m: Manifest)
    ensures CountStarts(m) == 0 <==> forall j :: 0 <= j < |m| ==> !StartsWithStage(m[j])
  {
    if m != [] { CountZero(m[..|m| - 1]); }
  }

  lemma {:induction false} CountOne(m: Manifest)
    ensures CountStarts(m) == 1 <==> exists i :: OnlyStart(m, i)
  {
    if m != [] {
      var n := |m| - 1;
      CountZero(m[..n]);
      CountOne(m[..n]);
      if StartsWithStage(m[n]) {
        assert CountStarts(m) == 1 ==> OnlyStart(m, n);
      } else {
        forall i | OnlyStart(m[..n], i) ensures OnlyStart(m, i) {}
        forall i | OnlyStart(m, i) ensures OnlyStart(m[..n], i) {}
      }
    }
  }

  /** Writing another stage succeeds and is what the next command reads if and only if the parsed line is the
      only one that starts with the key. */
  lemma WriteReadsBack(m: Manifest, k: Stage)
    requires ParseStage(m).Some? && ParseStage(m) != Some(k)
    ensures WriteStage(m, k).Some? && ParseStage(WriteStage(m, k).value) == Some(k) <==> Rewritable(m)
    ensures WriteStage(m, k).Some? && !Rewritable(m) ==> ParseStage(WriteStage(m, k).value) == ParseStage(m)
  {
    CountOne(m);
    if CountStarts(m) == 1 {
      var i: nat :| OnlyStart(m, i);
      WriteChangesOne(m, k, i);
      RewrittenStage(m, i, k);
    }
  }

  lemma WriteChangesOne(m: Manifest, k: Stage, i: nat)
    requires OnlyStart(m, i) && CountStarts(m) == 1
    ensures WriteStage(m, k) == Some(m[i := Line(0, "stage", StageNames[k])])
  {
    assert WriteStage(m, k).value == m[i := Line(0, "stage", StageNames[k])];
  }

  /** Two manifests with the same keys in the same places. */
  ghost predicate SameKeys(m: Manifest, m': Manifest) {
    |m| == |m'| && forall j :: 0 <= j < |m| ==> m[j].key == m'[j].key && (IsHeader(m[j]) <==> IsHeader(m'[j]))
  }

  lemma {:induction false} SameStops(m: Manifest, m': Manifest, from: nat)
    requires SameKeys(m, m') && from <= |m|
    ensures NextStop(m', from) == NextStop(m, from) && ChangesAt(m', from) == ChangesAt(m, from)
    decreases |m| - from
  {
    if from < |m| { SameStops(m, m', from + 1); }
  }

  lemma SameChange(m: Manifest, m': Manifest, c: nat, i: nat)
    requires SameKeys(m, m') && i < |m| && NewInChange(m, c, i)
    ensures NewInChange(m', c, i)
  {
    var j :| c < j < i && m[j].key == "- id" && forall k :: j < k < i ==> m[k].key != "- id" && m[k].key != m[i].key;
    assert m'[j].key == "- id";
  }

  lemma StaysWellFormed(m: Manifest, m': Manifest)
    requires SameKeys(m, m') && WellFormed(m)
    ensures WellFormed(m')
  {
    SameStops(m, m', 0);
    var c := ChangesAt(m, 0);
    forall i | c < i < |m| ensures FieldFits(m', c, i) {
      assert FieldFits(m, c, i);
      if m[i].key != "- id" { SameChange(m, m', c, i); }
    }
  }

  /** Rewriting a line that starts with the key changes the parsed stage exactly if it is the parsed line. */
  lemma RewrittenStage(m: Manifest, i: nat, k: Stage)
    requires ParseStage(m).Some? && i < |m| && StartsWithStage(m[i])
    ensures ParseStage(m[i := Line(0, "stage", StageNames[k])]) == if i == NextStop(m, 0) then Some(k) else ParseStage(m)
  {
    var m' := m[i := Line(0, "stage", StageNames[k])];
    StaysWellFormed(m, m');
    SameStops(m, m', 0);
  }

  /** The parsed line starts with its key. */
  ghost predicate AtStart(m: Manifest) { NextStop(m, 0) < |m| && m[NextStop(m, 0)].column == 0 }

  /** In a manifest that the completion checks let through, nothing but the column of the stage line matters. */
  lemma CheckedIsRewritable(m: Manifest)
    requires ParseStage(m).Some? && KnownFields(m)
    ensures Rewritable(m) <==> AtStart(m)
  {
    var p, c := NextStop(m, 0), ChangesAt(m, 0);
    if AtStart(m) {
      forall j | 0 <= j < |m| && j != p ensures !StartsWithStage(m[j]) {
        assert j > c ==> m[j].key in {"- id", "target_module", "changed_paths_file", "scope_paths"};
        assert j < c && p < c ==> m[j].key != m[p].key;
      }
    }
  }

  // ---------------------------------------------------------------- the parser's loop

  /** The fields of the change being read: those since the last id, and the id itself. */
  ghost predicate Collects(m: Manifest, c: nat, n: nat, current: Option<set<string>>)
    requires n <= |m|
  {
    match current
    case None => forall j :: c < j < n ==> m[j].key != "- id"
    case Some(keys) => exists j :: c < j < n && CollectsFrom(m, j, n, keys)
  }

  ghost predicate CollectsFrom(m: Manifest, j: nat, n: nat, keys: set<string>)
    requires j < n <= |m|
  {
    && m[j].key == "- id" && (forall k :: j < k < n ==> m[k].key != "- id")
    && (forall x :: x in keys <==> x == "id" || exists k :: j < k < n && m[k].key == x)
  }

  lemma CollectsFirst(m: Manifest, c: nat, n: nat)
    requires c < n < |m| && m[n].key == "- id"
    ensures Collects(m, c, n + 1, Some({"id"}))
  {
    assert CollectsFrom(m, n, n + 1, {"id"});
  }

  lemma CollectsNext(m: Manifest, c: nat, n: nat, keys: set<string>)
    requires c < n < |m| && Collects(m, c, n, Some(keys)) && m[n].key != "- id"
    ensures Collects(m, c, n + 1, Some(keys + {m[n].key}))
    ensures m[n].key in keys <==> m[n].key == "id" || !NewInChange(m, c, n)
  {
    var j :| c < j < n && CollectsFrom(m, j, n, keys);
    assert CollectsFrom(m, j, n + 1, keys + {m[n].key});
    if NewInChange(m, c, n) {
      var l :| c < l < n && m[l].key == "- id" && forall k :: l < k < n ==> m[k].key != "- id" && m[k].key != m[n].key;
      assert l == j;
    }
  }

  /** The top-level fields read so far. */
  ghost predicate Holds(m: Manifest, n: nat, task: map<string, string>)
    requires n <= |m|
  {
    && (forall i, j :: 0 <= i < j < n ==> m[i].key != m[j].key)
    && (forall i :: 0 <= i < n ==> m[i].key in task && task[m[i].key] == m[i].value)
    && (forall x :: x in task ==> exists i :: 0 <= i < n && m[i].key == x)
  }

  lemma FirstStop(m: Manifest, i: nat)
    requires i < |m| && Stops(m[i])
    ensures NextStop(m, 0) <= i
  {
  }

  lemma StageHeld(m: Manifest, c: nat, task: map<string, string>)
    requires c == ChangesAt(m, 0) && Holds(m, c, task) && WellFormed(m)
    ensures ParseStage(m) == if "stage" in task then StageNamed(task["stage"]) else None
  {
    var p := NextStop(m, 0);
    if c < |m| { FirstStop(m, c); }
    if "stage" in task {
      var i :| 0 <= i < c && m[i].key == "stage";
      FirstStop(m, i);
      assert m[p].key == "stage" && p == i;
    }
  }

  /** The state of the loop before line `n`. */
  ghost predicate Parsing(m: Manifest, n: nat, inChanges: bool, task: map<string, string>, current: Option<set<string>>) {
    var c := ChangesAt(m, 0);
    && n <= |m| && (inChanges <==> c < n) && Holds(m, Min(n, c), task)
    && (forall i :: c < i < n ==> FieldFits(m, c, i)) && Collects(m, c, n, current)
  }

  lemma ParsedHeader(m: Manifest, n: nat, inChanges: bool, task: map<string, string>, current: Option<set<string>>)
    requires Parsing(m, n, inChanges, task, current) && n < |m| && IsHeader(m[n])
    ensures if inChanges then !WellFormed(m) else Parsing(m, n + 1, true, task, None)
  {
    if inChanges { assert !FieldFits(m, ChangesAt(m, 0), n); }
  }

  lemma ParsedField(m: Manifest, n: nat, task: map<string, string>, current: Option<set<string>>)
    requires Parsing(m, n, false, task, current) && n < |m| && !IsHeader(m[n])
    ensures if m[n].key in task then !WellFormed(m) else Parsing(m, n + 1, false, task[m[n].key := m[n].value], current)
  {
    assert n < ChangesAt(m, 0);
    if m[n].key in task {
      var i :| 0 <= i < n && m[i].key == m[n].key;
    } else {
      HoldsNext(m, n, task);
    }
  }

  lemma HoldsNext(m: Manifest, n: nat, task: map<string, string>)
    requires n < |m| && Holds(m, n, task) && m[n].key !in task
    ensures Holds(m, n + 1, task[m[n].key := m[n].value])
  {
    var task' := task[m[n].key := m[n].value];
    forall x | x in task' ensures exists i :: 0 <= i < n + 1 && m[i].key == x {
      if x in task { var i :| 0 <= i < n && m[i].key == x; }
    }
  }

  lemma ParsedId(m: Manifest, n: nat, task: map<string, string>, current: Option<set<string>>)
    requires Parsing(m, n, true, task, current) && n < |m| && m[n].key == "- id" && !IsHeader(m[n])
    ensures Parsing(m, n + 1, true, task, Some({"id"}))
  {
    CollectsFirst(m, ChangesAt(m, 0), n);
  }

  lemma ParsedChangeField(m: Manifest, n: nat, task: map<string, string>, current: Option<set<string>>)
    requires Parsing(m, n, true, task, current) && n < |m| && m[n].key != "- id" && !IsHeader(m[n])
    ensures if current.None? || m[n].key in current.value then !WellFormed(m)
      else Parsing(m, n + 1, true, task, Some(current.value + {m[n].key}))
  {
    var c := ChangesAt(m, 0);
    if current.Some? { CollectsNext(m, c, n, current.value); }
    assert current.None? || m[n].key in current.value ==> !FieldFits(m, c, n);
  }

  lemma ParsedAll(m: Manifest, inChanges: bool, task: map<string, string>, current: Option<set<string>>)
    requires Parsing(m, |m|, inChanges, task, current)
    ensures WellFormed(m) && ParseStage(m) == if "stage" in task then StageNamed(task["stage"]) else None
  {
    StageHeld(m, ChangesAt(m, 0), task);
  }

  /** The loop over the lines: which manifests it refuses, and what it finds as the stage of the others. */
  method ParseTaskManifest(m: Manifest) returns (parsed: Option<map<string, string>>)
    ensures parsed.Some? <==> WellFormed(m)
    ensures parsed.Some? ==>
      ParseStage(m) == if "stage" in parsed.value then StageNamed(parsed.value["stage"]) else None
  {
    var task: map<string, string>, current: Option<set<string>> := map[], None;
    var inChanges, n := false, 0;
    while n < |m|
      invariant Parsing(m, n, inChanges, task, current)
    {
      var line := m[n];
      if line.key == "changes" && line.value == "" {
        ParsedHeader(m, n, inChanges, task, current);
        if inChanges { return None; }
        inChanges, current := true, None;
      } else if !inChanges {
        ParsedField(m, n, task, current);
        if line.key in task { return None; }
        task := task[line.key := line.value];
      } else if line.key == "- id" {
        ParsedId(m, n, task, current);
        current := Some({"id"});
      } else {
        ParsedChangeField(m, n, task, current);
        if current.None? || line.key in current.value { return None; }
        current := Some(current.value + {line.key});
      }
      n := n + 1;
    }
    ParsedAll(m, inChanges, task, current);
    parsed := Some(task);
  }

  // ---------------------------------------------------------------- runs

  /** What a receipt was made from. */
  datatype Snapshot = Snapshot(task: Task, files: Files, run: Option<Path>)

  /** The repository, the manifest that holds the stage, the receipts, and for each what it was made from. */
  datatype State = State(task: Task, files: Files, manifest: Manifest, receipts: Receipts, made: map<Stage, Snapshot>)

  /** `checked` is the answer of the completion checks, apart from their look at the fields of the changes; edits
      happen at any time. */
  datatype Event =
    | Advance(checked: bool, run: Option<Path>)
    | Complete(accepted: bool, checked: bool)
    | Return(to: Stage)
    | Edit(task: Task, files: Files, manifest: Manifest)

  /** Edits may move the stage line around, but leave its value to the commands. */
  predicate Enabled(s: State, e: Event) {
    e.Edit? ==> ParseStage(e.manifest) == ParseStage(s.manifest)
  }

  function RecordCurrent(h: Hash, s: State, k: Stage, run: Option<Path>): Option<State> {
    var r := Payload(h, s.task, s.files, run, k);
    if r.None? then None
    else
      var rs := Record(s.receipts, k, r.value);
      if rs.None? then None
      else Some(s.(receipts := rs.value, made := s.made[k := Snapshot(s.task, s.files, run)]))
  }

  /** Writing the stage comes last: when it fails the receipts have been written. */
  function MoveTo(s: State, k: Stage): State {
    var m := WriteStage(s.manifest, k);
    if m.None? then s else s.(manifest := m.value)
  }

  function Step(h: Hash, s: State, e: Event): State {
    var stage := ParseStage(s.manifest);
    if e.Edit? then s.(task := e.task, files := e.files, manifest := e.manifest)
    else if stage.None? then s
    else
      var k := stage.value;
      match e
      case Advance(checked, run) =>
        if k == ACCEPTANCE || !KnownFields(s.manifest) || !checked then s
        else
          var s' := RecordCurrent(h, s, k, run);
          if s'.None? then s else MoveTo(s'.value, k + 1)
      case Complete(accepted, checked) =>
        if k != ACCEPTANCE || !accepted || !KnownFields(s.manifest) || !checked then s
        else
          var s' := RecordCurrent(h, s, k, None);
          if s'.None? then s else s'.value
      case Return(to) =>
        if k != ACCEPTANCE || !(1 <= to <= 3) then s else MoveTo(s.(receipts := Before(s.receipts, to)), to)
  }

  /** An edit replaces the task, the files and the manifest, and leaves the receipts. */
  lemma EditReplaces(h: Hash, s: State, task: Task, files: Files, manifest: Manifest)
    ensures Step(h, s, Edit(task, files, manifest)) == State(task, files, manifest, s.receipts, s.made)
  {
  }

  ghost predicate IsRun(h: Hash, states: seq<State>, events: seq<Event>) {
    && |states| == |events| + 1 && ParseStage(states[0].manifest) == Some(0) && states[0].receipts == map[]
    && forall i :: 0 <= i < |events| ==> Enabled(states[i], events[i]) && states[i + 1] == Step(h, states[i], events[i])
  }

  // ---------------------------------------------------------------- every receipt is honest

  /** Every receipt is what its snapshot gave. */
  ghost predicate Honest(h: Hash, s: State) {
    forall k: Stage :: k in s.receipts ==>
      k in s.made && Payload(h, s.made[k].task, s.made[k].files, s.made[k].run, k) == Some(s.receipts[k])
  }

  lemma RecordHonest(h: Hash, s: State, k: Stage, run: Option<Path>)
    requires Honest(h, s)
    ensures RecordCurrent(h, s, k, run).Some? ==> Honest(h, RecordCurrent(h, s, k, run).value)
  {
  }

  lemma StepHonest(h: Hash, s: State, e: Event)
    requires Honest(h, s)
    ensures Honest(h, Step(h, s, e))
  {
    var stage := ParseStage(s.manifest);
    if stage.Some? && e.Advance? { RecordHonest(h, s, stage.value, e.run); }
    if stage.Some? && e.Complete? { RecordHonest(h, s, stage.value, None); }
  }

  lemma {:induction false} RunHonest(h: Hash, states: seq<State>, events: seq<Event>, i: nat)
    requires IsRun(h, states, events) && i <= |events|
    ensures Honest(h, states[i])
  {
    if i > 0 {
      RunHonest(h, states, events, i - 1);
      assert states[i - 1 + 1] == Step(h, states[i - 1], events[i - 1]);
      StepHonest(h, states[i - 1], events[i - 1]);
    }
  }

  // ---------------------------------------------------------------- receipts and stage move together

  ghost predicate HasUpTo(rs: Receipts, n: int) { forall k: Stage :: k in rs <==> k < n }

  /** The receipts are those of the stages before the current one, or all of them in acceptance. */
  ghost predicate InOrder(s: State) {
    var stage := ParseStage(s.manifest);
    && stage.Some?
    && (HasUpTo(s.receipts, stage.value) || (stage.value == ACCEPTANCE && HasUpTo(s.receipts, 5)))
  }

  /** The command gets as far as writing the stage. */
  ghost predicate WritesStage(h: Hash, s: State, e: Event) {
    var stage := ParseStage(s.manifest);
    && stage.Some?
    && match e
       case Advance(checked, run) =>
         stage.value != ACCEPTANCE && KnownFields(s.manifest) && checked && RecordCurrent(h, s, stage.value, run).Some?
       case Return(to) => stage.value == ACCEPTANCE && 1 <= to <= 3
       case _ => false
  }

  lemma RecordInOrder(h: Hash, s: State, k: Stage, run: Option<Path>)
    requires InOrder(s) && ParseStage(s.manifest) == Some(k)
    ensures RecordCurrent(h, s, k, run).Some? <==> Payload(h, s.task, s.files, run, k).Some?
    ensures RecordCurrent(h, s, k, run).Some? ==> HasUpTo(RecordCurrent(h, s, k, run).value.receipts, k + 1)
    ensures RecordCurrent(h, s, k, run).Some? ==> RecordCurrent(h, s, k, run).value.manifest == s.manifest
  {
  }

  /** The line that is parsed will be rewritten. An advance gets this far only with changes whose fields are known,
      so that it is a matter of the column alone; a return looks at no change. */
  ghost predicate CanMove(m: Manifest, e: Event) { if e.Advance? then AtStart(m) else Rewritable(m) }

  /** An advance that gets as far as writing the stage has stored its receipt; the stage follows if and only if its
      line is not indented. */
  lemma AdvanceMoves(h: Hash, s: State, run: Option<Path>)
    requires InOrder(s) && WritesStage(h, s, Advance(true, run))
    ensures var s' := Step(h, s, Advance(true, run)); var k := ParseStage(s.manifest).value;
      && HasUpTo(s'.receipts, k + 1)
      && ParseStage(s'.manifest) == if AtStart(s.manifest) then Some(k + 1) else Some(k)
  {
    var k := ParseStage(s.manifest).value;
    RecordInOrder(h, s, k, run);
    CheckedIsRewritable(s.manifest);
    WriteReadsBack(s.manifest, k + 1);
  }

  lemma ReturnMoves(h: Hash, s: State, to: Stage)
    requires InOrder(s) && WritesStage(h, s, Return(to))
    ensures var s' := Step(h, s, Return(to));
      && HasUpTo(s'.receipts, to)
      && ParseStage(s'.manifest) == if Rewritable(s.manifest) then Some(to) else Some(ACCEPTANCE)
  {
    WriteReadsBack(s.manifest, to);
  }

  lemma UpToDiffers(rs: Receipts, m: int, n: int)
    requires HasUpTo(rs, m) && m != n && 0 <= m <= 5 && 0 <= n <= 5
    ensures !HasUpTo(rs, n)
  {
    var k: Stage := if m < n then m else n;
    assert k in rs <==> n < m;
  }

  /** A step keeps receipts and stage in order if and only if it is not an advance over an indented stage line, nor a
      return over a stage line that is not the one to be rewritten. */
  lemma StepInOrder(h: Hash, s: State, e: Event)
    requires InOrder(s) && Enabled(s, e)
    ensures InOrder(Step(h, s, e)) <==> (WritesStage(h, s, e) ==> CanMove(s.manifest, e))
  {
    var k := ParseStage(s.manifest).value;
    var s' := Step(h, s, e);
    if WritesStage(h, s, e) {
      if e.Advance? {
        AdvanceMoves(h, s, e.run);
        UpToDiffers(s'.receipts, k + 1, k);
      } else {
        ReturnMoves(h, s, e.to);
        UpToDiffers(s'.receipts, e.to, 4);
        UpToDiffers(s'.receipts, e.to, 5);
      }
    } else if e.Complete? {
      RecordInOrder(h, s, k, None);
    }
  }

  /** A run up to position `n` is in order throughout if and only if no advance in it gets to write an indented stage
      line, and no return one that is not the one to be rewritten. */
  lemma {:induction false} ReceiptsInOrder(h: Hash, states: seq<State>, events: seq<Event>, n: nat)
    requires IsRun(h, states, events) && n <= |events|
    ensures (forall i :: 0 <= i <= n ==> InOrder(states[i])) <==>
      forall i :: 0 <= i < n && WritesStage(h, states[i], events[i]) ==> CanMove(states[i].manifest, events[i])
  {
    if n > 0 {
      ReceiptsInOrder(h, states, events, n - 1);
      assert Enabled(states[n - 1], events[n - 1]) && states[n - 1 + 1] == Step(h, states[n - 1], events[n - 1]);
      if InOrder(states[n - 1]) { StepInOrder(h, states[n - 1], events[n - 1]); }
    }
  }

  /** In an ordered state the check for missing prior receipts never fires: when all checks pass the stage advances if
      and only if its inputs are there and its line is not indented. */
  lemma AdvanceExactly(h: Hash, s: State, run: Option<Path>)
    requires InOrder(s) && ParseStage(s.manifest) != Some(ACCEPTANCE)
    ensures var k := ParseStage(s.manifest).value; var s' := Step(h, s, Advance(true, run));
      var recorded := KnownFields(s.manifest) && Payload(h, s.task, s.files, run, k).Some?;
      && (ParseStage(s'.manifest) == Some(k + 1) <==> recorded && AtStart(s.manifest))
      && (if recorded then HasUpTo(s'.receipts, k + 1) else s' == s)
  {
    var k := ParseStage(s.manifest).value;
    RecordInOrder(h, s, k, run);
    if KnownFields(s.manifest) && Payload(h, s.task, s.files, run, k).Some? { AdvanceMoves(h, s, run); }
  }

  /** Completing: only in acceptance, with an accepted report and passed checks, and the inputs of acceptance there, a
      receipt is stored, and then all five are; the stage stays. Otherwise nothing changes. */
  lemma CompleteExactly(h: Hash, s: State, accepted: bool, checked: bool)
    requires InOrder(s)
    ensures var s' := Step(h, s, Complete(accepted, checked));
      var recorded := ParseStage(s.manifest) == Some(4) && accepted && checked && KnownFields(s.manifest)
        && InputsPresent(s.task, s.files, 4);
      && (recorded ==> HasUpTo(s'.receipts, 5) && s'.receipts[4].binding == h(s.task.bound) && s'.manifest == s.manifest)
      && (recorded ==> forall k: Stage :: k < 4 ==> s'.receipts[k] == s.receipts[k])
      && (!recorded ==> s' == s)
  {
    var k := ParseStage(s.manifest).value;
    RecordInOrder(h, s, k, None);
  }

  /** What a receipt holds: the schema 2, the digests of the bound text and of every artifact of the stage, and for testing
      the path and the digest of the test run. It is there exactly if the artifacts are, and for testing the run. */
  lemma ReceiptMeaning(h: Hash, task: Task, files: Files, run: Option<Path>, k: Stage)
    ensures Payload(h, task, files, run, k).Some? <==>
      && k in task.artifacts && (forall p :: p in task.artifacts[k] ==> p in files)
      && (k == 3 ==> run.Some? && run.value in files)
    ensures Payload(h, task, files, run, k).Some? ==> var r := Payload(h, task, files, run, k).value;
      && r.schema == Some(2) && r.binding == h(task.bound)
      && (forall p :: p in r.inputs <==> p in task.artifacts[k])
      && (forall p :: p in r.inputs ==> p in files && r.inputs[p] == h(files[p]))
      && r.testRun == if k == 3 then Some(TestRun(run.value, h(files[run.value]))) else None
  {
  }

  /** Which bindings are accepted: the current one under schema 2, the legacy one without a schema, and no other. */
  lemma BindingMeaning(h: Hash, task: Task, r: Receipt)
    ensures BindingHolds(h, task, r) <==>
      match r.schema
      case None => r.binding == h(task.legacyBound)
      case Some(n) => n == 2 && r.binding == h(task.bound)
  {
  }

  // ---------------------------------------------------------------- runs that reach acceptance

  /** Everything the stages before acceptance need is there, and the stage line can be rewritten. */
  ghost predicate Prepared(s: State, run: Path) {
    && (forall k: Stage :: k < ACCEPTANCE ==> InputsPresent(s.task, s.files, k)) && run in s.files
    && ParseStage(s.manifest).Some? && KnownFields(s.manifest) && AtStart(s.manifest)
  }

  lemma AdvancePrepared(h: Hash, s: State, run: Path)
    requires InOrder(s) && Prepared(s, run) && ParseStage(s.manifest) != Some(ACCEPTANCE)
    ensures var s' := Step(h, s, Advance(true, Some(run)));
      && InOrder(s') && Prepared(s', run) && ParseStage(s'.manifest) == Some(ParseStage(s.manifest).value + 1)
  {
    RecordInOrder(h, s, ParseStage(s.manifest).value, Some(run));
    AdvanceMoves(h, s, Some(run));
    StaysChecked(s.manifest, ParseStage(s.manifest).value + 1);
  }

  lemma StaysChecked(m: Manifest, k: Stage)
    requires ParseStage(m).Some? && KnownFields(m) && AtStart(m)
    ensures WriteStage(m, k).Some? && KnownFields(WriteStage(m, k).value) && AtStart(WriteStage(m, k).value)
  {
    CheckedIsRewritable(m);
    var p := NextStop(m, 0);
    assert OnlyStart(m, p);
    CountOne(m);
    WriteChangesOne(m, k, p);
    SameStops(m, m[p := Line(0, "stage", StageNames[k])], 0);
  }

  lemma OneMore(h: Hash, states: seq<State>, events: seq<Event>, e: Event)
    requires IsRun(h, states, events) && Enabled(states[|events|], e)
    ensures IsRun(h, states + [Step(h, states[|events|], e)], events + [e])
  {
  }

  /** From every prepared beginning, as many advances as there are stages before acceptance lead there, in order. */
  lemma {:induction false} ReachesAcceptance(h: Hash, s: State, run: Path, n: nat)
    returns (states: seq<State>, events: seq<Event>)
    requires Prepared(s, run) && ParseStage(s.manifest) == Some(0) && s.receipts == map[] && n <= ACCEPTANCE
    ensures IsRun(h, states, events) && |events| == n && states[0] == s
    ensures InOrder(states[n]) && Prepared(states[n], run) && ParseStage(states[n].manifest) == Some(n)
  {
    if n == 0 {
      states, events := [s], [];
    } else {
      states, events := ReachesAcceptance(h, s, run, n - 1);
      var e := Advance(true, Some(run));
      AdvancePrepared(h, states[n - 1], run);
      OneMore(h, states, events, e);
      states, events := states + [Step(h, states[n - 1], e)], events + [e];
    }
  }

  // ---------------------------------------------------------------- manifests that break the order

  /** An indented stage line is parsed but never rewritten. */
  const Indented: Manifest := [Line(2, "stage", "proposal")]

  lemma IndentedIsNotRewritten()
    ensures ParseStage(Indented) == Some(0) && KnownFields(Indented) && WriteStage(Indented, 1).None?
  {
    assert NextStop(Indented, 0) == 0 && ChangesAt(Indented, 0) == 1;
    CountZero(Indented);
  }

  /** A repository with a proposal and nothing recorded. */
  function Beginning(m: Manifest, bound: Content, legacy: Content): State {
    State(Task(bound, legacy, map[0 := ["proposal.md"]]), map["proposal.md" := "text"], m, map[], map[])
  }

  /** With that manifest the first advance stores the receipt of the proposal and leaves the stage: the run is out of
      order. */
  lemma AdvanceWithoutMoving(h: Hash, bound: Content, legacy: Content)
    ensures var s := Beginning(Indented, bound, legacy);
      var s' := Step(h, s, Advance(true, None));
      && IsRun(h, [s, s'], [Advance(true, None)]) && InOrder(s)
      && HasUpTo(s'.receipts, 1) && ParseStage(s'.manifest) == Some(0) && !InOrder(s')
  {
    var s := Beginning(Indented, bound, legacy);
    IndentedIsNotRewritten();
    AdvanceMoves(h, s, None);
    StepInOrder(h, s, Advance(true, None));
  }

  /** Behind an indented stage line, a field of a change that starts a line is rewritten in its place. */
  const Decoy: Manifest :=
    [Line(2, "stage", "acceptance"), Line(0, "changes", ""), Line(2, "- id", "C1"), Line(0, "stage", "later")]

  lemma DecoyIsWellFormed()
    ensures NextStop(Decoy, 0) == 0 && ChangesAt(Decoy, 0) == 1 && WellFormed(Decoy)
  {
    assert NextStop(Decoy, 0) == 0 && ChangesAt(Decoy, 1) == 1 && ChangesAt(Decoy, 0) == 1;
    assert Decoy[2].key == "- id";
    assert NewInChange(Decoy, 1, 3);
  }

  lemma DecoyIsRewritten(to: Stage)
    requires to != ACCEPTANCE
    ensures ParseStage(Decoy) == Some(ACCEPTANCE) && !Rewritable(Decoy) && !KnownFields(Decoy)
    ensures WriteStage(Decoy, to).Some? && ParseStage(WriteStage(Decoy, to).value) == Some(ACCEPTANCE)
  {
    DecoyIsWellFormed();
    assert Decoy[3].key == "stage";
    CountOne(Decoy);
    assert OnlyStart(Decoy, 3);
    WriteReadsBack(Decoy, to);
  }

  /** A return runs no completion check. With that manifest it cuts the receipts, rewrites the wrong line without an
      error, and leaves the stage in acceptance: from every ordered state in acceptance the run gets out of order. */
  lemma ReturnWithoutMoving(h: Hash, s: State, to: Stage)
    requires InOrder(s) && ParseStage(s.manifest) == Some(ACCEPTANCE) && 1 <= to <= 3
    ensures var edit := Edit(s.task, s.files, Decoy);
      var s1 := Step(h, s, edit);
      var s2 := Step(h, s1, Return(to));
      && Enabled(s, edit) && InOrder(s1) && WriteStage(s1.manifest, to).Some?
      && HasUpTo(s2.receipts, to) && ParseStage(s2.manifest) == Some(ACCEPTANCE) && !InOrder(s2)
  {
    DecoyIsRewritten(to);
    var s1 := Step(h, s, Edit(s.task, s.files, Decoy));
    ReturnMoves(h, s1, to);
    StepInOrder(h, s1, Return(to));
  }

  // ---------------------------------------------------------------- what a passed check proves

  ghost predicate CollisionFree(h: Hash) { forall a, b :: h(a) == h(b) ==> a == b }

  ghost predicate SameTestRun(was: Snapshot, files: Files) {
    && was.run.Some? && was.run.value in was.files && was.run.value in files
    && was.files[was.run.value] == files[was.run.value]
  }

  /** Since the snapshot neither the bound manifest text nor an input of the stage has changed. */
  ghost predicate Unchanged(was: Snapshot, task: Task, files: Files, k: Stage) {
    && was.task.bound == task.bound
    && InputsPresent(was.task, was.files, k) && InputsPresent(task, files, k)
    && (forall p :: p in was.task.artifacts[k] <==> p in task.artifacts[k])
    && (forall p :: p in was.task.artifacts[k] ==> was.files[p] == files[p])
    && (k == TESTING ==> SameTestRun(was, files))
  }

  lemma SameDigests(h: Hash, a: Task, fa: Files, b: Task, fb: Files, k: Stage)
    requires CollisionFree(h) && InputsPresent(a, fa, k) && InputsPresent(b, fb, k)
    ensures Digests(h, a, fa, k) == Digests(h, b, fb, k) <==>
      && (forall p :: p in a.artifacts[k] <==> p in b.artifacts[k])
      && (forall p :: p in a.artifacts[k] && p in b.artifacts[k] ==> fa[p] == fb[p])
  {
    var x, y := Digests(h, a, fa, k), Digests(h, b, fb, k);
    if x == y {
      forall p ensures p in a.artifacts[k] <==> p in b.artifacts[k] {
        assert (p in x <==> p in a.artifacts[k]) && (p in y <==> p in b.artifacts[k]);
      }
      forall p | p in a.artifacts[k] && p in b.artifacts[k] ensures fa[p] == fb[p] {
        assert x[p] == h(fa[p]) && y[p] == h(fb[p]);
      }
    }
  }

  lemma StageVerifies(h: Hash, was: Snapshot, r: Receipt, task: Task, files: Files, k: Stage)
    requires CollisionFree(h) && Payload(h, was.task, was.files, was.run, k) == Some(r)
    ensures BindingHolds(h, task, r) && EvidenceHolds(h, task, files, k, r) <==> Unchanged(was, task, files, k)
  {
    if InputsPresent(task, files, k) { SameDigests(h, was.task, was.files, task, files, k); }
  }

  /** With a collision-free hash the check passes, in any state of any run, exactly when every required stage has
      been recorded and nothing it was recorded from has changed since. */
  lemma VerifyMeansUnchanged(h: Hash, states: seq<State>, events: seq<Event>, i: nat, limit: nat)
    requires CollisionFree(h) && IsRun(h, states, events) && i <= |events|
    ensures var s := states[i];
      Verify(h, s.task, s.files, s.receipts, limit) <==>
        forall k: Stage :: k < limit ==> k in s.receipts && k in s.made && Unchanged(s.made[k], s.task, s.files, k)
  {
    RunHonest(h, states, events, i);
    var s := states[i];
    forall k: Stage | k in s.receipts
      ensures k in s.made
      ensures BindingHolds(h, s.task, s.receipts[k]) && EvidenceHolds(h, s.task, s.files, k, s.receipts[k])
        <==> Unchanged(s.made[k], s.task, s.files, k)
    {
      StageVerifies(h, s.made[k], s.receipts[k], s.task, s.files, k);
    }
  }

  // ---------------------------------------------------------------- the stored receipts

  class LifecycleState {
    var stages: Receipts

    method ClearFrom(k: Stage)
      modifies this
      ensures stages == Before(old(stages), k)
      ensures forall x: Stage :: x in stages <==> x in old(stages) && x < k
      ensures forall x: Stage :: x in stages ==> stages[x] == old(stages)[x]
    {
      var name: int := k;
      while name < 5
        invariant k <= name <= 5
        invariant stages == map x | x in old(stages) && !(k <= x < name) :: old(stages)[x]
      {
        stages := stages - {name};
        name := name + 1;
      }
    }

    method RecordStage(k: Stage, r: Receipt) returns (ok: bool)
      modifies this
      ensures ok <==> Record(old(stages), k, r).Some?
      ensures stages == if ok then Record(old(stages), k, r).value else old(stages)
      ensures ok <==> forall x: Stage :: x < k ==> x in old(stages)
      ensures ok ==> forall x: Stage :: x in stages <==> x <= k
      ensures ok ==> stages[k] == r && forall x: Stage :: x < k ==> stages[x] == old(stages)[x]
    {
      var prior := 0;
      while prior < k
        invariant 0 <= prior <= k && stages == old(stages)
        invariant forall x: Stage :: x < prior ==> x in stages
      {
        if prior !in stages { return false; }
        prior := prior + 1;
      }
      stages := stages[k := r];
      if k < ACCEPTANCE { ClearFrom(k + 1); }
      ok := true;
    }
  }
}
