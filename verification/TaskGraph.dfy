/** Task graph of a pipeline plan: its dependency relation and the depth-first cycle check. */
module TaskGraph {
  import opened Wrappers

  type Id = string

  /** `rank` orders the stages; no parent means the root. */
  datatype Task = Task(rank: nat, automatic: bool, parent: Option<Id>, depends: seq<Id>)

  type Graph = map<Id, Task>

  predicate Edge(g: Graph, a: Id, b: Id) { a in g && b in g[a].depends }

  /** Each task of `p` depends on the next one. */
  ghost predicate Chain(g: Graph, p: seq<Id>) { forall k :: 0 <= k < |p| - 1 ==> Edge(g, p[k], p[k + 1]) }

  /** `b` is a transitive dependency of `a`. */
  ghost predicate Needs(g: Graph, a: Id, b: Id) {
    exists p: seq<Id> :: |p| >= 2 && Chain(g, p) && p[0] == a && p[|p| - 1] == b
  }

  ghost predicate Acyclic(g: Graph) { forall a :: !Needs(g, a, a) }

  ghost predicate Closed(g: Graph) { forall a, b :: Edge(g, a, b) ==> b in g }

  // ---------------------------------------------------------------- orders and cycles

  /** Every task of `order` is new in it, and comes after its dependencies. */
  ghost predicate Topological(g: Graph, order: seq<Id>) {
    && (forall i, j :: 0 <= i < j < |order| ==> order[i] != order[j])
    && (forall i, d :: 0 <= i < |order| && Edge(g, order[i], d) ==> d in order[..i])
  }

  lemma {:induction false} NeededEarlier(g: Graph, order: seq<Id>, p: seq<Id>, i: nat)
    requires Topological(g, order) && Chain(g, p) && |p| >= 2 && i < |order| && p[0] == order[i]
    ensures p[|p| - 1] in order[..i]
    decreases |p|
  {
    assert Edge(g, p[0], p[1]);
    if |p| > 2 {
      var j :| 0 <= j < i && order[j] == p[1];
      NeededEarlier(g, order, p[1..], j);
      assert order[..j] == order[..i][..j];
    }
  }

  /** A topological order of all tasks. */
  ghost predicate Sorts(g: Graph, order: seq<Id>) {
    Topological(g, order) && (forall a :: a in g ==> a in order) && (forall a :: a in order ==> a in g)
  }

  lemma TopologicalIsAcyclic(g: Graph, order: seq<Id>)
    requires Sorts(g, order)
    ensures Acyclic(g)
  {
    forall a | Needs(g, a, a) ensures false {
      var p: seq<Id> :| |p| >= 2 && Chain(g, p) && p[0] == a && p[|p| - 1] == a;
      assert Edge(g, p[0], p[1]);
      var i :| 0 <= i < |order| && order[i] == a;
      NeededEarlier(g, order, p, i);
    }
  }

  /** The chain printed with a failure: its last task occurs in it before. */
  ghost predicate ShowsCycle(g: Graph, p: seq<Id>) {
    Chain(g, p) && |p| >= 1 && p[|p| - 1] in p[..|p| - 1]
  }

  lemma ShownCycle(g: Graph, p: seq<Id>)
    requires ShowsCycle(g, p)
    ensures !Acyclic(g)
  {
    var k :| 0 <= k < |p| - 1 && p[k] == p[|p| - 1];
    var q := p[k..];
    assert Chain(g, q) && q[0] == q[|q| - 1];
    assert Needs(g, p[k], p[k]);
  }

  // ---------------------------------------------------------------- the walk

  function Elements(s: seq<Id>): set<Id> { set x | x in s }

  class DependencyWalk {
    const g: Graph
    var visiting: set<Id>
    var visited: set<Id>
    ghost var order: seq<Id>

    ghost predicate Valid()
      reads this
    {
      && visiting <= g.Keys && visited <= g.Keys && visiting !! visited
      && Elements(order) == visited && Topological(g, order)
    }

    constructor (g: Graph)
      ensures this.g == g && Valid() && visiting == {} && visited == {}
    {
      this.g := g;
      visiting, visited, order := {}, {}, [];
    }

    /** A visited task joins the order after its dependencies. */
    ghost method Finish(id: Id)
      requires visiting <= g.Keys && visited <= g.Keys && visiting !! visited
      requires Elements(order) == visited - {id} && Topological(g, order)
      requires id in visited && forall d :: Edge(g, id, d) ==> d in visited - {id}
      modifies this`order
      ensures Valid()
    {
      forall d | Edge(g, id, d) ensures d in order { assert d in Elements(order); }
      assert id !in order by { assert id !in Elements(order); }
      var was := order;
      order := order + [id];
      assert Elements(order) == Elements(was) + {id};
      forall i, d | 0 <= i < |order| && Edge(g, order[i], d) ensures d in order[..i] {
        if i < |was| { assert order[..i] == was[..i]; } else { assert order[..i] == was; }
      }
    }

    /** `stack` is the chain of tasks being visited. Without a cycle below `id` it ends up visited and
        nothing else is left open; otherwise a chain that shows the cycle comes back. */
    method Visit(id: Id, stack: seq<Id>) returns (cycle: Option<seq<Id>>)
      requires Valid() && Closed(g) && id in g
      requires visiting == Elements(stack) && Chain(g, stack + [id])
      modifies this
      ensures cycle.None? ==> Valid() && visiting == old(visiting) && visited >= old(visited) + {id}
      ensures cycle.Some? ==> ShowsCycle(g, cycle.value)
      decreases g.Keys - visiting
    {
      if id in visited { return None; }
      if id in visiting {
        assert (stack + [id])[..|stack|] == stack;
        return Some(stack + [id]);
      }
      var depends := g[id].depends;
      var path := stack + [id];
      visiting := visiting + {id};
      var i := 0;
      while i < |depends|
        invariant i <= |depends| && Valid() && visiting == old(visiting) + {id} && visited >= old(visited)
        invariant forall k :: 0 <= k < i ==> depends[k] in visited
      {
        ghost var deeper := path + [depends[i]];
        assert Edge(g, id, depends[i]);
        forall k | 0 <= k < |deeper| - 1 ensures Edge(g, deeper[k], deeper[k + 1]) {
          if k < |path| - 1 { assert Edge(g, path[k], path[k + 1]); }
        }
        cycle := Visit(depends[i], path);
        if cycle.Some? { return; }
        i := i + 1;
      }
      visiting := visiting - {id};
      visited := visited + {id};
      Finish(id);
      cycle := None;
    }
  }

  // ---------------------------------------------------------------- the graph check

  datatype Verdict = Accepted | EmptyColumn(id: Id) | Duplicate(id: Id) | BadStage(id: Id) | WrongMode(id: Id)
    | MissingStage(stage: string) | UnknownParent(id: Id) | BadDependency(id: Id, dep: Id) | Cycle(chain: seq<Id>)

  /** A row of the stage table or, if not `inStageTable`, of the table of submodule tasks. `columns` are the texts that
      must be filled in, trimmed and in lower case; no parent means the root. */
  datatype Row = Row(id: Id, inStageTable: bool, columns: seq<string>, stage: string, mode: string,
                     parent: Option<Id>, depends: seq<Id>)

  const Stages: seq<string> := ["design", "implementation", "testing", "acceptance"]

  const Manual: string := "manual"
  const Automatic: string := "auto-pipeline"

  /** The four stages and their places. */
  predicate Place(stage: string, n: nat) {
    || (stage == "design" && n == 0) || (stage == "implementation" && n == 1)
    || (stage == "testing" && n == 2) || (stage == "acceptance" && n == 3)
  }

  function RankFrom(stage: string, i: nat): (r: Option<nat>)
    requires i <= |Stages|
    ensures r.Some? ==> i <= r.value < |Stages| && Stages[r.value] == stage
    ensures r.None? ==> forall k :: i <= k < |Stages| ==> Stages[k] != stage
    decreases |Stages| - i
  {
    if i == |Stages| then None else if Stages[i] == stage then Some(i) else RankFrom(stage, i + 1)
  }

  /** The place of a stage, if it is one. */
  function Rank(stage: string): (r: Option<nat>)
    ensures forall n: nat :: r == Some(n) <==> Place(stage, n)
  {
    assert Stages[0] == "design" && Stages[1] == "implementation" && Stages[2] == "testing" && Stages[3] == "acceptance";
    RankFrom(stage, 0)
  }

  /** Text in angle brackets stands for a value that is still missing. */
  predicate Placeholder(s: string) {
    exists i, j :: 0 <= i < j < |s| && i + 1 < j && s[i] == '<' && s[j] == '>' && forall k :: i < k < j ==> s[k] != '>'
  }

  predicate NonEmpty(s: string) {
    s !in {"", "-", "n/a", "na", "none", "tbd", "todo", "pending"} && !Placeholder(s)
  }

  predicate Filled(row: Row) { forall c :: c in row.columns ==> NonEmpty(c) }

  predicate ModeFits(row: Row, first: nat) {
    Rank(row.stage).Some? && row.mode == if Rank(row.stage).value >= first then Automatic else Manual
  }

  function TaskOfRow(row: Row): Task {
    Task(if Rank(row.stage).Some? then Rank(row.stage).value else 0, row.mode == Automatic, row.parent, row.depends)
  }

  function Tasks(rows: seq<Row>): Graph {
    if rows == [] then map[] else Tasks(rows[..|rows| - 1])[rows[|rows| - 1].id := TaskOfRow(rows[|rows| - 1])]
  }

  predicate HasStage(rows: seq<Row>, stage: string) {
    exists k :: 0 <= k < |rows| && rows[k].inStageTable && rows[k].stage == stage
  }

  // ---------------------------------------------------------------- good plans, over the rows alone

  ghost predicate DistinctIds(rows: seq<Row>) {
    forall i, j :: 0 <= i < j < |rows| ==> rows[i].id != rows[j].id
  }

  /** Stages from place `first` on run automatically, the others by hand. */
  ghost predicate ModeDemanded(row: Row, first: nat) {
    exists n: nat :: Place(row.stage, n) && row.mode == if n >= first then "auto-pipeline" else "manual"
  }

  /** Neither one of the words for nothing, nor with something in angle brackets in it. */
  ghost predicate FilledIn(c: string) {
    && c != "" && c != "-" && c != "n/a" && c != "na" && c != "none" && c != "tbd" && c != "todo" && c != "pending"
    && forall i, j :: 0 <= i && i + 1 < j < |c| && c[i] == '<' && c[j] == '>' ==> c[i + 1] == '>'
  }

  ghost predicate AllFilledIn(row: Row) { forall k :: 0 <= k < |row.columns| ==> FilledIn(row.columns[k]) }

  ghost predicate GoodRow(row: Row, first: nat) { AllFilledIn(row) && ModeDemanded(row, first) }

  ghost predicate GoodRows(rows: seq<Row>, first: nat) { forall k :: 0 <= k < |rows| ==> GoodRow(rows[k], first) }

  /** A row of the stage table, not of the submodules, is of the stage. */
  ghost predicate IsCovered(rows: seq<Row>, stage: string) {
    exists row :: row in rows && row.inStageTable && row.stage == stage
  }

  ghost predicate CoversStages(rows: seq<Row>) {
    && IsCovered(rows, "design") && IsCovered(rows, "implementation")
    && IsCovered(rows, "testing") && IsCovered(rows, "acceptance")
  }

  ghost predicate InRows(rows: seq<Row>, id: Id) { exists k :: 0 <= k < |rows| && rows[k].id == id }

  ghost predicate NotLater(a: string, b: string) { exists m: nat, n: nat :: Place(a, m) && Place(b, n) && m <= n }

  /** The dependency `d` of row `k` is another row, and of no later stage. */
  ghost predicate GoodDependency(rows: seq<Row>, k: nat, d: Id)
    requires k < |rows|
  {
    exists j :: 0 <= j < |rows| && j != k && rows[j].id == d && NotLater(rows[j].stage, rows[k].stage)
  }

  ghost predicate RowEdge(rows: seq<Row>, a: Id, b: Id) {
    exists k :: 0 <= k < |rows| && rows[k].id == a && b in rows[k].depends
  }

  ghost predicate RowChain(rows: seq<Row>, p: seq<Id>) {
    forall k :: 0 <= k < |p| - 1 ==> RowEdge(rows, p[k], p[k + 1])
  }

  /** Task `a` depends on `b`, directly or through others. */
  ghost predicate RowNeeds(rows: seq<Row>, a: Id, b: Id) {
    exists p: seq<Id> :: |p| >= 2 && RowChain(rows, p) && p[0] == a && p[|p| - 1] == b
  }

  ghost predicate RowParentsKnown(rows: seq<Row>) {
    forall k :: 0 <= k < |rows| && rows[k].parent.Some? ==> InRows(rows, rows[k].parent.value)
  }

  ghost predicate RowDependenciesGood(rows: seq<Row>) {
    forall k, d :: 0 <= k < |rows| && d in rows[k].depends ==> GoodDependency(rows, k, d)
  }

  ghost predicate GoodPlan(rows: seq<Row>, first: nat) {
    && DistinctIds(rows) && GoodRows(rows, first) && CoversStages(rows)
    && RowParentsKnown(rows) && RowDependenciesGood(rows) && (forall a :: !RowNeeds(rows, a, a))
  }

  /** An order of exactly the rows, in which each comes after the rows it depends on. */
  ghost predicate RowsSorted(rows: seq<Row>, order: seq<Id>) {
    && (forall i, j :: 0 <= i < j < |order| ==> order[i] != order[j])
    && (forall a :: a in order <==> InRows(rows, a))
    && (forall i, d :: 0 <= i < |order| && RowEdge(rows, order[i], d) ==> d in order[..i])
  }

  // ---------------------------------------------------------------- the graph of the rows

  /** Tasks from `first` on run automatically, the others by hand. */
  ghost predicate ModesFit(g: Graph, first: nat) {
    forall t :: t in g ==> (g[t].automatic <==> g[t].rank >= first)
  }

  ghost predicate ParentsKnown(g: Graph) {
    forall t :: t in g && g[t].parent.Some? ==> g[t].parent.value in g
  }

  predicate GoodEdge(g: Graph, t: Id, d: Id)
    requires t in g
  {
    d in g && d != t && g[d].rank <= g[t].rank
  }

  ghost predicate GoodEdges(g: Graph) {
    forall t, d :: t in g && d in g[t].depends ==> GoodEdge(g, t, d)
  }

  lemma {:induction false} FirstBracket(s: string, i: nat, j: nat) returns (k: nat)
    requires i < j < |s| && s[j] == '>'
    ensures i < k <= j && s[k] == '>' && forall l :: i < l < k ==> s[l] != '>'
    decreases j - i
  {
    if s[i + 1] == '>' { k := i + 1; } else { k := FirstBracket(s, i + 1, j); }
  }

  lemma FilledMeans(c: string)
    ensures NonEmpty(c) <==> FilledIn(c)
  {
    if i, j :| 0 <= i && i + 1 < j < |c| && c[i] == '<' && c[j] == '>' && c[i + 1] != '>' {
      var k := FirstBracket(c, i, j);
      assert Placeholder(c);
    }
    if Placeholder(c) {
      var i, j :| 0 <= i < j < |c| && i + 1 < j && c[i] == '<' && c[j] == '>' && forall k :: i < k < j ==> c[k] != '>';
      assert c[i + 1] != '>';
    }
  }

  lemma RowFilled(row: Row)
    ensures Filled(row) <==> AllFilledIn(row)
  {
    forall c ensures NonEmpty(c) <==> FilledIn(c) { FilledMeans(c); }
    assert forall k :: 0 <= k < |row.columns| ==> row.columns[k] in row.columns;
  }

  lemma ModeIsDemanded(row: Row, first: nat)
    ensures ModeFits(row, first) <==> ModeDemanded(row, first)
  {
    if Rank(row.stage).Some? { assert Place(row.stage, Rank(row.stage).value); }
  }

  /** A task says of its row what the row says. */
  ghost predicate Says(t: Task, row: Row) {
    && t.depends == row.depends && t.parent == row.parent && (t.automatic <==> row.mode == "auto-pipeline")
    && Place(row.stage, t.rank)
  }

  lemma TaskSaysRow(row: Row, first: nat)
    requires ModeDemanded(row, first)
    ensures Says(TaskOfRow(row), row)
    ensures TaskOfRow(row).automatic <==> TaskOfRow(row).rank >= first
  {
    var n: nat :| Place(row.stage, n) && row.mode == if n >= first then "auto-pipeline" else "manual";
    assert Rank(row.stage) == Some(n);
  }

  lemma {:induction false} IdsOf(rows: seq<Row>, id: Id)
    ensures id in Tasks(rows) <==> InRows(rows, id)
  {
    if rows != [] {
      var n := |rows| - 1;
      IdsOf(rows[..n], id);
      assert InRows(rows[..n], id) ==> InRows(rows, id);
      if InRows(rows, id) && rows[n].id != id {
        var k :| 0 <= k < |rows| && rows[k].id == id;
        assert rows[..n][k].id == id;
      }
    }
  }

  lemma {:induction false} TaskAt(rows: seq<Row>, k: nat)
    requires DistinctIds(rows) && k < |rows|
    ensures rows[k].id in Tasks(rows) && Tasks(rows)[rows[k].id] == TaskOfRow(rows[k])
  {
    if k < |rows| - 1 { TaskAt(rows[..|rows| - 1], k); }
  }

  /** The graph has exactly the ids of the rows, and each task has the dependencies, the parent, the mode and the place
      of its own row. */
  lemma TasksAreRows(rows: seq<Row>, first: nat)
    requires DistinctIds(rows) && GoodRows(rows, first)
    ensures forall id :: id in Tasks(rows) <==> InRows(rows, id)
    ensures forall k :: 0 <= k < |rows| ==> rows[k].id in Tasks(rows) && Says(Tasks(rows)[rows[k].id], rows[k])
  {
    forall id ensures id in Tasks(rows) <==> InRows(rows, id) { IdsOf(rows, id); }
    forall k | 0 <= k < |rows| ensures rows[k].id in Tasks(rows) && Says(Tasks(rows)[rows[k].id], rows[k]) {
      assert GoodRow(rows[k], first);
      TaskAt(rows, k);
      TaskSaysRow(rows[k], first);
    }
  }

  /** Which graph belongs to the rows. */
  ghost predicate GraphOf(rows: seq<Row>, g: Graph) {
    && DistinctIds(rows) && (forall id :: id in g <==> InRows(rows, id))
    && (forall k :: 0 <= k < |rows| ==> rows[k].id in g && Says(g[rows[k].id], rows[k]))
  }

  lemma RowOf(rows: seq<Row>, g: Graph, t: Id) returns (k: nat)
    requires GraphOf(rows, g) && t in g
    ensures k < |rows| && rows[k].id == t && Says(g[t], rows[k])
  {
    assert InRows(rows, t);
    k :| 0 <= k < |rows| && rows[k].id == t;
  }

  lemma EdgesAgree(rows: seq<Row>, g: Graph, a: Id, b: Id)
    requires GraphOf(rows, g)
    ensures Edge(g, a, b) <==> RowEdge(rows, a, b)
  {
    if a in g { var k := RowOf(rows, g, a); }
  }

  lemma ChainsAgree(rows: seq<Row>, g: Graph, p: seq<Id>)
    requires GraphOf(rows, g)
    ensures Chain(g, p) <==> RowChain(rows, p)
  {
    forall k | 0 <= k < |p| - 1 ensures Edge(g, p[k], p[k + 1]) <==> RowEdge(rows, p[k], p[k + 1]) {
      EdgesAgree(rows, g, p[k], p[k + 1]);
    }
  }

  lemma NeedsAgree(rows: seq<Row>, g: Graph, a: Id, b: Id)
    requires GraphOf(rows, g)
    ensures Needs(g, a, b) <==> RowNeeds(rows, a, b)
  {
    forall p: seq<Id> ensures Chain(g, p) <==> RowChain(rows, p) { ChainsAgree(rows, g, p); }
  }

  lemma ParentsAgree(rows: seq<Row>, g: Graph)
    requires GraphOf(rows, g)
    ensures ParentsKnown(g) <==> RowParentsKnown(rows)
  {
    if RowParentsKnown(rows) {
      forall t | t in g && g[t].parent.Some? ensures g[t].parent.value in g { var k := RowOf(rows, g, t); }
    }
  }

  lemma SameStage(stage: string, m: nat, n: nat)
    requires Place(stage, m) && Place(stage, n)
    ensures m == n
  {
  }

  lemma DependencyAgrees(rows: seq<Row>, g: Graph, k: nat, d: Id)
    requires GraphOf(rows, g) && k < |rows|
    ensures GoodEdge(g, rows[k].id, d) <==> GoodDependency(rows, k, d)
  {
    var t := rows[k].id;
    if d in g {
      var j := RowOf(rows, g, d);
      assert j == k <==> d == t;
      if NotLater(rows[j].stage, rows[k].stage) {
        var m: nat, n: nat :| Place(rows[j].stage, m) && Place(rows[k].stage, n) && m <= n;
        SameStage(rows[j].stage, m, g[d].rank);
        SameStage(rows[k].stage, n, g[t].rank);
      }
    }
  }

  lemma EdgesGoodAgree(rows: seq<Row>, g: Graph)
    requires GraphOf(rows, g)
    ensures GoodEdges(g) <==> RowDependenciesGood(rows)
  {
    if GoodEdges(g) {
      forall k, d | 0 <= k < |rows| && d in rows[k].depends ensures GoodDependency(rows, k, d) {
        assert GoodEdge(g, rows[k].id, d);
        DependencyAgrees(rows, g, k, d);
      }
    }
    if RowDependenciesGood(rows) {
      forall t, d | t in g && d in g[t].depends ensures GoodEdge(g, t, d) {
        var k := RowOf(rows, g, t);
        DependencyAgrees(rows, g, k, d);
      }
    }
  }

  /** So a plan is good if and only if its graph is. */
  lemma PlanIsGraph(rows: seq<Row>, first: nat)
    requires DistinctIds(rows) && GoodRows(rows, first)
    ensures GraphOf(rows, Tasks(rows))
    ensures GoodPlan(rows, first) <==>
      CoversStages(rows) && ParentsKnown(Tasks(rows)) && GoodEdges(Tasks(rows)) && Acyclic(Tasks(rows))
  {
    var g := Tasks(rows);
    TasksAreRows(rows, first);
    ParentsAgree(rows, g);
    EdgesGoodAgree(rows, g);
    forall a ensures Needs(g, a, a) <==> RowNeeds(rows, a, a) { NeedsAgree(rows, g, a, a); }
  }

  lemma SortsRows(rows: seq<Row>, g: Graph, order: seq<Id>)
    requires GraphOf(rows, g) && Sorts(g, order)
    ensures RowsSorted(rows, order)
  {
    forall i, d | 0 <= i < |order| && RowEdge(rows, order[i], d) ensures d in order[..i] {
      EdgesAgree(rows, g, order[i], d);
    }
  }

  /** The tasks of good rows run in the mode their stage demands. */
  lemma {:induction false} GoodRowsFit(rows: seq<Row>, first: nat)
    requires GoodRows(rows, first)
    ensures ModesFit(Tasks(rows), first)
  {
    if rows != [] {
      var n := |rows| - 1;
      GoodRowsFit(rows[..n], first);
      assert GoodRow(rows[n], first);
      TaskSaysRow(rows[n], first);
    }
  }

  // ---------------------------------------------------------------- the checks

  /** Why a row is refused. */
  ghost predicate RowFault(row: Row, taken: bool, first: nat, v: Verdict) {
    match v
    case EmptyColumn(id) => id == row.id && !AllFilledIn(row)
    case Duplicate(id) => id == row.id && AllFilledIn(row) && taken
    case BadStage(id) => id == row.id && AllFilledIn(row) && !taken && forall n: nat :: !Place(row.stage, n)
    case WrongMode(id) => id == row.id && AllFilledIn(row) && !taken && !ModeDemanded(row, first) && exists n: nat :: Place(row.stage, n)
    case _ => false
  }

  method CheckRow(row: Row, taken: bool, first: nat) returns (v: Verdict)
    ensures v.Accepted? <==> GoodRow(row, first) && !taken
    ensures !v.Accepted? ==> RowFault(row, taken, first, v)
  {
    ModeIsDemanded(row, first);
    RowFilled(row);
    if !Filled(row) { return EmptyColumn(row.id); }
    if taken { return Duplicate(row.id); }
    if Rank(row.stage).None? { return BadStage(row.id); }
    assert Place(row.stage, Rank(row.stage).value);
    if !ModeFits(row, first) { return WrongMode(row.id); }
    v := Accepted;
  }

  ghost predicate DistinctTo(rows: seq<Row>, n: nat) {
    n <= |rows| && forall i, j :: 0 <= i < j < n ==> rows[i].id != rows[j].id
  }

  lemma TaskAdded(rows: seq<Row>, n: nat)
    requires n < |rows|
    ensures Tasks(rows[..n + 1]) == Tasks(rows[..n])[rows[n].id := TaskOfRow(rows[n])]
  {
    assert rows[..n + 1][..n] == rows[..n];
  }

  lemma NewId(rows: seq<Row>, n: nat)
    requires DistinctTo(rows, n) && n < |rows|
    ensures DistinctTo(rows, n + 1) <==> rows[n].id !in Tasks(rows[..n])
    ensures rows[n].id in Tasks(rows[..n]) <==> InRows(rows[..n], rows[n].id)
  {
    IdsOf(rows[..n], rows[n].id);
    assert forall k :: 0 <= k < n ==> rows[..n][k] == rows[k];
  }

  /** Row `n` is the first one at fault. */
  ghost predicate FaultAt(rows: seq<Row>, first: nat, n: nat, v: Verdict) {
    && n < |rows| && DistinctTo(rows, n) && (forall k :: 0 <= k < n ==> GoodRow(rows[k], first))
    && RowFault(rows[n], InRows(rows[..n], rows[n].id), first, v)
  }

  method LoadTasks(rows: seq<Row>, first: nat) returns (v: Verdict, g: Graph)
    ensures v.Accepted? <==> DistinctIds(rows) && GoodRows(rows, first)
    ensures v.Accepted? ==> g == Tasks(rows)
    ensures !v.Accepted? ==> exists n: nat :: FaultAt(rows, first, n, v)
  {
    g := map[];
    v := Accepted;
    var n := 0;
    while n < |rows|
      invariant n <= |rows| && DistinctTo(rows, n) && g == Tasks(rows[..n]) && v.Accepted?
      invariant forall k :: 0 <= k < n ==> GoodRow(rows[k], first)
    {
      NewId(rows, n);
      TaskAdded(rows, n);
      v := CheckRow(rows[n], rows[n].id in g, first);
      if !v.Accepted? {
        assert FaultAt(rows, first, n, v);
        return;
      }
      g := g[rows[n].id := TaskOfRow(rows[n])];
      n := n + 1;
    }
    assert rows[..n] == rows;
  }

  lemma StageCovered(rows: seq<Row>, stage: string)
    ensures HasStage(rows, stage) <==> IsCovered(rows, stage)
  {
    if IsCovered(rows, stage) {
      var row :| row in rows && row.inStageTable && row.stage == stage;
      var k :| 0 <= k < |rows| && rows[k] == row;
    }
  }

  method CheckStages(rows: seq<Row>) returns (v: Verdict)
    ensures v.Accepted? <==> CoversStages(rows)
    ensures v.Accepted? || (v.MissingStage? && (exists n: nat :: Place(v.stage, n)) && !IsCovered(rows, v.stage))
  {
    forall stage ensures HasStage(rows, stage) <==> IsCovered(rows, stage) { StageCovered(rows, stage); }
    var i := 0;
    while i < |Stages|
      invariant i <= |Stages| && forall k :: 0 <= k < i ==> HasStage(rows, Stages[k])
    {
      if !HasStage(rows, Stages[i]) {
        assert Place(Stages[i], i);
        return MissingStage(Stages[i]);
      }
      i := i + 1;
    }
    assert HasStage(rows, Stages[0]) && HasStage(rows, Stages[1]) && HasStage(rows, Stages[2]) && HasStage(rows, Stages[3]);
    v := Accepted;
  }

  method CheckReferences(g: Graph) returns (v: Verdict)
    ensures v.Accepted? <==> ParentsKnown(g) && GoodEdges(g)
    ensures v.Accepted?
      || (v.UnknownParent? && v.id in g && g[v.id].parent.Some? && g[v.id].parent.value !in g)
      || (v.BadDependency? && v.id in g && v.dep in g[v.id].depends && !GoodEdge(g, v.id, v.dep))
  {
    var rest := g.Keys;
    while rest != {}
      invariant rest <= g.Keys
      invariant forall t :: t in g && t !in rest && g[t].parent.Some? ==> g[t].parent.value in g
      invariant forall t, d :: t in g && t !in rest && d in g[t].depends ==> GoodEdge(g, t, d)
    {
      var t :| t in rest;
      if g[t].parent.Some? && g[t].parent.value !in g { return UnknownParent(t); }
      var i := 0;
      while i < |g[t].depends|
        invariant i <= |g[t].depends| && forall k :: 0 <= k < i ==> GoodEdge(g, t, g[t].depends[k])
      {
        if !GoodEdge(g, t, g[t].depends[i]) { return BadDependency(t, g[t].depends[i]); }
        i := i + 1;
      }
      rest := rest - {t};
    }
    v := Accepted;
  }

  method CheckCycles(g: Graph) returns (v: Verdict)
    requires Closed(g)
    ensures v.Accepted? <==> Acyclic(g)
    ensures v.Accepted? ==> exists order :: Sorts(g, order)
    ensures v.Accepted? || (v.Cycle? && ShowsCycle(g, v.chain))
  {
    var walk := new DependencyWalk(g);
    var rest := g.Keys;
    while rest != {}
      invariant rest <= g.Keys && walk.g == g && fresh(walk)
      invariant walk.Valid() && walk.visiting == {} && walk.visited >= g.Keys - rest
    {
      var t :| t in rest;
      assert Elements([]) == {};
      var cycle := walk.Visit(t, []);
      if cycle.Some? {
        ShownCycle(g, cycle.value);
        return Cycle(cycle.value);
      }
      rest := rest - {t};
    }
    forall a ensures a in walk.order <==> a in walk.visited { assert a in walk.order <==> a in Elements(walk.order); }
    assert Sorts(g, walk.order);
    TopologicalIsAcyclic(g, walk.order);
    v := Accepted;
  }

  /** What the rows have done wrong, when the check names it. */
  ghost predicate Explains(rows: seq<Row>, first: nat, v: Verdict) {
    match v
    case Accepted => false
    case MissingStage(stage) => (exists n: nat :: Place(stage, n)) && !IsCovered(rows, stage)
    case UnknownParent(id) =>
      exists k :: 0 <= k < |rows| && rows[k].id == id && rows[k].parent.Some? && !InRows(rows, rows[k].parent.value)
    case BadDependency(id, d) =>
      exists k :: 0 <= k < |rows| && rows[k].id == id && d in rows[k].depends && !GoodDependency(rows, k, d)
    case Cycle(chain) => RowChain(rows, chain) && |chain| >= 1 && chain[|chain| - 1] in chain[..|chain| - 1]
    case _ => exists n: nat :: FaultAt(rows, first, n, v)
  }

  /** A fault in the graph is one in the rows. */
  lemma GraphFault(rows: seq<Row>, first: nat, g: Graph, v: Verdict)
    requires GraphOf(rows, g)
    requires
      || (v.UnknownParent? && v.id in g && g[v.id].parent.Some? && g[v.id].parent.value !in g)
      || (v.BadDependency? && v.id in g && v.dep in g[v.id].depends && !GoodEdge(g, v.id, v.dep))
      || (v.Cycle? && ShowsCycle(g, v.chain))
    ensures Explains(rows, first, v)
  {
    if v.Cycle? {
      ChainsAgree(rows, g, v.chain);
    } else {
      var k := RowOf(rows, g, v.id);
      if v.BadDependency? { DependencyAgrees(rows, g, k, v.dep); }
    }
  }

  /** The check ends on every plan, and accepts exactly the good ones; what it reports otherwise is a fault of the rows. */
  method CheckTaskGraph(rows: seq<Row>, first: nat) returns (v: Verdict)
    ensures v.Accepted? <==> GoodPlan(rows, first)
    ensures v.Accepted? ==> exists order :: RowsSorted(rows, order)
    ensures !v.Accepted? ==> Explains(rows, first, v)
  {
    var g;
    v, g := LoadTasks(rows, first);
    if !v.Accepted? { return; }
    PlanIsGraph(rows, first);
    v := CheckStages(rows);
    if !v.Accepted? { return; }
    v := CheckReferences(g);
    if !v.Accepted? {
      GraphFault(rows, first, g, v);
      return;
    }
    v := CheckCycles(g);
    if v.Accepted? {
      ghost var order :| Sorts(g, order);
      SortsRows(rows, g, order);
    } else {
      GraphFault(rows, first, g, v);
    }
  }
}
