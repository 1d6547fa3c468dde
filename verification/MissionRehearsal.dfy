/**
 Offline mission rehearsal: a task graph is completed batch by batch, each batch holding the
 tasks whose dependencies are complete, and no batch may list a write path twice.
 */
module MissionRehearsal {
  import opened Results
  import opened Text
  import opened Sorting
  import opened Digraph

  /** The `report_to` entry of a task: the key may be absent, null or name a role. */
  datatype Report = Absent | Null | Role(name: string)

  datatype Task = Task(
    taskId: string, ownerRole: string, reportTo: Report, hiddenAgent: Option<bool>,
    resultContract: Option<string>, providerMode: Option<string>, routeId: Option<string>,
    writePaths: seq<string>, dependsOn: seq<string>)

  datatype Mission = Mission(schemaVersion: string, missionId: string, visibleRoles: seq<string>, tasks: seq<Task>)

  datatype Event = Event(batch: nat, ownerRole: string, reportTo: Report, taskId: string)

  datatype Failure = InvalidMission | DependencyCycle | WriteOverlap | MissingReport

  datatype Rehearsal = Rehearsal(missionId: string, trace: seq<Event>)

  /** The tasks of a mission by identifier. */
  type Tasks = map<string, Task>

  // ---- validation ----

  predicate TaskAccepted(m: Mission, t: Task) {
    && t.taskId != ""
    && t.ownerRole in m.visibleRoles && !Contains(t.ownerRole, "Worker")
    && t.hiddenAgent == Some(false)
    && t.resultContract == Some("STRUCTURED_JSON")
    && t.providerMode == Some("SYNTHETIC_OFFLINE") && t.routeId == None
    && (EndsWith(t.ownerRole, "Lead") ==> t.reportTo == Role("PM Secretary"))
    && (t.ownerRole == "PM Secretary" ==> t.reportTo == Role("PM"))
    && (t.ownerRole == "PM" ==> !t.reportTo.Role?)
    && t.writePaths != [] && forall p | p in t.writePaths :: p != ""
  }

  ghost predicate DistinctIds(ts: seq<Task>) {
    forall i, j | 0 <= i < j < |ts| :: ts[i].taskId != ts[j].taskId
  }

  ghost function Ids(ts: seq<Task>): set<string> { set i | 0 <= i < |ts| :: ts[i].taskId }

  ghost predicate ValidMission(m: Mission) {
    && m.schemaVersion == "1.0.0"
    && "PM" in m.visibleRoles && "PM Secretary" in m.visibleRoles
    && m.tasks != [] && (forall t | t in m.tasks :: TaskAccepted(m, t)) && DistinctIds(m.tasks)
    && forall t, d {:trigger d in t.dependsOn} | t in m.tasks && d in t.dependsOn :: d in Ids(m.tasks) && d != t.taskId
  }

  method ValidateMission(m: Mission) returns (valid: bool)
    ensures valid <==> ValidMission(m)
  {
    if m.schemaVersion != "1.0.0" || "PM" !in m.visibleRoles || "PM Secretary" !in m.visibleRoles || m.tasks == [] {
      return false;
    }
    var ids := {};
    for n := 0 to |m.tasks|
      invariant ids == Ids(m.tasks[..n])
      invariant forall t | t in m.tasks[..n] :: TaskAccepted(m, t)
      invariant DistinctIds(m.tasks[..n])
    {
      var t := m.tasks[n];
      assert m.tasks[..n + 1] == m.tasks[..n] + [t];
      if t.taskId in ids || !TaskAccepted(m, t) {
        assert t in m.tasks;
        return false;
      }
      assert Ids(m.tasks[..n + 1]) == Ids(m.tasks[..n]) + {t.taskId};
      ids := ids + {t.taskId};
    }
    assert m.tasks[..|m.tasks|] == m.tasks;
    for n := 0 to |m.tasks|
      invariant forall t, d {:trigger d in t.dependsOn} | t in m.tasks[..n] && d in t.dependsOn ::
        d in ids && d != t.taskId
    {
      var t := m.tasks[n];
      assert m.tasks[..n + 1] == m.tasks[..n] + [t];
      if exists d | d in t.dependsOn :: d !in ids || d == t.taskId {
        return false;
      }
    }
    return true;
  }

  /** The rules of a task in its own fields, for every accepted mission and only for those. */
  lemma AcceptedTaskExactly(m: Mission, t: Task)
    ensures TaskAccepted(m, t) <==>
      && t.taskId != "" && t.hiddenAgent == Some(false) && t.resultContract == Some("STRUCTURED_JSON")
      && t.providerMode == Some("SYNTHETIC_OFFLINE") && t.routeId == None
      && |t.writePaths| > 0 && "" !in t.writePaths
      && InLine(m, t.ownerRole, t.reportTo)
  {
    ContainsExactly(t.ownerRole, "Worker");
    EndsWithExactly(t.ownerRole, "Lead");
  }

  /** The missions that are accepted, exactly, position by position. */
  lemma AcceptedMissionExactly(m: Mission)
    ensures ValidMission(m) <==>
      && m.schemaVersion == "1.0.0" && {"PM", "PM Secretary"} <= (set r | r in m.visibleRoles)
      && |m.tasks| > 0 && (forall i | 0 <= i < |m.tasks| :: TaskAccepted(m, m.tasks[i]))
      && (forall i, j | 0 <= i < |m.tasks| && 0 <= j < |m.tasks| && m.tasks[i].taskId == m.tasks[j].taskId :: i == j)
      && forall i, d | 0 <= i < |m.tasks| && d in m.tasks[i].dependsOn ::
           exists j :: 0 <= j < |m.tasks| && j != i && m.tasks[j].taskId == d
  {
    if ValidMission(m) {
      forall i, d | 0 <= i < |m.tasks| && d in m.tasks[i].dependsOn
        ensures exists j :: 0 <= j < |m.tasks| && j != i && m.tasks[j].taskId == d
      {
        assert m.tasks[i] in m.tasks && d in Ids(m.tasks);
      }
    }
  }

  /**
   The reporting line: the owner is a visible role and no worker; a lead reports to the PM secretary, the PM secretary
   to the PM, and the PM to nobody.
   */
  ghost predicate InLine(m: Mission, owner: string, report: Report) {
    && (exists i | 0 <= i < |m.visibleRoles| :: m.visibleRoles[i] == owner)
    && (forall x, y :: owner != x + "Worker" + y)
    && (forall x :: owner == x + "Lead" ==> report == Role("PM Secretary"))
    && (owner == "PM Secretary" ==> report == Role("PM"))
    && (owner == "PM" ==> report == Absent || report == Null)
  }

  // ---- the dependency graph and its layers ----

  function Graph(m: Mission): Tasks
    requires DistinctIds(m.tasks)
  {
    map t | t in m.tasks :: t.taskId := t
  }

  /** What validation guarantees about the tasks as a graph. */
  ghost predicate TaskGraph(g: Tasks) {
    && (forall id | id in g :: g[id].taskId == id)
    && forall id, d {:trigger d in g[id].dependsOn} | id in g && d in g[id].dependsOn :: d in g
  }

  ghost function Depends(g: Tasks): (string, string) -> bool {
    (a: string, b: string) => a in g && b in g[a].dependsOn
  }

  ghost predicate IsChain(g: Tasks, id: string, n: nat, p: seq<string>) {
    |p| == n > 0 && Chain(Depends(g), p) && p[0] == id
  }

  /** Some dependency chain that starts at `id` has `n` tasks. */
  ghost predicate HasChain(g: Tasks, id: string, n: nat) {
    exists p :: IsChain(g, id, n, p)
  }

  /** The longest dependency chain that starts at `id` has `n` tasks. */
  ghost predicate LongestChain(g: Tasks, id: string, n: nat) {
    HasChain(g, id, n) && !HasChain(g, id, n + 1)
  }

  /** The tasks complete after `k` batches. */
  ghost function Done(g: Tasks, k: nat): set<string> {
    if k == 0 then {} else set id | id in g && forall d | d in g[id].dependsOn :: d in Done(g, k - 1)
  }

  ghost function Batch(g: Tasks, k: nat): set<string> { Done(g, k + 1) - Done(g, k) }

  /** A task is complete after `k` batches exactly when no dependency chain from it has more than `k` tasks. */
  lemma {:induction false} DoneExact(g: Tasks, k: nat, id: string)
    requires TaskGraph(g) && id in g
    ensures id in Done(g, k) <==> !HasChain(g, id, k + 1)
  {
    var n := k + 1;
    if k == 0 {
      assert IsChain(g, id, n, [id]);
    } else {
      if p :| IsChain(g, id, n, p) {
        assert Step(Depends(g), p, 0);
        ChainSlice(Depends(g), p, 1, n);
        assert IsChain(g, p[1], k, p[1..n]);
        DoneExact(g, k - 1, p[1]);
      }
      if id !in Done(g, k) {
        var d :| d in g[id].dependsOn && d !in Done(g, k - 1);
        DoneExact(g, k - 1, d);
        var q :| IsChain(g, d, k, q);
        ChainCons(Depends(g), id, q);
        assert IsChain(g, id, n, [id] + q);
      }
    }
  }

  lemma ShorterChain(g: Tasks, id: string, m: nat, n: nat)
    requires HasChain(g, id, n) && 0 < m <= n
    ensures HasChain(g, id, m)
  {
    var p :| IsChain(g, id, n, p);
    ChainSlice(Depends(g), p, 0, m);
    assert IsChain(g, id, m, p[0..m]);
  }

  lemma {:induction false} DoneGrows(g: Tasks, j: nat, k: nat)
    requires TaskGraph(g) && j <= k
    ensures Done(g, j) <= Done(g, k) <= g.Keys
  {
    forall id | id in Done(g, j) ensures id in Done(g, k) {
      DoneExact(g, j, id);
      DoneExact(g, k, id);
      if HasChain(g, id, k + 1) {
        ShorterChain(g, id, j + 1, k + 1);
      }
    }
  }

  /** The batch in which a task completes is the length of its longest dependency chain. */
  lemma BatchIsLongestChain(g: Tasks, k: nat, id: string)
    requires TaskGraph(g) && id in g
    ensures id in Batch(g, k) <==> LongestChain(g, id, k + 1)
  {
    DoneExact(g, k, id);
    DoneExact(g, k + 1, id);
  }

  lemma LongestChainUnique(g: Tasks, id: string, m: nat, n: nat)
    requires LongestChain(g, id, m) && LongestChain(g, id, n)
    ensures m == n
  {
    if m < n {
      ShorterChain(g, id, m + 1, n);
    } else if n < m {
      ShorterChain(g, id, n + 1, m);
    }
  }

  lemma {:induction false} StuckForever(g: Tasks, k: nat, n: nat)
    requires Done(g, k + 1) == Done(g, k) && k <= n
    ensures Done(g, n) == Done(g, k)
    decreases n
  {
    if n > k {
      StuckForever(g, k, n - 1);
    }
  }

  lemma EmptyBatchSticks(g: Tasks, k: nat, n: nat)
    requires TaskGraph(g) && Batch(g, k) == {} && k <= n
    ensures Done(g, n) == Done(g, k) && Batch(g, n) == {}
  {
    DoneGrows(g, k, k + 1);
    forall id | id in Done(g, k + 1) ensures id in Done(g, k) {
      assert id !in Batch(g, k);
    }
    StuckForever(g, k, n);
    StuckForever(g, k, n + 1);
  }

  lemma ChainNodes(g: Tasks, id: string, n: nat, p: seq<string>)
    requires TaskGraph(g) && id in g && IsChain(g, id, n, p)
    ensures forall x | x in p :: x in g.Keys
  {
    forall i | 0 <= i < |p| ensures p[i] in g {
      if i > 0 {
        assert Step(Depends(g), p, i - 1);
      }
    }
  }

  /** The graph is acyclic exactly when every task completes. */
  lemma AcyclicMeansAllDone(g: Tasks)
    requires TaskGraph(g)
    ensures !Cyclic(Depends(g)) ==> Done(g, |g.Keys|) == g.Keys
    ensures Cyclic(Depends(g)) ==> forall k :: Done(g, k) != g.Keys
  {
    var n := |g.Keys|;
    DoneGrows(g, n, n);
    if id :| id in g && id !in Done(g, n) {
      DoneExact(g, n, id);
      var p :| IsChain(g, id, n + 1, p);
      ChainNodes(g, id, n + 1, p);
      LongChainCycles(Depends(g), p, g.Keys);
    }
    forall c, k: nat | Cycle(Depends(g), c) ensures Done(g, k) != g.Keys {
      assert Step(Depends(g), c, 0);
      var p := CycleUnrolls(Depends(g), c, 0, k + 1);
      assert IsChain(g, c[0], k + 1, p);
      DoneExact(g, k, c[0]);
    }
  }

  /** No ready task while some remain: the remaining tasks hide a cycle. */
  lemma NoReadyTaskMeansCycle(g: Tasks, k: nat)
    requires TaskGraph(g) && Done(g, k) != g.Keys && Batch(g, k) == {}
    ensures Cyclic(Depends(g))
  {
    var n := |g.Keys|;
    AcyclicMeansAllDone(g);
    if n >= k {
      EmptyBatchSticks(g, k, n);
    } else {
      DoneGrows(g, n, k);
    }
  }

  // ---- write conflicts ----

  /** Some write path is listed twice by the given tasks, by two of them or by one. */
  ghost predicate Conflict(g: Tasks, ids: set<string>) {
    exists a, b, i, j :: Clash(g, ids, a, b, i, j)
  }

  ghost predicate Clash(g: Tasks, ids: set<string>, a: string, b: string, i: nat, j: nat) {
    && a in ids && b in ids && a in g && b in g && i < |g[a].writePaths| && j < |g[b].writePaths|
    && (a != b || i != j) && g[a].writePaths[i] == g[b].writePaths[j]
  }

  ghost predicate Writes(g: Tasks, ids: set<string>, p: string) {
    exists a :: a in ids && a in g && p in g[a].writePaths
  }

  ghost predicate Repeats(list: seq<string>) { exists i, j :: RepeatsAt(list, i, j) }

  ghost predicate RepeatsAt(list: seq<string>, i: nat, j: nat) { i < j < |list| && list[i] == list[j] }

  /** One more task clashes exactly when it repeats a path of its own or lists one already written. */
  lemma ConflictExtends(g: Tasks, ids: set<string>, id: string)
    requires id in g && id !in ids && !Conflict(g, ids)
    ensures Conflict(g, ids + {id}) <==>
      Repeats(g[id].writePaths) || exists p :: p in g[id].writePaths && Writes(g, ids, p)
  {
    var more, list := ids + {id}, g[id].writePaths;
    if i, j :| RepeatsAt(list, i, j) {
      assert Clash(g, more, id, id, i, j);
    }
    if p :| p in list && Writes(g, ids, p) {
      var a :| a in ids && a in g && p in g[a].writePaths;
      var i :| 0 <= i < |g[a].writePaths| && g[a].writePaths[i] == p;
      var j :| 0 <= j < |list| && list[j] == p;
      assert Clash(g, more, a, id, i, j);
    }
    if a, b, i: nat, j: nat :| Clash(g, more, a, b, i, j) {
      assert !Clash(g, ids, a, b, i, j);
      if a == b {
        assert RepeatsAt(list, if i < j then i else j, if i < j then j else i);
      } else if a == id {
        assert list[i] in list && Writes(g, ids, list[i]);
      } else {
        assert list[j] in list && Writes(g, ids, list[j]);
      }
    }
  }

  lemma RepeatsNext(list: seq<string>, p: string)
    requires !Repeats(list) && p !in list
    ensures !Repeats(list + [p])
  {
    var longer := list + [p];
    forall i: nat, j: nat ensures !RepeatsAt(longer, i, j) {
      assert !RepeatsAt(list, i, j);
    }
  }

  /** Adds the paths of one task; fails at the first that is there already. */
  method AddPaths(paths: set<string>, list: seq<string>) returns (fresh': bool, all: set<string>)
    ensures fresh' <==> !Repeats(list) && forall p | p in list :: p !in paths
    ensures fresh' ==> all == paths + set p | p in list
  {
    all := paths;
    for k := 0 to |list|
      invariant all == paths + set p | p in list[..k]
      invariant !Repeats(list[..k])
      invariant forall p | p in list[..k] :: p !in paths
    {
      var path := list[k];
      if path in all {
        if path in list[..k] {
          var i :| 0 <= i < k && list[i] == path;
          assert RepeatsAt(list, i, k);
        }
        return false, all;
      }
      assert list[..k + 1] == list[..k] + [path];
      RepeatsNext(list[..k], path);
      all := all + {path};
    }
    assert list[..|list|] == list;
    fresh' := true;
  }

  method AssertDisjointWrites(ghost g: Tasks, tasks: seq<Task>) returns (disjoint: bool)
    requires DistinctIds(tasks) && forall i | 0 <= i < |tasks| :: tasks[i].taskId in g && g[tasks[i].taskId] == tasks[i]
    ensures disjoint <==> !Conflict(g, Ids(tasks))
  {
    var paths := {};
    for n := 0 to |tasks|
      invariant forall p :: p in paths <==> Writes(g, Ids(tasks[..n]), p)
      invariant !Conflict(g, Ids(tasks[..n]))
    {
      var t := tasks[n];
      IdsNext(tasks, n);
      ConflictExtends(g, Ids(tasks[..n]), t.taskId);
      var fresh', all := AddPaths(paths, t.writePaths);
      if !fresh' {
        ConflictGrows(g, Ids(tasks[..n + 1]), Ids(tasks));
        return false;
      }
      paths := all;
    }
    assert tasks[..|tasks|] == tasks;
    return true;
  }

  lemma IdsNext(tasks: seq<Task>, n: nat)
    requires DistinctIds(tasks) && n < |tasks|
    ensures Ids(tasks[..n + 1]) == Ids(tasks[..n]) + {tasks[n].taskId} && tasks[n].taskId !in Ids(tasks[..n])
    ensures Ids(tasks[..n + 1]) <= Ids(tasks)
  {
    assert forall i | 0 <= i < n :: tasks[..n + 1][i] == tasks[..n][i] == tasks[i];
    assert tasks[..n + 1][n] == tasks[n];
  }

  lemma ConflictGrows(g: Tasks, a: set<string>, b: set<string>)
    requires a <= b && Conflict(g, a)
    ensures Conflict(g, b)
  {
    var x, y, i, j :| Clash(g, a, x, y, i, j);
    assert Clash(g, b, x, y, i, j);
  }

  // ---- reporting ----

  /** Every one of the tasks has a `report_to` key, which the trace reads. */
  ghost predicate Reportable(g: Tasks, ids: set<string>) { forall id :: HasReport(g, ids, id) }

  ghost predicate HasReport(g: Tasks, ids: set<string>, id: string) {
    id in ids && id in g ==> g[id].reportTo != Absent
  }

  ghost predicate BatchConflicts(g: Tasks, k: nat) { Conflict(g, Batch(g, k)) }

  ghost predicate BatchReportable(g: Tasks, k: nat) { Reportable(g, Batch(g, k)) }

  /** Batch `k` completes: no path is written twice and every task can be reported. */
  ghost predicate Clear(g: Tasks, k: nat) { !BatchConflicts(g, k) && BatchReportable(g, k) }

  ghost predicate ClearBefore(g: Tasks, k: nat) { forall j | 0 <= j < k :: Clear(g, j) }

  ghost predicate AllClear(g: Tasks) { forall k: nat :: Clear(g, k) }

  /** Batch `k` writes a path twice, and every task of the batches before it can be reported. */
  ghost predicate OverlapAt(g: Tasks, k: nat) { BatchConflicts(g, k) && forall j | 0 <= j < k :: BatchReportable(g, j) }

  /** Batch `k` has a task without the key, and no batch up to it writes a path twice. */
  ghost predicate MissingAt(g: Tasks, k: nat) {
    !BatchReportable(g, k) && forall j | 0 <= j <= k :: !BatchConflicts(g, j)
  }

  ghost predicate OverlapComesFirst(g: Tasks) { exists k: nat :: OverlapAt(g, k) }

  ghost predicate MissingComesFirst(g: Tasks) { exists k: nat :: MissingAt(g, k) }

  /** At most one of the three can hold. */
  lemma OutcomesExclude(g: Tasks)
    ensures !(OverlapComesFirst(g) && MissingComesFirst(g))
    ensures AllClear(g) ==> !OverlapComesFirst(g) && !MissingComesFirst(g)
  {
    forall k: nat, n: nat ensures !(OverlapAt(g, k) && MissingAt(g, n)) {
      assert n < k ==> (OverlapAt(g, k) ==> BatchReportable(g, n));
      assert k <= n ==> (MissingAt(g, n) ==> !BatchConflicts(g, k));
    }
    forall k: nat | AllClear(g) ensures !OverlapAt(g, k) && !MissingAt(g, k) {
      assert Clear(g, k);
    }
  }

  /** When every task completes, all batches can be reported exactly when all tasks can. */
  lemma AllReported(g: Tasks)
    requires TaskGraph(g) && !Cyclic(Depends(g))
    ensures (forall k: nat :: BatchReportable(g, k)) <==> Reportable(g, g.Keys)
  {
    AcyclicMeansAllDone(g);
    if id :| id in g && g[id].reportTo == Absent {
      var k := BatchOf(g, id, |g.Keys|);
      assert !HasReport(g, Batch(g, k), id) && !HasReport(g, g.Keys, id);
      assert !BatchReportable(g, k);
    }
  }

  lemma {:induction false} BatchOf(g: Tasks, id: string, n: nat) returns (k: nat)
    requires id in Done(g, n)
    ensures id in Batch(g, k)
    decreases n
  {
    if id in Done(g, n - 1) {
      k := BatchOf(g, id, n - 1);
    } else {
      k := n - 1;
    }
  }

  // ---- the trace ----

  function Completed(t: Task, batch: nat): Event { Event(batch, t.ownerRole, t.reportTo, t.taskId) }

  predicate Before(d: Event, e: Event) {
    d.batch < e.batch || (d.batch == e.batch && Less(d.taskId, e.taskId))
  }

  /** The event reports a task, in the batch given by the task's longest dependency chain. */
  ghost predicate Reports(g: Tasks, e: Event) {
    e.taskId in g && e == Completed(g[e.taskId], e.batch) && LongestChain(g, e.taskId, e.batch)
  }

  ghost predicate Reported(id: string, trace: seq<Event>) {
    exists e :: e in trace && e.taskId == id
  }

  /**
   The trace of a completed rehearsal: ordered by batch and task identifier, one event for each
   task, in the batch given by the task's longest dependency chain.
   */
  ghost predicate IsTrace(g: Tasks, trace: seq<Event>) {
    && StrictlySorted(Before, trace)
    && (forall e | e in trace :: Reports(g, e))
    && forall id | id in g :: Reported(id, trace)
  }

  lemma TraceCovers(g: Tasks, a: seq<Event>, b: seq<Event>, e: Event)
    requires IsTrace(g, a) && IsTrace(g, b) && e in a
    ensures e in b
  {
    assert Reports(g, e) && Reported(e.taskId, b);
    var f :| f in b && f.taskId == e.taskId;
    LongestChainUnique(g, e.taskId, e.batch, f.batch);
  }

  lemma TraceUnique(g: Tasks, a: seq<Event>, b: seq<Event>)
    requires IsTrace(g, a) && IsTrace(g, b)
    ensures a == b
  {
    forall e ensures e in a <==> e in b {
      if e in a { TraceCovers(g, a, b, e); }
      if e in b { TraceCovers(g, b, a, e); }
    }
    forall d, e ensures !(Before(d, e) && Before(e, d)) {
      LessTrichotomy(d.taskId, e.taskId);
    }
    StrictlySortedUnique(Before, a, b);
  }

  /** Missions with the same tasks, in whatever order they are given, have the same trace. */
  lemma TraceIndependentOfTaskOrder(m: Mission, n: Mission, a: seq<Event>, b: seq<Event>)
    requires ValidMission(m) && ValidMission(n) && multiset(m.tasks) == multiset(n.tasks)
    requires IsTrace(Graph(m), a) && IsTrace(Graph(n), b)
    ensures a == b
  {
    forall t ensures t in m.tasks <==> t in n.tasks {
      assert t in multiset(m.tasks) <==> t in multiset(n.tasks);
    }
    assert Graph(m) == Graph(n);
    TraceUnique(Graph(m), a, b);
  }

  ghost function Completions(ready: seq<Task>, batch: nat): (es: seq<Event>)
    ensures |es| == |ready| && forall i | 0 <= i < |ready| :: es[i] == Completed(ready[i], batch)
  {
    seq(|ready|, i requires 0 <= i < |ready| => Completed(ready[i], batch))
  }

  /** The tasks of batch `k` in task identifier order, ready to complete. */
  ghost predicate IsBatch(g: Tasks, k: nat, ready: seq<Task>) {
    && (forall i | 0 <= i < |ready| :: ready[i].taskId in g && g[ready[i].taskId] == ready[i])
    && DistinctIds(ready) && Sorted(ByKey((t: Task) => t.taskId), ready)
    && Ids(ready) == Batch(g, k) && Clear(g, k)
  }

  /** The trace is what `k` rounds of the batch loop append. */
  ghost predicate Appended(g: Tasks, k: nat, trace: seq<Event>) {
    if k == 0 then trace == []
    else exists before, ready :: IsRound(g, k, trace, before, ready) && Appended(g, k - 1, before)
  }

  ghost predicate IsRound(g: Tasks, k: nat, trace: seq<Event>, before: seq<Event>, ready: seq<Task>) {
    k > 0 && IsBatch(g, k - 1, ready) && trace == before + Completions(ready, k)
  }

  /** What the first `k` rounds have listed. */
  ghost predicate Listed(g: Tasks, k: nat, trace: seq<Event>) {
    && StrictlySorted(Before, trace)
    && (forall e | e in trace :: e.batch <= k && Reports(g, e))
    && forall id | id in Done(g, k) :: Reported(id, trace)
  }

  lemma CompletionsSorted(ready: seq<Task>, batch: nat)
    requires DistinctIds(ready) && Sorted(ByKey((t: Task) => t.taskId), ready)
    ensures StrictlySorted(Before, Completions(ready, batch))
  {
    var more := Completions(ready, batch);
    forall i, j | 0 <= i < j < |more| ensures Before(more[i], more[j]) {
      LessTrichotomy(ready[i].taskId, ready[j].taskId);
      assert InOrder(ByKey((t: Task) => t.taskId), ready, i, j);
    }
  }

  lemma CompletionsReport(g: Tasks, k: nat, ready: seq<Task>)
    requires TaskGraph(g) && IsBatch(g, k, ready)
    ensures forall e | e in Completions(ready, k + 1) :: e.batch == k + 1 && Reports(g, e)
    ensures forall id | id in Batch(g, k) :: Reported(id, Completions(ready, k + 1))
  {
    var more := Completions(ready, k + 1);
    forall i | 0 <= i < |more| ensures Reports(g, more[i]) {
      assert ready[i].taskId in Ids(ready);
      BatchIsLongestChain(g, k, ready[i].taskId);
    }
    forall id | id in Batch(g, k) ensures Reported(id, more) {
      assert id in Ids(ready);
      var i :| 0 <= i < |ready| && ready[i].taskId == id;
      assert more[i] in more;
    }
  }

  lemma ListedGrows(g: Tasks, j: nat, k: nat, trace: seq<Event>, more: seq<Event>)
    requires k == j + 1 && Listed(g, j, trace) && StrictlySorted(Before, more)
    requires forall e | e in more :: e.batch == k && Reports(g, e)
    requires forall id | id in Batch(g, j) :: Reported(id, more)
    ensures Listed(g, k, trace + more)
  {
    var all := trace + more;
    forall i, j | 0 <= i < j < |all| ensures Before(all[i], all[j]) {
      if i < |trace| <= j {
        assert trace[i] in trace && more[j - |trace|] in more;
      }
    }
    forall id | id in Done(g, k) ensures Reported(id, all) {
      if id in Done(g, j) {
        var e :| e in trace && e.taskId == id;
        assert e in all;
      } else {
        assert Reported(id, more);
        var e :| e in more && e.taskId == id;
        assert e in all;
      }
    }
  }

  lemma RoundIsListed(g: Tasks, j: nat, k: nat, trace: seq<Event>, before: seq<Event>, ready: seq<Task>)
    requires k == j + 1 && TaskGraph(g) && Listed(g, j, before) && IsRound(g, k, trace, before, ready)
    ensures Listed(g, k, trace)
  {
    CompletionsSorted(ready, k);
    CompletionsReport(g, j, ready);
    ListedGrows(g, j, k, before, Completions(ready, k));
  }

  lemma LastRound(g: Tasks, j: nat, k: nat, trace: seq<Event>) returns (before: seq<Event>, ready: seq<Task>)
    requires k == j + 1 && Appended(g, k, trace)
    ensures IsRound(g, k, trace, before, ready) && Appended(g, j, before)
  {
    before, ready :| IsRound(g, k, trace, before, ready) && Appended(g, k - 1, before);
  }

  lemma {:induction false} AppendedIsListed(g: Tasks, k: nat, trace: seq<Event>)
    requires TaskGraph(g) && Appended(g, k, trace)
    ensures Listed(g, k, trace)
  {
    if k > 0 {
      var j := k - 1;
      var before, ready := LastRound(g, j, k, trace);
      AppendedIsListed(g, j, before);
      RoundIsListed(g, j, k, trace, before, ready);
    }
  }

  lemma {:induction false} AppendedIsClear(g: Tasks, k: nat, trace: seq<Event>)
    requires Appended(g, k, trace)
    ensures ClearBefore(g, k)
  {
    if k > 0 {
      var j := k - 1;
      var before, ready := LastRound(g, j, k, trace);
      AppendedIsClear(g, j, before);
    }
  }

  // ---- the rehearsal ----

  /** The state of the batch loop after `k` batches. */
  ghost predicate Progress(g: Tasks, k: nat, remaining: Tasks, completed: set<string>, events: seq<Event>) {
    && completed == Done(g, k) <= g.Keys && remaining == g - completed
    && Appended(g, k, events)
  }

  /** The remaining tasks whose dependencies are complete, in task identifier order. */
  method ReadyTasks(remaining: Tasks, completed: set<string>) returns (ready: seq<Task>)
    requires forall id | id in remaining :: remaining[id].taskId == id
    ensures forall i | 0 <= i < |ready| :: ready[i].taskId in remaining && remaining[ready[i].taskId] == ready[i]
    ensures Ids(ready) == set id | id in remaining && forall d | d in remaining[id].dependsOn :: d in completed
    ensures DistinctIds(ready) && Sorted(ByKey((t: Task) => t.taskId), ready)
  {
    var found: seq<Task> := [];
    var keys := remaining.Keys;
    while keys != {}
      invariant keys <= remaining.Keys && DistinctIds(found)
      invariant forall i | 0 <= i < |found| :: found[i].taskId in remaining && remaining[found[i].taskId] == found[i]
      invariant Ids(found) == set id | id in remaining.Keys - keys
        && forall d | d in remaining[id].dependsOn :: d in completed
    {
      var id :| id in keys;
      var t := remaining[id];
      if forall d | d in t.dependsOn :: d in completed {
        assert forall i | 0 <= i < |found| :: found[i].taskId in Ids(found);
        assert Ids(found + [t]) == Ids(found) + {id} by {
          assert forall i | 0 <= i < |found| :: (found + [t])[i] == found[i];
          assert (found + [t])[|found|] == t;
        }
        found := found + [t];
      }
      keys := keys - {id};
    }
    ByKeyWeakOrder((t: Task) => t.taskId);
    ready := Sort(ByKey((t: Task) => t.taskId), found);
    SamePermutation(found, ready);
  }

  lemma SamePermutation(a: seq<Task>, b: seq<Task>)
    requires DistinctIds(a) && multiset(a) == multiset(b)
    ensures DistinctIds(b) && Ids(a) == Ids(b) && forall i | 0 <= i < |b| :: b[i] in a
  {
    forall i, j | 0 <= i < j < |b| ensures b[i].taskId != b[j].taskId {
      assert b[i] in multiset(a) && b[j] in multiset(a);
      if b[i] == b[j] {
        assert b == b[..j] + [b[j]] + b[j + 1..];
        assert multiset(b)[b[i]] >= 2;
        Occurrences(a, b[i]);
      }
    }
    IdsIncluded(a, b);
    IdsIncluded(b, a);
  }

  lemma IdsIncluded(a: seq<Task>, b: seq<Task>)
    requires multiset(a) == multiset(b)
    ensures Ids(a) <= Ids(b) && forall i | 0 <= i < |a| :: a[i] in b
  {
    forall i | 0 <= i < |a| ensures a[i] in b && a[i].taskId in Ids(b) {
      assert a[i] in multiset(b);
    }
  }

  lemma {:induction false} Occurrences(a: seq<Task>, t: Task)
    requires DistinctIds(a)
    ensures multiset(a)[t] <= 1
  {
    if a != [] {
      var n := |a| - 1;
      assert a == a[..n] + [a[n]];
      Occurrences(a[..n], t);
      if a[n] == t {
        assert t !in a[..n];
      }
    }
  }

  lemma ReadyIsBatch(g: Tasks, k: nat, remaining: Tasks, completed: set<string>)
    requires TaskGraph(g) && completed == Done(g, k) <= g.Keys && remaining == g - completed
    ensures (set id | id in remaining && forall d | d in remaining[id].dependsOn :: d in completed) == Batch(g, k)
  {}

  lemma BatchAdvances(g: Tasks, k: nat, remaining: Tasks, completed: set<string>, events: seq<Event>, ready: seq<Task>)
    requires TaskGraph(g) && Progress(g, k, remaining, completed, events) && IsBatch(g, k, ready)
    ensures Progress(g, k + 1, remaining - Ids(ready), completed + Ids(ready), events + Completions(ready, k + 1))
  {
    var n := k + 1;
    DoneGrows(g, k, n);
    assert Done(g, n) == Done(g, k) + Batch(g, k);
    assert IsRound(g, n, events + Completions(ready, n), events, ready);
    assert g - Done(g, n) == (g - Done(g, k)) - Batch(g, k);
  }

  /** Every task of the batch is completed, reported and no longer remaining, unless one of them has no `report_to`. */
  method CompleteBatch(ready: seq<Task>, batch: nat, remaining: Tasks, completed: set<string>, events: seq<Event>)
    returns (missing: bool, left: Tasks, done: set<string>, trace: seq<Event>)
    ensures missing <==> exists i | 0 <= i < |ready| :: ready[i].reportTo == Absent
    ensures !missing ==> left == remaining - Ids(ready) && done == completed + Ids(ready)
    ensures !missing ==> trace == events + Completions(ready, batch)
  {
    left, done, trace := remaining, completed, events;
    for n := 0 to |ready|
      invariant forall i | 0 <= i < n :: ready[i].reportTo != Absent
      invariant trace == events + Completions(ready[..n], batch)
      invariant done == completed + Ids(ready[..n])
      invariant left == remaining - Ids(ready[..n])
    {
      var t := ready[n];
      if t.reportTo == Absent {
        return true, left, done, trace;
      }
      assert Ids(ready[..n + 1]) == Ids(ready[..n]) + {t.taskId};
      trace := trace + [Completed(t, batch)];
      done := done + {t.taskId};
      left := left - {t.taskId};
    }
    assert ready[..|ready|] == ready;
    missing := false;
  }

  lemma FewerRemain(remaining: Tasks, ids: set<string>, id: string)
    requires id in remaining && id in ids
    ensures |remaining - ids| < |remaining|
  {
    SubsetSize((remaining - ids).Keys, remaining.Keys - {id});
  }

  lemma {:induction false} SubsetSize(a: set<string>, b: set<string>)
    requires a <= b
    ensures |a| <= |b|
  {
    if x :| x in a {
      SubsetSize(a - {x}, b - {x});
    }
  }

  lemma ClearThroughout(g: Tasks, k: nat)
    requires TaskGraph(g) && Batch(g, k) == {} && ClearBefore(g, k)
    ensures AllClear(g)
  {
    forall j: nat ensures Clear(g, j) {
      if j >= k {
        EmptyBatchSticks(g, k, j);
      }
    }
  }

  lemma NothingReady(g: Tasks, k: nat, remaining: Tasks, completed: set<string>, events: seq<Event>)
    requires TaskGraph(g) && Progress(g, k, remaining, completed, events)
    requires remaining != map[] && Batch(g, k) == {}
    ensures Cyclic(Depends(g)) && AllClear(g)
  {
    assert remaining.Keys != {};
    NoReadyTaskMeansCycle(g, k);
    AppendedIsClear(g, k, events);
    ClearThroughout(g, k);
  }

  lemma AllComplete(g: Tasks, k: nat, remaining: Tasks, completed: set<string>, events: seq<Event>)
    requires TaskGraph(g) && Progress(g, k, remaining, completed, events) && remaining == map[]
    ensures !Cyclic(Depends(g)) && IsTrace(g, events) && AllClear(g)
  {
    forall id | id in g ensures id in Done(g, k) {
      assert id !in remaining;
    }
    AppendedIsListed(g, k, events);
    AppendedIsClear(g, k, events);
    AcyclicMeansAllDone(g);
    DoneGrows(g, k, k + 1);
    ClearThroughout(g, k);
  }

  lemma Overlaps(g: Tasks, k: nat, events: seq<Event>)
    requires Appended(g, k, events) && BatchConflicts(g, k)
    ensures OverlapComesFirst(g)
  {
    AppendedIsClear(g, k, events);
    forall j | 0 <= j < k ensures BatchReportable(g, j) {
      assert Clear(g, j);
    }
    assert OverlapAt(g, k);
  }

  lemma Misses(g: Tasks, k: nat, events: seq<Event>)
    requires Appended(g, k, events) && !BatchConflicts(g, k) && !BatchReportable(g, k)
    ensures MissingComesFirst(g)
  {
    AppendedIsClear(g, k, events);
    forall j | 0 <= j <= k ensures !BatchConflicts(g, j) {
      assert j < k ==> Clear(g, j);
    }
    assert MissingAt(g, k);
  }

  /** One round of the batch loop. */
  method RunBatch(ghost g: Tasks, k: nat, remaining: Tasks, completed: set<string>, events: seq<Event>)
    returns (failure: Option<Failure>, next: nat, left: Tasks, done: set<string>, trace: seq<Event>)
    requires TaskGraph(g) && Progress(g, k, remaining, completed, events) && remaining != map[]
    ensures failure.Some? ==> failure.value != InvalidMission
    ensures failure == Some(DependencyCycle) ==> Cyclic(Depends(g)) && AllClear(g)
    ensures failure == Some(WriteOverlap) ==> OverlapComesFirst(g)
    ensures failure == Some(MissingReport) ==> MissingComesFirst(g)
    ensures failure == None ==> Progress(g, next, left, done, trace) && |left| < |remaining|
  {
    next, left, done, trace := k + 1, remaining, completed, events;
    var ready := ReadyTasks(remaining, completed);
    ReadyIsBatch(g, k, remaining, completed);
    if ready == [] {
      NothingReady(g, k, remaining, completed, events);
      return Some(DependencyCycle), next, left, done, trace;
    }
    var disjoint := AssertDisjointWrites(g, ready);
    if !disjoint {
      Overlaps(g, k, events);
      return Some(WriteOverlap), next, left, done, trace;
    }
    var missing;
    missing, left, done, trace := CompleteBatch(ready, next, remaining, completed, events);
    ReportableReady(g, ready);
    if missing {
      Misses(g, k, events);
      return Some(MissingReport), next, left, done, trace;
    }
    BatchAdvances(g, k, remaining, completed, events, ready);
    assert ready[0].taskId in Ids(ready);
    FewerRemain(remaining, Ids(ready), ready[0].taskId);
    failure := None;
  }

  lemma ReportableReady(g: Tasks, ready: seq<Task>)
    requires forall i | 0 <= i < |ready| :: ready[i].taskId in g && g[ready[i].taskId] == ready[i]
    ensures Reportable(g, Ids(ready)) <==> forall i | 0 <= i < |ready| :: ready[i].reportTo != Absent
  {
    forall i | 0 <= i < |ready| ensures HasReport(g, Ids(ready), ready[i].taskId) ==> ready[i].reportTo != Absent {
      assert ready[i].taskId in Ids(ready);
    }
  }

  /** The batch loop; each way of ending says what it ran into. */
  method BatchLoop(g: Tasks) returns (failure: Option<Failure>, events: seq<Event>)
    requires TaskGraph(g)
    ensures failure.Some? ==> failure.value != InvalidMission
    ensures failure == Some(DependencyCycle) ==> Cyclic(Depends(g)) && AllClear(g)
    ensures failure == Some(WriteOverlap) ==> OverlapComesFirst(g)
    ensures failure == Some(MissingReport) ==> MissingComesFirst(g)
    ensures failure == None ==> !Cyclic(Depends(g)) && AllClear(g) && IsTrace(g, events)
  {
    var batch, remaining, completed := 0, g, {};
    events := [];
    while remaining != map[]
      invariant Progress(g, batch, remaining, completed, events)
      decreases |remaining|
    {
      failure, batch, remaining, completed, events := RunBatch(g, batch, remaining, completed, events);
      if failure.Some? {
        return;
      }
    }
    AllComplete(g, batch, remaining, completed, events);
    failure := None;
  }

  method RunBatches(g: Tasks) returns (failure: Option<Failure>, events: seq<Event>)
    requires TaskGraph(g)
    ensures failure.Some? ==> failure.value != InvalidMission
    ensures failure == Some(WriteOverlap) <==> OverlapComesFirst(g)
    ensures failure == Some(MissingReport) <==> MissingComesFirst(g)
    ensures failure == Some(DependencyCycle) <==> Cyclic(Depends(g)) && AllClear(g)
    ensures failure == None <==> !Cyclic(Depends(g)) && AllClear(g)
    ensures failure == None ==> IsTrace(g, events)
  {
    OutcomesExclude(g);
    failure, events := BatchLoop(g);
  }

  lemma ValidIsGraph(m: Mission)
    requires ValidMission(m)
    ensures TaskGraph(Graph(m))
  {
    var g := Graph(m);
    forall id, d | id in g && d in g[id].dependsOn ensures d in g {
      assert g[id] in m.tasks && d in Ids(m.tasks);
    }
  }

  ghost predicate SomeBatchConflicts(g: Tasks) {
    exists k: nat :: BatchConflicts(g, k)
  }

  lemma ClearSplits(g: Tasks)
    ensures AllClear(g) <==> !SomeBatchConflicts(g) && forall k: nat :: BatchReportable(g, k)
  {
    forall k: nat | AllClear(g) ensures !BatchConflicts(g, k) && BatchReportable(g, k) {
      assert Clear(g, k);
    }
  }

  lemma GraphHolds(m: Mission, t: Task)
    requires DistinctIds(m.tasks) && t in m.tasks
    ensures t.taskId in Graph(m) && Graph(m)[t.taskId] == t
  {}

  lemma TasksReported(m: Mission)
    requires DistinctIds(m.tasks)
    ensures Reportable(Graph(m), Graph(m).Keys) <==> forall t | t in m.tasks :: t.reportTo != Absent
  {
    var g := Graph(m);
    forall t | t in m.tasks ensures HasReport(g, g.Keys, t.taskId) <==> t.reportTo != Absent {
      GraphHolds(m, t);
    }
    forall id ensures id in g ==> g[id] in m.tasks && g[id].taskId == id {}
  }

  /** Success in the mission's own terms: no cycle, no batch that writes a path twice, no task without the key. */
  lemma SuccessInTasks(m: Mission)
    requires ValidMission(m)
    ensures !Cyclic(Depends(Graph(m))) && AllClear(Graph(m)) <==>
      !Cyclic(Depends(Graph(m))) && !SomeBatchConflicts(Graph(m)) && forall t | t in m.tasks :: t.reportTo != Absent
  {
    var g := Graph(m);
    ValidIsGraph(m);
    ClearSplits(g);
    if !Cyclic(Depends(g)) {
      AllReported(g);
    }
    TasksReported(m);
  }

  /** Every event of the trace of a valid mission follows the reporting line. */
  lemma TraceFollowsLine(m: Mission, trace: seq<Event>, e: Event)
    requires ValidMission(m) && IsTrace(Graph(m), trace) && e in trace
    ensures InLine(m, e.ownerRole, e.reportTo)
  {
    assert Reports(Graph(m), e);
    var t := Graph(m)[e.taskId];
    assert t in m.tasks;
    AcceptedTaskExactly(m, t);
  }

  method Rehearse(m: Mission) returns (r: Result<Rehearsal, Failure>)
    ensures r == Err(InvalidMission) <==> !ValidMission(m)
    ensures r == Err(WriteOverlap) <==> ValidMission(m) && OverlapComesFirst(Graph(m))
    ensures r == Err(MissingReport) <==> ValidMission(m) && MissingComesFirst(Graph(m))
    ensures r == Err(DependencyCycle) <==> ValidMission(m) && Cyclic(Depends(Graph(m))) && AllClear(Graph(m))
    ensures r.Ok? <==>
      && ValidMission(m) && !Cyclic(Depends(Graph(m))) && !SomeBatchConflicts(Graph(m))
      && forall t | t in m.tasks :: t.reportTo != Absent
    ensures r.Ok? ==> r.value.missionId == m.missionId && IsTrace(Graph(m), r.value.trace)
    ensures r.Ok? ==> forall e | e in r.value.trace :: InLine(m, e.ownerRole, e.reportTo)
  {
    var valid := ValidateMission(m);
    if !valid {
      return Err(InvalidMission);
    }
    ValidIsGraph(m);
    SuccessInTasks(m);
    var failure, events := RunBatches(Graph(m));
    if failure.Some? {
      var f := failure.value;
      assert failure == Some(f) && f != InvalidMission;
      return Err(f);
    }
    forall e | e in events ensures InLine(m, e.ownerRole, e.reportTo) {
      TraceFollowsLine(m, events, e);
    }
    return Ok(Rehearsal(m.missionId, events));
  }

  /**
   Validation admits a task of the PM without `report_to`; such a mission, acyclic and free of conflicts, fails to
   report.
   */
  lemma ValidMissionMayLackReport(id: string, path: string)
    requires id != "" && path != ""
    ensures
      var t := Task(id, "PM", Absent, Some(false), Some("STRUCTURED_JSON"), Some("SYNTHETIC_OFFLINE"), None,
                    [path], []);
      var m := Mission("1.0.0", "m", ["PM", "PM Secretary"], [t]);
      ValidMission(m) && !Cyclic(Depends(Graph(m))) && !SomeBatchConflicts(Graph(m)) && MissingComesFirst(Graph(m))
  {
    var t := Task(id, "PM", Absent, Some(false), Some("STRUCTURED_JSON"), Some("SYNTHETIC_OFFLINE"), None, [path], []);
    var m := Mission("1.0.0", "m", ["PM", "PM Secretary"], [t]);
    assert TaskAccepted(m, t);
    assert ValidMission(m);
    assert Graph(m) == map[id := t];
    LoneTask(id, t);
  }

  lemma LoneTask(id: string, t: Task)
    requires t.taskId == id && t.dependsOn == [] && |t.writePaths| == 1 && t.reportTo == Absent
    ensures var g := map[id := t]; !Cyclic(Depends(g)) && !SomeBatchConflicts(g) && MissingComesFirst(g)
  {
    var g := map[id := t];
    RankedAcyclic(Depends(g), (x: string) => 0);
    forall ids: set<string> ensures !Conflict(g, ids) {
      forall a, b, i: nat, j: nat ensures !Clash(g, ids, a, b, i, j) {}
    }
    assert id in Batch(g, 0) && !HasReport(g, Batch(g, 0), id);
    assert MissingAt(g, 0);
  }
}
