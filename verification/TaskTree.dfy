/** The task tree of a stage: checking it when it is restored, and the required gate over it, read from below
    (does this task block the stage?) and from above (which task blocks the stage?). */
module TaskTree {
  import opened Options

  datatype Mode = Required | Advisory

  datatype Task = Task(id: string, runID: string, rootStageID: string, parent: Option<string>, mode: Mode)

  datatype TreeError = MissingParent | Cycle | CrossRun | CrossStage

  type Tasks = map<string, Task>

  /** Every task is filed under its own ID. */
  predicate Filed(byID: Tasks)
  {
    forall id :: id in byID ==> byID[id].id == id
  }

  // ----- Validation -----

  /** One edge from a child to its parent; None when it is sound. */
  function EdgeError(child: Task, parent: Task, runID: string): Option<TreeError>
  {
    if child.parent.None? then None
    else if parent.id == child.id then Some(Cycle)
    else if parent.runID != runID || child.runID != runID then Some(CrossRun)
    else if parent.rootStageID != child.rootStageID then Some(CrossStage)
    else None
  }

  datatype Climb = ReachesRoot(depth: nat) | Fails(error: TreeError)

  /** The walk to the root, remembering the tasks seen. */
  function ClimbFrom(byID: Tasks, runID: string, cur: Task, visited: set<string>): Climb
    requires Filed(byID)
    decreases byID.Keys - visited
  {
    if cur.parent.None? then ReachesRoot(0)
    else if cur.parent.value !in byID then Fails(MissingParent)
    else
      var parent := byID[cur.parent.value];
      var error := EdgeError(cur, parent, runID);
      if error.Some? then Fails(error.value)
      else if parent.id in visited then Fails(Cycle)
      else
        assert parent.id in byID.Keys - visited;
        match ClimbFrom(byID, runID, parent, visited + {parent.id})
        case ReachesRoot(n) => ReachesRoot(n + 1)
        case Fails(e) => Fails(e)
  }

  function Index(tasks: seq<Task>): (byID: Tasks)
    ensures Filed(byID)
    ensures forall t :: t in tasks ==> t.id in byID
    ensures forall id :: id in byID ==> byID[id] in tasks
  {
    if tasks == [] then map[] else
      var last := tasks[|tasks| - 1];
      assert tasks == tasks[..|tasks| - 1] + [last];
      Index(tasks[..|tasks| - 1])[last.id := last]
  }

  ghost predicate IsFailure(tasks: seq<Task>, runID: string, i: nat, failure: (string, TreeError))
    requires i < |tasks|
  {
    && tasks[i].id == failure.0
    && ClimbFrom(Index(tasks), runID, tasks[i], {tasks[i].id}) == Fails(failure.1)
  }

  /** Every task's chain of parents leads to the stage. */
  ghost predicate AllClimb(tasks: seq<Task>, runID: string)
  {
    forall i :: 0 <= i < |tasks| ==> ClimbFrom(Index(tasks), runID, tasks[i], {tasks[i].id}).ReachesRoot?
  }

  method ValidateTree(tasks: seq<Task>, runID: string) returns (failure: Option<(string, TreeError)>)
    ensures failure.None? <==> AllClimb(tasks, runID)
    ensures failure.Some? ==> exists i :: 0 <= i < |tasks| && IsFailure(tasks, runID, i, failure.value)
  {
    var byID := Index(tasks);
    for i := 0 to |tasks|
      invariant forall j :: 0 <= j < i ==> ClimbFrom(byID, runID, tasks[j], {tasks[j].id}).ReachesRoot?
    {
      var t := tasks[i];
      var visited, cur := {t.id}, t;
      while cur.parent.Some?
        invariant ClimbFrom(byID, runID, t, {t.id}).ReachesRoot? <==> ClimbFrom(byID, runID, cur, visited).ReachesRoot?
        invariant forall e :: ClimbFrom(byID, runID, cur, visited) == Fails(e) ==> ClimbFrom(byID, runID, t, {t.id}) == Fails(e)
        decreases byID.Keys - visited
      {
        if cur.parent.value !in byID {
          assert IsFailure(tasks, runID, i, (t.id, MissingParent));
          return Some((t.id, MissingParent));
        }
        var parent := byID[cur.parent.value];
        var error := EdgeError(cur, parent, runID);
        if error.Some? {
          assert IsFailure(tasks, runID, i, (t.id, error.value));
          return Some((t.id, error.value));
        }
        if parent.id in visited {
          assert IsFailure(tasks, runID, i, (t.id, Cycle));
          return Some((t.id, Cycle));
        }
        assert parent.id in byID.Keys - visited;
        visited := visited + {parent.id};
        cur := parent;
      }
    }
    failure := None;
  }

  // ----- What acceptance means -----

  ghost predicate DepthFits(byID: Tasks, depth: map<string, nat>, id: string)
    requires depth.Keys == byID.Keys
  {
    id in byID ==>
      match byID[id].parent
      case None => depth[id] == 0
      case Some(p) => p in byID && depth[id] == depth[p] + 1
  }

  /** Depths as they are computed for new tasks: a root at 0, a child one below its parent. */
  ghost predicate IsDepth(byID: Tasks, depth: map<string, nat>)
  {
    depth.Keys == byID.Keys && forall id {:trigger DepthFits(byID, depth, id)} :: DepthFits(byID, depth, id)
  }

  ghost predicate EdgesSound(byID: Tasks, runID: string)
  {
    forall id :: id in byID && byID[id].parent.Some? ==>
      byID[id].parent.value in byID && EdgeError(byID[id], byID[byID[id].parent.value], runID).None?
  }

  ghost predicate Accepts(byID: Tasks, runID: string)
    requires Filed(byID)
  {
    forall id :: id in byID ==> ClimbFrom(byID, runID, byID[id], {id}).ReachesRoot?
  }

  lemma {:induction false} FewerVisited(byID: Tasks, runID: string, cur: Task, more: set<string>, fewer: set<string>)
    requires Filed(byID) && fewer <= more && ClimbFrom(byID, runID, cur, more).ReachesRoot?
    ensures ClimbFrom(byID, runID, cur, fewer) == ClimbFrom(byID, runID, cur, more)
    decreases byID.Keys - more
  {
    if cur.parent.Some? {
      var parent := byID[cur.parent.value];
      assert parent.id in byID.Keys - more;
      FewerVisited(byID, runID, parent, more + {parent.id}, fewer + {parent.id});
    }
  }

  lemma AcceptedDepth(byID: Tasks, runID: string) returns (depth: map<string, nat>)
    requires Filed(byID) && Accepts(byID, runID)
    ensures IsDepth(byID, depth) && EdgesSound(byID, runID)
  {
    depth := map id | id in byID :: ClimbFrom(byID, runID, byID[id], {id}).depth;
    forall id | id in byID && byID[id].parent.Some?
      ensures var p := byID[id].parent.value;
        p in byID && depth[id] == depth[p] + 1 && EdgeError(byID[id], byID[p], runID).None?
    {
      var p := byID[id].parent.value;
      assert ClimbFrom(byID, runID, byID[id], {id}).ReachesRoot?;
      FewerVisited(byID, runID, byID[p], {id} + {p}, {p});
    }
  }

  lemma {:induction false} DepthClimbs(byID: Tasks, runID: string, depth: map<string, nat>, id: string, visited: set<string>)
    requires Filed(byID) && IsDepth(byID, depth) && EdgesSound(byID, runID) && id in byID
    requires visited <= byID.Keys && forall v :: v in visited ==> depth[v] >= depth[id]
    ensures ClimbFrom(byID, runID, byID[id], visited) == ReachesRoot(depth[id])
    decreases depth[id]
  {
    assert DepthFits(byID, depth, id);
    if byID[id].parent.Some? {
      var p := byID[id].parent.value;
      DepthClimbs(byID, runID, depth, p, visited + {p});
    }
  }

  /** Main result: validation accepts exactly the forests: every edge sound, and depths that grow by one along each. */
  lemma TreeExact(byID: Tasks, runID: string)
    requires Filed(byID)
    ensures Accepts(byID, runID) <==> EdgesSound(byID, runID) && exists depth :: IsDepth(byID, depth)
  {
    if Accepts(byID, runID) {
      var depth := AcceptedDepth(byID, runID);
    } else if EdgesSound(byID, runID) && exists depth :: IsDepth(byID, depth) {
      var depth :| IsDepth(byID, depth);
      forall id | id in byID
        ensures ClimbFrom(byID, runID, byID[id], {id}).ReachesRoot?
      {
        DepthClimbs(byID, runID, depth, id, {id});
      }
    }
  }

  // ----- Lists of tasks -----

  predicate Unique(tasks: seq<Task>)
  {
    forall i, j :: 0 <= i < j < |tasks| ==> tasks[i].id != tasks[j].id
  }

  lemma {:induction false} IndexUnique(tasks: seq<Task>, t: Task)
    requires Unique(tasks) && t in tasks
    ensures t.id in Index(tasks) && Index(tasks)[t.id] == t
  {
    var n := |tasks| - 1;
    var i :| 0 <= i < |tasks| && tasks[i] == t;
    if i < n {
      assert tasks[..n][i] == t;
      IndexUnique(tasks[..n], t);
    }
  }

  /** Main result for lists: validation accepts uniquely named tasks exactly when they form a forest. */
  lemma ValidatedExact(tasks: seq<Task>, runID: string)
    requires Unique(tasks)
    ensures AllClimb(tasks, runID) <==> EdgesSound(Index(tasks), runID) && exists depth :: IsDepth(Index(tasks), depth)
  {
    var byID := Index(tasks);
    TreeExact(byID, runID);
    if AllClimb(tasks, runID) {
      forall id | id in byID
        ensures ClimbFrom(byID, runID, byID[id], {id}).ReachesRoot?
      {
        var i :| 0 <= i < |tasks| && tasks[i] == byID[id];
      }
    }
    if Accepts(byID, runID) {
      forall i | 0 <= i < |tasks|
        ensures ClimbFrom(byID, runID, tasks[i], {tasks[i].id}).ReachesRoot?
      {
        IndexUnique(tasks, tasks[i]);
      }
    }
  }

  // ----- The gate from below -----

  type Rank = string -> nat

  /** The rank falls from the task to its parent, where the parent is known. */
  ghost predicate FallsFrom(byID: Tasks, rank: Rank, t: Task)
  {
    t.parent.Some? && t.parent.value in byID ==> rank(t.parent.value) < rank(t.id)
  }

  /** No chain of parents is cyclic; some may be broken off. */
  ghost predicate Falling(byID: Tasks, rank: Rank)
  {
    Filed(byID) && forall id {:trigger FallsFrom(byID, rank, byID[id])} :: id in byID ==> FallsFrom(byID, rank, byID[id])
  }

  /** Every edge from the task up to the stage is required, and none is broken. */
  ghost predicate RequiredChain(byID: Tasks, rank: Rank, t: Task)
    requires Falling(byID, rank) && FallsFrom(byID, rank, t)
    decreases rank(t.id)
  {
    t.mode == Required &&
    match t.parent
    case None => true
    case Some(p) =>
      p in byID &&
      (assert FallsFrom(byID, rank, byID[p]);
       RequiredChain(byID, rank, byID[p]))
  }

  method BlocksRootCompletion(byID: Tasks, t: Task, ghost rank: Rank) returns (blocks: bool)
    requires Falling(byID, rank) && FallsFrom(byID, rank, t)
    ensures blocks == RequiredChain(byID, rank, t)
  {
    var cur := t;
    while true
      invariant FallsFrom(byID, rank, cur)
      invariant RequiredChain(byID, rank, t) == RequiredChain(byID, rank, cur)
      decreases rank(cur.id)
    {
      if cur.mode != Required {
        return false;
      }
      if cur.parent.None? {
        return true;
      }
      if cur.parent.value !in byID {
        return false;
      }
      assert FallsFrom(byID, rank, byID[cur.parent.value]);
      cur := byID[cur.parent.value];
    }
  }

  /** A way from a task to the stage over required tasks alone. */
  ghost predicate RequiredPath(byID: Tasks, path: seq<Task>)
  {
    && path != []
    && (forall i :: 0 <= i < |path| ==> path[i].mode == Required)
    && path[|path| - 1].parent.None?
    && (forall i {:trigger ParentNext(byID, path, i)} :: 0 <= i < |path| - 1 ==> ParentNext(byID, path, i))
  }

  ghost predicate ParentNext(byID: Tasks, path: seq<Task>, i: nat)
    requires i + 1 < |path|
  {
    path[i].parent.Some? && path[i].parent.value in byID && byID[path[i].parent.value] == path[i + 1]
  }

  /** What blocking means, whether links are broken or not. */
  lemma {:induction false} ChainExact(byID: Tasks, rank: Rank, t: Task)
    requires Falling(byID, rank) && FallsFrom(byID, rank, t)
    ensures RequiredChain(byID, rank, t) <==> exists path :: RequiredPath(byID, path) && path[0] == t
    decreases rank(t.id)
  {
    if t.parent.None? {
      assert t.mode == Required ==> RequiredPath(byID, [t]);
    } else if t.parent.value in byID {
      var p := byID[t.parent.value];
      assert FallsFrom(byID, rank, p);
      ChainExact(byID, rank, p);
      if RequiredChain(byID, rank, t) {
        var path :| RequiredPath(byID, path) && path[0] == p;
        ChainLonger(byID, t, path);
      }
    }
    if path :| RequiredPath(byID, path) && path[0] == t {
      if |path| > 1 {
        assert ParentNext(byID, path, 0);
        ChainShorter(byID, path);
      }
    }
  }

  lemma ChainLonger(byID: Tasks, t: Task, path: seq<Task>)
    requires RequiredPath(byID, path) && t.mode == Required
    requires t.parent.Some? && t.parent.value in byID && byID[t.parent.value] == path[0]
    ensures RequiredPath(byID, [t] + path)
  {
    var longer := [t] + path;
    forall i | 0 <= i < |longer| - 1
      ensures ParentNext(byID, longer, i)
    {
      if i > 0 { assert ParentNext(byID, path, i - 1); }
    }
  }

  lemma ChainShorter(byID: Tasks, path: seq<Task>)
    requires RequiredPath(byID, path) && |path| > 1
    ensures RequiredPath(byID, path[1..])
  {
    var rest := path[1..];
    forall i | 0 <= i < |rest| - 1
      ensures ParentNext(byID, rest, i)
    {
      assert ParentNext(byID, path, i + 1);
    }
  }

  /** In a tree with depths, the depth is a rank. */
  function RankOf(depth: map<string, nat>): Rank
  {
    id => if id in depth then depth[id] else 0
  }

  lemma DepthFalls(byID: Tasks, depth: map<string, nat>)
    requires Filed(byID) && IsDepth(byID, depth)
    ensures Falling(byID, RankOf(depth))
  {
    forall id | id in byID
      ensures FallsFrom(byID, RankOf(depth), byID[id])
    {
      assert DepthFits(byID, depth, id);
    }
  }

  /** The task blocks the stage. */
  ghost predicate Blocks(byID: Tasks, depth: map<string, nat>, t: Task)
    requires Filed(byID) && IsDepth(byID, depth) && t.id in byID && byID[t.id] == t
  {
    DepthFalls(byID, depth);
    assert FallsFrom(byID, RankOf(depth), byID[t.id]);
    RequiredChain(byID, RankOf(depth), t)
  }

  // ----- The gate from above -----

  type Lister = Option<string> -> seq<Task>

  ghost predicate ChildOf(byID: Tasks, t: Task, p: Option<string>)
  {
    t.id in byID && byID[t.id] == t && t.parent == p
  }

  /** What is listed under one task (None stands for the stage itself) are tasks with that parent. */
  ghost predicate ListsChildren(byID: Tasks, children: Lister)
  {
    forall p, i :: 0 <= i < |children(p)| ==> ChildOf(byID, children(p)[i], p)
  }

  ghost predicate Listed(byID: Tasks, children: Lister, id: string)
  {
    id in byID ==> byID[id] in children(byID[id].parent)
  }

  /** No task is left out of its parent's list; the order is any. */
  ghost predicate ListsAll(byID: Tasks, children: Lister)
  {
    forall id :: Listed(byID, children, id)
  }

  ghost predicate AtDepth(byID: Tasks, depth: map<string, nat>, ts: seq<Task>, d: nat)
    requires IsDepth(byID, depth)
  {
    forall i :: 0 <= i < |ts| ==> ts[i].id in byID && byID[ts[i].id] == ts[i] && depth[ts[i].id] == d
  }

  lemma ChildrenAtDepth(byID: Tasks, depth: map<string, nat>, children: Lister, p: Option<string>)
    requires IsDepth(byID, depth) && ListsChildren(byID, children) && (p.Some? ==> p.value in byID)
    ensures AtDepth(byID, depth, children(p), if p.Some? then depth[p.value] + 1 else 0)
  {
    forall i | 0 <= i < |children(p)|
      ensures var t := children(p)[i];
        t.id in byID && byID[t.id] == t && depth[t.id] == if p.Some? then depth[p.value] + 1 else 0
    {
      assert ChildOf(byID, children(p)[i], p);
      assert DepthFits(byID, depth, children(p)[i].id);
    }
  }

  ghost predicate Bounded(depth: map<string, nat>, max: nat)
  {
    forall id :: id in depth ==> depth[id] <= max
  }

  /** The first open task of the required chains below ts. */
  ghost function Gate(byID: Tasks, depth: map<string, nat>, max: nat, children: Lister, closed: Task -> bool, ts: seq<Task>, d: nat): Option<Task>
    requires IsDepth(byID, depth) && Bounded(depth, max) && ListsChildren(byID, children) && AtDepth(byID, depth, ts, d)
    decreases if d <= max then max - d + 1 else 0, |ts|
  {
    if ts == [] then None
    else if ts[0].mode != Required then Gate(byID, depth, max, children, closed, ts[1..], d)
    else if !closed(ts[0]) then Some(ts[0])
    else
      ChildrenAtDepth(byID, depth, children, Some(ts[0].id));
      var below := Gate(byID, depth, max, children, closed, children(Some(ts[0].id)), d + 1);
      if below.Some? then below else Gate(byID, depth, max, children, closed, ts[1..], d)
  }

  method RequiredGateOpen(ts: seq<Task>, children: Lister, closed: Task -> bool,
                          ghost byID: Tasks, ghost depth: map<string, nat>, ghost max: nat, ghost d: nat)
    returns (open: bool, blocker: Option<Task>)
    requires IsDepth(byID, depth) && Bounded(depth, max) && ListsChildren(byID, children) && AtDepth(byID, depth, ts, d)
    ensures open == blocker.Some? && blocker == Gate(byID, depth, max, children, closed, ts, d)
    decreases if d <= max then max - d + 1 else 0
  {
    for i := 0 to |ts|
      invariant Gate(byID, depth, max, children, closed, ts, d) == Gate(byID, depth, max, children, closed, ts[i..], d)
    {
      var t := ts[i];
      assert ts[i..][1..] == ts[i + 1..];
      if t.mode != Required {
        continue;
      }
      if !closed(t) {
        return true, Some(t);
      }
      ChildrenAtDepth(byID, depth, children, Some(t.id));
      var below, found := RequiredGateOpen(children(Some(t.id)), children, closed, byID, depth, max, d + 1);
      if below {
        return true, found;
      }
    }
    open, blocker := false, None;
  }

  // ----- The two readings agree -----

  lemma {:induction false} GateSound(byID: Tasks, depth: map<string, nat>, max: nat, children: Lister, closed: Task -> bool, ts: seq<Task>, d: nat)
    requires Filed(byID) && IsDepth(byID, depth) && Bounded(depth, max) && ListsChildren(byID, children) && AtDepth(byID, depth, ts, d)
    requires forall i :: 0 <= i < |ts| && ts[i].mode == Required ==> Blocks(byID, depth, ts[i])
    ensures var found := Gate(byID, depth, max, children, closed, ts, d);
      found.Some? ==>
        found.value.id in byID && byID[found.value.id] == found.value && Blocks(byID, depth, found.value) && !closed(found.value)
    decreases if d <= max then max - d + 1 else 0, |ts|
  {
    if ts != [] {
      GateSound(byID, depth, max, children, closed, ts[1..], d);
      if ts[0].mode == Required && closed(ts[0]) {
        var below := children(Some(ts[0].id));
        ChildrenAtDepth(byID, depth, children, Some(ts[0].id));
        forall i | 0 <= i < |below| && below[i].mode == Required
          ensures Blocks(byID, depth, below[i])
        {
          assert ChildOf(byID, children(Some(ts[0].id))[i], Some(ts[0].id));
          assert DepthFits(byID, depth, below[i].id);
        }
        GateSound(byID, depth, max, children, closed, below, d + 1);
      }
    }
  }

  /** A required task that is open, or has one open below it, is not overlooked among its siblings. */
  lemma {:induction false} GateFinds(byID: Tasks, depth: map<string, nat>, max: nat, children: Lister, closed: Task -> bool, ts: seq<Task>, d: nat, i: nat)
    requires IsDepth(byID, depth) && Bounded(depth, max) && ListsChildren(byID, children) && AtDepth(byID, depth, ts, d)
    requires i < |ts| && ts[i].mode == Required && AtDepth(byID, depth, children(Some(ts[i].id)), d + 1)
    requires !closed(ts[i]) || Gate(byID, depth, max, children, closed, children(Some(ts[i].id)), d + 1).Some?
    ensures Gate(byID, depth, max, children, closed, ts, d).Some?
    decreases i
  {
    if i > 0 {
      GateFinds(byID, depth, max, children, closed, ts[1..], d, i - 1);
    }
  }

  lemma {:induction false} GateReached(byID: Tasks, depth: map<string, nat>, max: nat, children: Lister, closed: Task -> bool, t: Task)
    requires Filed(byID) && IsDepth(byID, depth) && Bounded(depth, max) && ListsChildren(byID, children) && ListsAll(byID, children)
    requires t.id in byID && byID[t.id] == t && Blocks(byID, depth, t)
    requires AtDepth(byID, depth, children(Some(t.id)), depth[t.id] + 1)
    requires !closed(t) || Gate(byID, depth, max, children, closed, children(Some(t.id)), depth[t.id] + 1).Some?
    requires AtDepth(byID, depth, children(None), 0)
    ensures Gate(byID, depth, max, children, closed, children(None), 0).Some?
    decreases depth[t.id]
  {
    var siblings := children(t.parent);
    assert Listed(byID, children, t.id) && DepthFits(byID, depth, t.id);
    ChildrenAtDepth(byID, depth, children, t.parent);
    var i :| 0 <= i < |siblings| && siblings[i] == t;
    GateFinds(byID, depth, max, children, closed, siblings, depth[t.id], i);
    if t.parent.Some? {
      GateReached(byID, depth, max, children, closed, byID[t.parent.value]);
    }
  }

  /** Main result: in an accepted tree the walk down from the stage finds a blocker exactly when some open task blocks the
      stage seen from below, and what it returns is such a task. */
  lemma GateExact(byID: Tasks, depth: map<string, nat>, max: nat, children: Lister, closed: Task -> bool)
    requires Filed(byID) && IsDepth(byID, depth) && Bounded(depth, max) && ListsChildren(byID, children) && ListsAll(byID, children)
    ensures AtDepth(byID, depth, children(None), 0)
    ensures var found := Gate(byID, depth, max, children, closed, children(None), 0);
      && (found.Some? <==> exists id :: id in byID && Blocks(byID, depth, byID[id]) && !closed(byID[id]))
      && (found.Some? ==>
            && found.value.id in byID && byID[found.value.id] == found.value
            && Blocks(byID, depth, found.value) && !closed(found.value))
  {
    ChildrenAtDepth(byID, depth, children, None);
    forall i | 0 <= i < |children(None)| && children(None)[i].mode == Required
      ensures Blocks(byID, depth, children(None)[i])
    {
      assert ChildOf(byID, children(None)[i], None);
    }
    GateSound(byID, depth, max, children, closed, children(None), 0);
    if id :| id in byID && Blocks(byID, depth, byID[id]) && !closed(byID[id]) {
      ChildrenAtDepth(byID, depth, children, Some(id));
      GateReached(byID, depth, max, children, closed, byID[id]);
    }
  }

  lemma {:induction false} BoundExists(depth: map<string, nat>) returns (max: nat)
    ensures Bounded(depth, max)
    decreases |depth|
  {
    if depth == map[] {
      max := 0;
    } else {
      var id :| id in depth;
      max := BoundExists(depth - {id});
      max := if depth[id] > max then depth[id] else max;
      assert forall k :: k in depth ==> k == id || k in depth - {id};
    }
  }

  /** From the list to the gate: when validation accepts uniquely named tasks, the gate below the stage is open exactly
      when some unclosed task of the list blocks the stage, and what it returns is one. */
  lemma ValidatedGate(tasks: seq<Task>, runID: string, children: Lister, closed: Task -> bool) returns (depth: map<string, nat>, max: nat)
    requires Unique(tasks) && AllClimb(tasks, runID)
    requires ListsChildren(Index(tasks), children) && ListsAll(Index(tasks), children)
    ensures IsDepth(Index(tasks), depth) && Bounded(depth, max) && AtDepth(Index(tasks), depth, children(None), 0)
    ensures forall t :: t in tasks ==> t.id in Index(tasks) && Index(tasks)[t.id] == t
    ensures var found := Gate(Index(tasks), depth, max, children, closed, children(None), 0);
      && (found.Some? <==> exists t :: t in tasks && Blocks(Index(tasks), depth, t) && !closed(t))
      && (found.Some? ==> found.value in tasks && Blocks(Index(tasks), depth, found.value) && !closed(found.value))
  {
    ValidatedExact(tasks, runID);
    depth :| IsDepth(Index(tasks), depth);
    max := BoundExists(depth);
    GateExact(Index(tasks), depth, max, children, closed);
    forall t | t in tasks
      ensures t.id in Index(tasks) && Index(tasks)[t.id] == t
    {
      IndexUnique(tasks, t);
    }
  }
}
