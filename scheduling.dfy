/** The task bookkeeping of `ClusterManager` as a value: the per-algorithm task table, the global
    task slot and the record of which tasks were cancelled or have delivered. */
module Scheduling {
  import opened Geo
  import opened Grid

  /** A `ClusterTask`: for one algorithm, or for all of them (`null` in the source), run at a zoom. */
  datatype Task = Task(algorithm: Option<GridAlgorithm>, zoom: int)

  function TaskSet(t: Option<nat>): set<nat>
  {
    if t.Some? then {t.value} else {}
  }

  /** Tasks are numbered in launch order: `tasks` is every task launched, `cancelled` those whose
      `cancel(true)` was called, `finished` those whose `onPostExecute` ran. */
  datatype Scheduler = Scheduler(clusterTasks: map<GridAlgorithm, nat>, globalTask: Option<nat>,
                                 tasks: seq<Task>, cancelled: set<nat>, finished: set<nat>)
  {
    /** A launched task that is neither cancelled nor finished: its result may still arrive. */
    predicate Live(t: nat)
    {
      t < |tasks| && t !in cancelled && t !in finished
    }

    /** "Last request wins": a live task that has any later task is per-algorithm, and every later
        task is for another algorithm; so a live global task is the latest task launched. */
    ghost predicate LastRequestWins()
    {
      forall t, u :: 0 <= t < u < |tasks| && Live(t) ==>
        tasks[t].algorithm.Some? && tasks[u].algorithm.Some? && tasks[u].algorithm != tasks[t].algorithm
    }

    ghost predicate Valid()
    {
      (forall t :: t in cancelled ==> t < |tasks|) &&
      (forall t :: t in finished ==> t < |tasks|) &&
      // no table entry is a cancelled or finished task; each entry is a task for its key
      (forall a: GridAlgorithm :: a in clusterTasks ==>
        Live(clusterTasks[a]) && tasks[clusterTasks[a]].algorithm == Some(a)) &&
      (globalTask.Some? ==>
        Live(globalTask.value) && tasks[globalTask.value].algorithm.None? && clusterTasks == map[]) &&
      // every live task sits in its slot
      (forall t :: 0 <= t < |tasks| && Live(t) && tasks[t].algorithm.None? ==> globalTask == Some(t)) &&
      (forall t :: 0 <= t < |tasks| && Live(t) && tasks[t].algorithm.Some? ==>
        tasks[t].algorithm.value in clusterTasks && clusterTasks[tasks[t].algorithm.value] == t) &&
      LastRequestWins()
    }

    /** `cluster()`: cancel every table task and the global task, empty the table, launch a global
        task. */
    function ClusterAll(zoom: int): (r: Scheduler)
      ensures |r.tasks| == |tasks| + 1 && r.tasks[..|tasks|] == tasks
      ensures r.tasks[|tasks|] == Task(None, zoom) && r.globalTask == Some(|tasks|)
      ensures cancelled <= r.cancelled && r.finished == finished
      ensures forall t :: t in clusterTasks.Values || Some(t) == globalTask ==> t in r.cancelled
    {
      Scheduler(map[], Some(|tasks|), tasks + [Task(None, zoom)],
                cancelled + clusterTasks.Values + TaskSet(globalTask), finished)
    }

    /** `clusterAlgo(a)` when it is not suppressed: cancel the task mapped to `a` and map `a` to a
        new task. */
    function ClusterAlgo(a: GridAlgorithm, zoom: int): (r: Scheduler)
      ensures |r.tasks| == |tasks| + 1 && r.tasks[..|tasks|] == tasks
      ensures r.tasks[|tasks|] == Task(Some(a), zoom) && a in r.clusterTasks && r.clusterTasks[a] == |tasks|
      ensures cancelled <= r.cancelled && r.finished == finished && r.globalTask == globalTask
      ensures a in clusterTasks ==> clusterTasks[a] in r.cancelled
      ensures r.clusterTasks.Keys == clusterTasks.Keys + {a}
    {
      Scheduler(clusterTasks[a := |tasks|], globalTask, tasks + [Task(Some(a), zoom)],
                cancelled + (if a in clusterTasks then {clusterTasks[a]} else {}), finished)
    }

    /** The bookkeeping of `onPostExecute`: clear the slot of the task's scope. */
    function PostExecute(t: nat): (r: Scheduler)
      requires t < |tasks|
      ensures r.tasks == tasks && r.cancelled == cancelled && r.finished == finished + {t}
      ensures tasks[t].algorithm.Some? ==> tasks[t].algorithm.value !in r.clusterTasks
      ensures tasks[t].algorithm.None? ==> r.globalTask.None?
    {
      match tasks[t].algorithm
      case Some(a) => this.(clusterTasks := clusterTasks - {a}, finished := finished + {t})
      case None => this.(globalTask := None, finished := finished + {t})
    }
  }

  /** The bookkeeping of a new manager. */
  const Idle := Scheduler(map[], None, [], {}, {})

  lemma IdleIsValid()
    ensures Idle.Valid() && Idle.globalTask.None?
  {
  }

  /** `cluster()` keeps the invariant, cancels every task that could still deliver (in particular
      every table task and the previous global task), and only its new task is live. */
  lemma ClusterAllSupersedes(s: Scheduler, zoom: int)
    requires s.Valid()
    ensures var r := s.ClusterAll(zoom);
      r.Valid() && r.Live(|s.tasks|) &&
      (forall t :: 0 <= t < |s.tasks| ==> !r.Live(t)) &&
      (forall t :: t in s.clusterTasks.Values ==> t in r.cancelled)
  {
    var r := s.ClusterAll(zoom);
    var n := |s.tasks|;
    forall t | 0 <= t < n ensures !r.Live(t) {
      if s.Live(t) {
        assert r.tasks[t] == s.tasks[t];
        if s.tasks[t].algorithm.Some? {
          assert s.clusterTasks[s.tasks[t].algorithm.value] == t;
        }
      }
    }
    forall t | t in r.cancelled ensures t < |r.tasks| {
      if t in s.clusterTasks.Values {
        var b :| b in s.clusterTasks && s.clusterTasks[b] == t;
      }
    }
  }

  /** `clusterAlgo(a)` with no global task in flight keeps the invariant: the task mapped to `a`
      before can no longer deliver, the new task is live and mapped to `a`, and every other table
      entry stays as it was. */
  lemma ClusterAlgoSupersedes(s: Scheduler, a: GridAlgorithm, zoom: int)
    requires s.Valid() && s.globalTask.None?
    ensures var r := s.ClusterAlgo(a, zoom);
      r.Valid() && r.Live(|s.tasks|) && r.clusterTasks[a] == |s.tasks| &&
      (a in s.clusterTasks ==> !r.Live(s.clusterTasks[a])) &&
      (forall b :: b in s.clusterTasks && b != a ==> b in r.clusterTasks && r.clusterTasks[b] == s.clusterTasks[b])
  {
    var r := s.ClusterAlgo(a, zoom);
    var n := |s.tasks|;
    forall t | 0 <= t < n && r.Live(t)
      ensures s.Live(t) && r.tasks[t] == s.tasks[t] && r.tasks[t].algorithm.Some?
      ensures r.tasks[t].algorithm != Some(a) && r.clusterTasks[r.tasks[t].algorithm.value] == t
    {
      assert s.clusterTasks[s.tasks[t].algorithm.value] == t;
    }
    forall b: GridAlgorithm | b in r.clusterTasks && b != a
      ensures r.Live(r.clusterTasks[b]) && r.tasks[r.clusterTasks[b]].algorithm == Some(b)
    {
      assert s.Live(s.clusterTasks[b]);
    }
    assert r.Live(n);
    forall t, u | 0 <= t < u < |r.tasks| && r.Live(t)
      ensures r.tasks[t].algorithm.Some? && r.tasks[u].algorithm.Some? && r.tasks[u].algorithm != r.tasks[t].algorithm
    {
      assert s.Live(t) && r.tasks[t] == s.tasks[t];
    }
  }

  /** A live task's completion keeps the invariant and clears exactly its own slot: the table entry
      of its algorithm, which points at it, or the global slot, which holds it. */
  lemma PostExecuteClearsSlot(s: Scheduler, t: nat)
    requires s.Valid() && s.Live(t)
    ensures var r := s.PostExecute(t);
      r.Valid() && !r.Live(t) &&
      (s.tasks[t].algorithm.Some? ==>
        var a := s.tasks[t].algorithm.value;
        a in s.clusterTasks && s.clusterTasks[a] == t && r.clusterTasks == s.clusterTasks - {a} &&
        r.globalTask == s.globalTask) &&
      (s.tasks[t].algorithm.None? ==>
        s.globalTask == Some(t) && r.globalTask.None? && r.clusterTasks == s.clusterTasks)
  {
    var r := s.PostExecute(t);
    forall u | 0 <= u < |r.tasks| && r.Live(u) ensures s.Live(u) && u != t {
    }
    forall b: GridAlgorithm | b in r.clusterTasks
      ensures r.Live(r.clusterTasks[b]) && r.tasks[r.clusterTasks[b]].algorithm == Some(b)
    {
      assert s.Live(s.clusterTasks[b]);
    }
    forall u, v | 0 <= u < v < |r.tasks| && r.Live(u)
      ensures r.tasks[u].algorithm.Some? && r.tasks[v].algorithm.Some? && r.tasks[v].algorithm != r.tasks[u].algorithm
    {
      assert s.Live(u);
    }
  }

  /** Two `clusterAlgo(a)` requests in a row: the first task is cancelled before it can deliver,
      and only the second can reach the renderer. */
  lemma RepeatedRequestSupersedes(s: Scheduler, a: GridAlgorithm, zoom1: int, zoom2: int)
    requires s.Valid() && s.globalTask.None?
    ensures var r := s.ClusterAlgo(a, zoom1).ClusterAlgo(a, zoom2);
      r.Valid() && !r.Live(|s.tasks|) && r.Live(|s.tasks| + 1) && r.clusterTasks[a] == |s.tasks| + 1
  {
    ClusterAlgoSupersedes(s, a, zoom1);
    ClusterAlgoSupersedes(s.ClusterAlgo(a, zoom1), a, zoom2);
  }
}
