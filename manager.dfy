/** The orchestration layer (`ClusterManager`): registered algorithms, per-algorithm and global
    recompute tasks with cancel-then-replace, and the zoom-change debounce. */
module Manager {
  import opened Geo
  import opened Lists
  import opened Clusters
  import opened Grid
  import opened Scheduling

  /** What a task hands to the renderer: each algorithm with its clusters, or with nothing. */
  type Results = set<(GridAlgorithm, Option<set<ClusterState>>)>

  /** The calls the manager makes on its renderer. */
  datatype RendererCall = ClustersChanged(sets: Results) | ClearCache

  /** The handler message that triggers a global recompute. */
  const MESSAGE_CLUSTER := 0

  function ListOrEmpty(list: Option<seq<GridAlgorithm>>): seq<GridAlgorithm>
  {
    if list.Some? then list.value else []
  }

  /** A `ClusterManager` object. Its task fields together form a `Scheduler` value (`Sched()`).
      `hasMap` is whether the manager was given a map; camera zooms are inputs. `computed` records,
      per task, the result its background computation returned: the value the framework later hands
      to that task's `onPostExecute`. */
  class ClusterManager {
    const hasMap: bool
    const proj: Projection
    var algorithms: Option<seq<GridAlgorithm>>
    var clusterTasks: map<GridAlgorithm, nat>
    var globalTask: Option<nat>
    var tasks: seq<Task>
    var cancelled: set<nat>
    var finished: set<nat>
    var previousZoom: Option<int>
    var debouncePending: bool
    var debounceResets: nat
    var rendered: seq<RendererCall>
    ghost var computed: map<nat, Results>

    /** The task bookkeeping as a value. */
    ghost function Sched(): Scheduler
      reads this`clusterTasks, this`globalTask, this`tasks, this`cancelled, this`finished
    {
      Scheduler(clusterTasks, globalTask, tasks, cancelled, finished)
    }

    ghost predicate Live(t: nat)
      reads this`clusterTasks, this`globalTask, this`tasks, this`cancelled, this`finished
    {
      Sched().Live(t)
    }

    ghost predicate Valid()
      reads this`algorithms, this`clusterTasks, this`globalTask, this`tasks, this`cancelled, this`finished
    {
      (algorithms.Some? ==> NoDuplicates(algorithms.value)) && Sched().Valid()
    }

    /** Nothing scheduled, cancelled or delivered, and no recorded result touched. */
    twostate predicate SameScheduling()
      reads this
    {
      Sched() == old(Sched()) && computed == old(computed)
    }

    twostate predicate SameCamera()
      reads this
    {
      previousZoom == old(previousZoom) && debouncePending == old(debouncePending) &&
      debounceResets == old(debounceResets)
    }

    /** The effect of `cluster()` on the scheduling state. */
    twostate predicate ReclusteredAll(camera: Option<int>)
      reads this
    {
      computed == old(computed) &&
      Sched() == if !hasMap || camera.None? then old(Sched()) else old(Sched()).ClusterAll(camera.value)
    }

    /** The effect of `clusterAlgo(a)` on the scheduling state. */
    twostate predicate ReclusteredAlgo(a: GridAlgorithm, camera: Option<int>)
      reads this
    {
      computed == old(computed) &&
      Sched() == if !hasMap || old(globalTask).Some? || camera.None? then old(Sched())
                 else old(Sched()).ClusterAlgo(a, camera.value)
    }

    constructor (hasMap: bool, proj: Projection)
      ensures Valid()
      ensures this.hasMap == hasMap && this.proj == proj
      ensures algorithms.None? && Sched() == Idle
      ensures previousZoom.None? && !debouncePending && rendered == [] && computed == map[]
    {
      this.hasMap, this.proj := hasMap, proj;
      algorithms, clusterTasks, globalTask := None, map[], None;
      tasks, cancelled, finished := [], {}, {};
      previousZoom, debouncePending, debounceResets := None, false, 0;
      rendered, computed := [], map[];
      IdleIsValid();
    }

    /** `addClusterAlgorithm`: registers `a` once (a null algorithm is ignored), then recomputes it. */
    method AddClusterAlgorithm(a: GridAlgorithm?, camera: Option<int>)
      requires Valid()
      modifies this
      ensures Valid()
      ensures a == null ==> unchanged(this)
      ensures a != null ==>
        algorithms == Some(AppendIfAbsent(ListOrEmpty(old(algorithms)), a)) &&
        ReclusteredAlgo(a, camera) && rendered == old(rendered) && SameCamera()
    {
      if a == null {
        return;
      }
      algorithms := Some(AppendIfAbsent(ListOrEmpty(algorithms), a));
      ClusterAlgo(a, camera);
    }

    /** `removeClusterAlgorithm`: unregisters `a` and tells the renderer it has no clusters; it
        schedules nothing. The list must exist (the source dereferences it). */
    method RemoveClusterAlgorithm(a: GridAlgorithm?)
      requires Valid()
      requires a != null ==> algorithms.Some?
      modifies this
      ensures Valid()
      ensures a == null ==> unchanged(this)
      ensures a != null ==>
        algorithms == Some(RemoveFirst(old(algorithms).value, a)) && a !in algorithms.value &&
        (forall b :: b in old(algorithms).value && b != a ==> b in algorithms.value) &&
        rendered == old(rendered) + [ClustersChanged({(a, None)})] &&
        SameScheduling() && SameCamera()
    {
      if a == null {
        return;
      }
      RemoveFirstNoDuplicates(algorithms.value, a);
      algorithms := Some(RemoveFirst(algorithms.value, a));
      rendered := rendered + [ClustersChanged({(a, None)})];
    }

    /** `clearItems(algo)`: empties the registry of `algo`, then recomputes it. */
    method ClearItems(algo: GridAlgorithm?, camera: Option<int>)
      requires Valid()
      modifies this, if algo == null then {} else {algo}
      ensures Valid()
      ensures algo == null ==> unchanged(this)
      ensures algo != null ==>
        algo.items == {} && algo.gridSize == old(algo.gridSize) &&
        ReclusteredAlgo(algo, camera) && algorithms == old(algorithms) && rendered == old(rendered) && SameCamera()
    {
      if algo == null {
        return;
      }
      algo.ClearItems();
      ClusterAlgo(algo, camera);
    }

    /** `addItems(items, algo)`: adds the items to the registry of `algo`, then recomputes it. */
    method AddItems(its: seq<Item>, algo: GridAlgorithm?, camera: Option<int>)
      requires Valid()
      modifies this, if algo == null then {} else {algo}
      ensures Valid()
      ensures algo == null ==> unchanged(this)
      ensures algo != null ==>
        algo.items == old(algo.items) + (set it | it in its) && algo.gridSize == old(algo.gridSize) &&
        ReclusteredAlgo(algo, camera) && algorithms == old(algorithms) && rendered == old(rendered) && SameCamera()
    {
      if algo == null {
        return;
      }
      algo.AddItems(its);
      ClusterAlgo(algo, camera);
    }

    /** `addItem(item, algo)`: adds the item to the registry of `algo`, then recomputes it. */
    method AddItem(it: Item, algo: GridAlgorithm?, camera: Option<int>)
      requires Valid()
      modifies this, if algo == null then {} else {algo}
      ensures Valid()
      ensures algo == null ==> unchanged(this)
      ensures algo != null ==>
        algo.items == old(algo.items) + {it} && algo.gridSize == old(algo.gridSize) &&
        ReclusteredAlgo(algo, camera) && algorithms == old(algorithms) && rendered == old(rendered) && SameCamera()
    {
      if algo == null {
        return;
      }
      algo.AddItem(it);
      ClusterAlgo(algo, camera);
    }

    /** `removeItem(item, algo)`: removes the item from the registry of `algo`, then recomputes it. */
    method RemoveItem(it: Item, algo: GridAlgorithm?, camera: Option<int>)
      requires Valid()
      modifies this, if algo == null then {} else {algo}
      ensures Valid()
      ensures algo == null ==> unchanged(this)
      ensures algo != null ==>
        algo.items == old(algo.items) - {it} && algo.gridSize == old(algo.gridSize) &&
        ReclusteredAlgo(algo, camera) && algorithms == old(algorithms) && rendered == old(rendered) && SameCamera()
    {
      if algo == null {
        return;
      }
      algo.RemoveItem(it);
      ClusterAlgo(algo, camera);
    }

    /** The loop of `cluster()` that calls `cancel(true)` on every task of the per-algorithm table. */
    method CancelTableTasks()
      modifies this`cancelled
      ensures cancelled == old(cancelled) + clusterTasks.Values
    {
      var pending := clusterTasks.Values;
      while pending != {}
        invariant pending <= clusterTasks.Values
        invariant cancelled == old(cancelled) + (clusterTasks.Values - pending)
        decreases pending
      {
        var t :| t in pending;
        cancelled := cancelled + {t};
        pending := pending - {t};
      }
    }

    /** `cluster()`: with a map and a camera position, cancels every per-algorithm task and the
        global one, empties the table and launches a fresh global task at the camera's zoom. */
    method Cluster(camera: Option<int>)
      requires Valid()
      modifies this
      ensures Valid()
      ensures ReclusteredAll(camera) && algorithms == old(algorithms) && rendered == old(rendered) && SameCamera()
    {
      if !hasMap || camera.None? {
        return;
      }
      var zoom := camera.value;
      ghost var s0 := Sched();
      ClusterAllSupersedes(s0, zoom);
      CancelTableTasks();
      clusterTasks := map[];
      if globalTask.Some? {
        cancelled := cancelled + {globalTask.value};
      }
      globalTask := Some(|tasks|);
      tasks := tasks + [Task(None, zoom)];
      assert Sched() == s0.ClusterAll(zoom);
    }

    /** `clusterAlgo(a)`: unless there is no map or a global task is in flight, cancels the task
        mapped to `a` and maps `a` to a fresh task at the camera's zoom. */
    method ClusterAlgo(a: GridAlgorithm, camera: Option<int>)
      requires Valid()
      modifies this
      ensures Valid()
      ensures ReclusteredAlgo(a, camera) && algorithms == old(algorithms) && rendered == old(rendered) && SameCamera()
    {
      if !hasMap || globalTask.Some? {
        return;
      }
      if camera.None? {
        return;
      }
      ghost var s0 := Sched();
      ClusterAlgoSupersedes(s0, a, camera.value);
      if a in clusterTasks {
        cancelled := cancelled + {clusterTasks[a]};
      }
      clusterTasks := clusterTasks[a := |tasks|];
      tasks := tasks + [Task(Some(a), camera.value)];
      assert Sched() == s0.ClusterAlgo(a, camera.value);
    }

    /** `CameraChangeHandler.handleMessage`: the cluster message triggers a global recompute. */
    method HandleMessage(what: int, camera: Option<int>)
      requires Valid()
      modifies this
      ensures Valid()
      ensures what != MESSAGE_CLUSTER ==> unchanged(this)
      ensures what == MESSAGE_CLUSTER ==>
        ReclusteredAll(camera) && algorithms == old(algorithms) && rendered == old(rendered) && SameCamera()
    {
      if what == MESSAGE_CLUSTER {
        Cluster(camera);
      }
    }

    /** `onCameraChange`: restarts the debounce timer only when there is no previous camera position
        or the zoom changed, and always records the current zoom. */
    method OnCameraChange(zoom: int)
      requires Valid()
      requires hasMap
      modifies this
      ensures Valid()
      ensures previousZoom == Some(zoom)
      ensures old(previousZoom).None? || old(previousZoom).value != zoom ==>
        debouncePending && debounceResets == old(debounceResets) + 1
      ensures old(previousZoom).Some? && old(previousZoom).value == zoom ==>
        debouncePending == old(debouncePending) && debounceResets == old(debounceResets)
      ensures SameScheduling() && algorithms == old(algorithms) && rendered == old(rendered)
    {
      if previousZoom.None? || previousZoom.value != zoom {
        debouncePending := true;
        debounceResets := debounceResets + 1;
      }
      previousZoom := Some(zoom);
    }

    /** The delay elapses with the cluster message still queued: the handler receives it. */
    method DebounceElapsed(camera: Option<int>)
      requires Valid()
      modifies this
      ensures Valid()
      ensures !old(debouncePending) ==> unchanged(this)
      ensures old(debouncePending) ==>
        !debouncePending && ReclusteredAll(camera) &&
        previousZoom == old(previousZoom) && debounceResets == old(debounceResets) &&
        algorithms == old(algorithms) && rendered == old(rendered)
    {
      if debouncePending {
        debouncePending := false;
        HandleMessage(MESSAGE_CLUSTER, camera);
      }
    }

    /** The algorithms a task computes clusters for, read when it runs. */
    ghost function Scope(t: nat): set<GridAlgorithm>
      requires t < |tasks|
      reads this`tasks, this`algorithms
    {
      match tasks[t].algorithm
      case Some(a) => {a}
      case None => set a | a in ListOrEmpty(algorithms)
    }

    /** What task `t`'s background computation may return in the current state: one pair per
        algorithm in its scope, each holding what `getClusters` returns for that algorithm at the
        task's zoom. */
    ghost predicate IsTaskResult(t: nat, sets: Results)
      requires t < |tasks|
      reads this`tasks, this`algorithms, set p | p in sets :: p.0
    {
      (forall p :: p in sets ==>
        p.0 in Scope(t) &&
        GetClustersSpec(p.0.items, p.0.gridSize, p.0.minZoom, p.0.maxZoom, tasks[t].zoom, proj, p.1)) &&
      (forall a :: a in Scope(t) ==> exists p :: p in sets && p.0 == a) &&
      (forall p, q :: p in sets && q in sets && p.0 == q.0 ==> p == q)
    }

    /** `ClusterTask.doInBackground`: `getClusters` at the task's zoom, for its algorithm or for every
        registered one. With no list the global branch fails inside `try` and its `finally` returns
        the empty set. */
    method DoInBackground(t: nat) returns (sets: Results)
      requires Valid() && t < |tasks|
      ensures IsTaskResult(t, sets)
      ensures tasks[t].algorithm.None? && algorithms.None? ==> sets == {}
    {
      var zoom := tasks[t].zoom;
      match tasks[t].algorithm {
        case Some(a) =>
          var r := a.GetClusters(zoom, proj);
          sets := {(a, r)};
        case None =>
          sets := {};
          if algorithms.Some? {
            var list := algorithms.value;
            var i := 0;
            while i < |list|
              invariant 0 <= i <= |list|
              invariant forall p :: p in sets ==>
                p.0 in list[..i] &&
                GetClustersSpec(p.0.items, p.0.gridSize, p.0.minZoom, p.0.maxZoom, zoom, proj, p.1)
              invariant forall j :: 0 <= j < i ==> exists p :: p in sets && p.0 == list[j]
              invariant forall p, q :: p in sets && q in sets && p.0 == q.0 ==> p == q
            {
              var r := list[i].GetClusters(zoom, proj);
              assert list[i] !in list[..i];
              sets := sets + {(list[i], r)};
              assert list[..i + 1] == list[..i] + [list[i]];
              i := i + 1;
            }
            forall a | a in Scope(t) ensures exists p :: p in sets && p.0 == a {
              var j :| 0 <= j < |list| && list[j] == a;
            }
          }
      }
    }

    /** The framework runs task `t`'s background computation and keeps its result for the task's
        `onPostExecute`. */
    method RunTask(t: nat) returns (sets: Results)
      requires Valid() && t < |tasks|
      modifies this`computed
      ensures IsTaskResult(t, sets)
      ensures computed == old(computed)[t := sets]
    {
      sets := DoInBackground(t);
      computed := computed[t := sets];
    }

    /** `ClusterTask.onPostExecute` for a task that was not cancelled (a cancelled task's handler
        never runs), has not run before, and whose background computation returned `sets`: clears
        the task's slot and hands exactly those results to the renderer. */
    method OnPostExecute(t: nat, sets: Results)
      requires Valid() && Live(t)
      requires t in computed && sets == computed[t]
      modifies this
      ensures Valid()
      ensures Sched() == old(Sched()).PostExecute(t)
      ensures algorithms == old(algorithms) && computed == old(computed) && SameCamera()
      ensures rendered == old(rendered) + [ClustersChanged(computed[t])]
    {
      ghost var s0 := Sched();
      PostExecuteClearsSlot(s0, t);
      match tasks[t].algorithm {
        case Some(a) => clusterTasks := clusterTasks - {a};
        case None => globalTask := None;
      }
      finished := finished + {t};
      rendered := rendered + [ClustersChanged(sets)];
      assert Sched() == s0.PostExecute(t);
    }

    /** `removeItems()`: empties the registry of every registered algorithm, then clears the
        renderer's cache. The list must exist (the source iterates it). */
    method RemoveItems()
      requires Valid() && algorithms.Some?
      modifies this, set a | a in algorithms.value
      ensures Valid()
      ensures algorithms == old(algorithms) && SameScheduling() && SameCamera()
      ensures forall j :: 0 <= j < |algorithms.value| ==>
        algorithms.value[j].items == {} && algorithms.value[j].gridSize == old(algorithms.value[j].gridSize)
      ensures rendered == old(rendered) + [ClearCache]
    {
      var list := algorithms.value;
      var i := 0;
      while i < |list|
        invariant 0 <= i <= |list|
        invariant unchanged(this)
        invariant forall j :: 0 <= j < i ==> list[j].items == {}
        invariant forall j :: i <= j < |list| ==> list[j].items == old(list[j].items)
        invariant forall j :: 0 <= j < |list| ==> list[j].gridSize == old(list[j].gridSize)
      {
        list[i].ClearItems();
        i := i + 1;
      }
      rendered := rendered + [ClearCache];
    }

    /** `removeItemsNotInRectangle(b)`: applies the same removal to every registered algorithm. */
    method RemoveItemsNotInRectangle(b: Bounds)
      requires Valid() && algorithms.Some?
      modifies set a | a in algorithms.value
      ensures unchanged(this)
      ensures forall j :: 0 <= j < |algorithms.value| ==>
        algorithms.value[j].items == (set it | it in old(algorithms.value[j].items) && Contains(b, it.position)) &&
        algorithms.value[j].gridSize == old(algorithms.value[j].gridSize)
    {
      var list := algorithms.value;
      var i := 0;
      while i < |list|
        invariant 0 <= i <= |list|
        invariant forall j :: 0 <= j < i ==>
          list[j].items == set it | it in old(list[j].items) && Contains(b, it.position)
        invariant forall j :: i <= j < |list| ==> list[j].items == old(list[j].items)
        invariant forall j :: 0 <= j < |list| ==> list[j].gridSize == old(list[j].gridSize)
      {
        list[i].RemoveItemsNotInRectangle(b);
        i := i + 1;
      }
    }
  }

  /** `removeClusterAlgorithm(a)` leaves `a`'s live task in place, so when that task later delivers,
      the renderer is told `a` has no clusters and then handed clusters for `a` again. */
  method StaleDeliveryAfterRemoval(m: ClusterManager, a: GridAlgorithm) returns (sets: Results)
    requires m.Valid() && m.algorithms.Some? && a in m.clusterTasks
    modifies m
    ensures m.Valid() && m.algorithms.Some? && a !in m.algorithms.value
    ensures exists c :: sets == {(a, c)}
    ensures m.rendered == old(m.rendered) + [ClustersChanged({(a, None)}), ClustersChanged(sets)]
  {
    var t := m.clusterTasks[a];
    sets := m.RunTask(t);
    assert m.Scope(t) == {a};
    var p :| p in sets && p.0 == a;
    assert sets == {p};
    m.RemoveClusterAlgorithm(a);
    m.OnPostExecute(t, sets);
  }
}
