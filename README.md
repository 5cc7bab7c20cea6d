# Grid clustering of map markers

This project models the clustering core of an Android map-utilities library.

- **StaticCluster** is a cluster object. It holds an ordered member list and recomputes its bounds and centre on `update()`.
- **GridBasedAlgorithm** is an item registry with set semantics. Its `getClusters` pass buckets the visible items into cells of a square grid whose size depends on the zoom.
- **ClusterManager** orchestrates the rest:
  - it keeps a list of registered algorithms;
  - it keeps a table of in-flight recompute tasks, one per algorithm, plus one global task;
  - when it launches a new task it cancels the old one, so the last request wins;
  - it debounces camera moves so that only zoom changes trigger a global recompute.

Modules:

| file | module | models |
|---|---|---|
| `lists.dfy` | `Lists` | the `java.util.List` operations the code relies on (`remove(Object)`, and add-if-absent) |
| `geo.dfy` | `Geo` | positions, axis-aligned bounds, `including`, `getCenter`, items |
| `clusters.dfy` | `Clusters` | the value of a cluster (`ClusterState`) and the `StaticCluster` class that updates it in place |
| `grid.dfy` | `Grid` | the zoom check, the number of cells, the cell key, the bucketing loop and the `GridAlgorithm` class |
| `scheduling.dfy` | `Scheduling` | the manager's task bookkeeping as a value (`Scheduler`), with its invariant and transitions |
| `manager.dfy` | `Manager` | the `ClusterManager` class: its fields, every public operation, and the task callbacks |

Each task of the manager gets a number in launch order. The bookkeeping records:

- every task launched;
- which tasks were cancelled;
- which tasks delivered through `onPostExecute`.

A task is *live* when it is launched, not cancelled and not finished. The invariant `Scheduler.Valid` states two things. First, the table and the global slot hold exactly the live tasks. Second, "last request wins": a live task that has any later task is a per-algorithm task, and every later task is for a different algorithm. So a live global task is the newest task of all.

Each method of `ClusterManager` that launches or completes a task is proved to take the bookkeeping through a `Scheduler` transition (`ClusterAll`, `ClusterAlgo` or `PostExecute`). `OnCameraChange`, `RemoveClusterAlgorithm`, `RemoveItems` and `RemoveItemsNotInRectangle` are proved to leave the bookkeeping unchanged. Separate lemmas prove that each transition keeps `Valid` and supersedes exactly what it should.

## Model

| member | source | states |
|---|---|---|
| Lists.RemoveFirst | library/src/com/google/maps/android/clustering/algo/StaticCluster.java:52-54 | `ArrayList.remove(Object)`. An absent element leaves the list unchanged. Otherwise the list is what lies before and after the first occurrence. |
| Lists.RemoveFirstNoDuplicates | library/src/com/google/maps/android/clustering/ClusterManager.java:162-174 | On the duplicate-free algorithm list, removal keeps it duplicate-free. The algorithm is gone afterwards, and every other algorithm stays. |
| Lists.AppendIfAbsent | library/src/com/google/maps/android/clustering/ClusterManager.java:162-164 | The element is present afterwards. The old list is kept as a prefix, at most one element is added, and no duplicate is introduced. |
| Lists.FirstIndex | library/src/com/google/maps/android/clustering/algo/StaticCluster.java:52-54 | The position `remove(Object)` removes at: it holds the element, and no earlier position does. |
| Geo.PointBounds | library/src/com/google/maps/android/clustering/algo/StaticCluster.java:76 | `new LatLngBounds(pos, pos)` is well formed and contains exactly `pos`. |
| Geo.Including | library/src/com/google/maps/android/clustering/algo/StaticCluster.java:78 | `including(pos)` contains `pos` and encloses the old bounds. It is the smallest such rectangle, and it is the old bounds when those already contain `pos`. |
| Geo.Center | library/src/com/google/maps/android/clustering/algo/StaticCluster.java:81 | `getCenter` lies midway between the edges, rounded down, and inside well-formed bounds. |
| Clusters.Grow | library/src/com/google/maps/android/clustering/algo/StaticCluster.java:75-79 | One loop step of `update()`: the result contains the position and encloses the previous bounds. |
| Clusters.Extend | library/src/com/google/maps/android/clustering/algo/StaticCluster.java:73-80 | The whole loop. Bounds exist afterwards unless there were neither members nor bounds. They contain every member, enclose the previous bounds, and stay well formed. |
| Clusters.ClusterState.Add | library/src/com/google/maps/android/clustering/algo/StaticCluster.java:39-41 | `add` appends one member and leaves bounds and centre alone. |
| Clusters.ClusterState.Remove | library/src/com/google/maps/android/clustering/algo/StaticCluster.java:52-54 | `remove` of a non-member changes nothing. Removing a member shortens the list by one. Bounds and centre are untouched. |
| Clusters.ClusterState.Updated | library/src/com/google/maps/android/clustering/algo/StaticCluster.java:66-85 | Membership is kept and a centre exists. One member means no bounds and a centre at that member. Otherwise the bounds contain every member and the centre is their centre. |
| Clusters.ExtendIsSmallest | library/src/com/google/maps/android/clustering/algo/StaticCluster.java:73-80 | Any rectangle that covers the previous bounds and every member encloses the loop's result. |
| Clusters.ExtendEdgesAttained | library/src/com/google/maps/android/clustering/algo/StaticCluster.java:73-80 | Starting from no bounds, each of the four edges is a coordinate of some member. |
| Clusters.ExtendCovered | library/src/com/google/maps/android/clustering/algo/StaticCluster.java:75-78 | Bounds that already contain every member come out of the loop unchanged. |
| Clusters.UpdateFreshIsMinimal | library/src/com/google/maps/android/clustering/algo/StaticCluster.java:72-81 | A fresh cluster of two or more members gets the minimal covering rectangle, with each edge attained by a member, and is centred on it. |
| Clusters.CenterIsNotTheMean | library/src/com/google/maps/android/clustering/algo/StaticCluster.java:81 | Three members at (0,0) and one at (8,8) are centred on (4,4), not on their mean (2,2). |
| Clusters.UpdateIdempotent | library/src/com/google/maps/android/clustering/algo/StaticCluster.java:66-85 | A second `update()` without a membership change gives the same cluster. |
| Clusters.UpdateNeverShrinks | library/src/com/google/maps/android/clustering/algo/StaticCluster.java:72-80 | `update()` never resets existing bounds: unless one member is left, the new bounds enclose the old ones. |
| Clusters.RemoveThenUpdateNeverShrinks | library/src/com/google/maps/android/clustering/algo/StaticCluster.java:52-85 | After `remove` and a second `update()`, the bounds still enclose those covering the removed member, unless one member is left. |
| Clusters.StaticCluster.constructor | library/src/com/google/maps/android/clustering/algo/StaticCluster.java:32-37 | A new cluster has no members, no bounds and no centre. |
| Clusters.StaticCluster.Add | library/src/com/google/maps/android/clustering/algo/StaticCluster.java:39-41 | Returns true. The new state is `ClusterState.Add` of the old one. |
| Clusters.StaticCluster.Remove | library/src/com/google/maps/android/clustering/algo/StaticCluster.java:52-54 | Returns whether the item was a member. The new state is `ClusterState.Remove` of the old one. |
| Clusters.StaticCluster.GetPosition | library/src/com/google/maps/android/clustering/algo/StaticCluster.java:44-46 | Returns the centre of the cluster's state. |
| Clusters.StaticCluster.GetBounds | library/src/com/google/maps/android/clustering/algo/StaticCluster.java:48-50 | Returns the bounds of the cluster's state. |
| Clusters.StaticCluster.GetItems | library/src/com/google/maps/android/clustering/algo/StaticCluster.java:57-59 | Returns the members in insertion order. |
| Clusters.StaticCluster.GetSize | library/src/com/google/maps/android/clustering/algo/StaticCluster.java:62-64 | Returns the number of members, counting repeats. |
| Clusters.StaticCluster.Update | library/src/com/google/maps/android/clustering/algo/StaticCluster.java:66-85 | The in-place loop leaves the object in the state `ClusterState.Updated` describes. |
| Grid.Pow2 | library/src/com/google/maps/android/clustering/algo/GridBasedAlgorithm.java:75 | `Math.pow(2, zoom)` for a whole zoom: it exceeds the zoom. |
| Grid.Pow2Monotone | library/src/com/google/maps/android/clustering/algo/GridBasedAlgorithm.java:75 | A higher zoom gives at least as large a power of two. |
| Grid.CeilDiv | library/src/com/google/maps/android/clustering/algo/GridBasedAlgorithm.java:75 | `Math.ceil` of an exact quotient: the least integer at or above it, for either sign of divisor. |
| Grid.ToLong | library/src/com/google/maps/android/clustering/algo/GridBasedAlgorithm.java:75 | The `(long)` cast stays in the 64-bit range and is the identity inside it. |
| Grid.NumCells | library/src/com/google/maps/android/clustering/algo/GridBasedAlgorithm.java:75 | For a positive grid size the count is at least 1. Below the cast's cap, it is the least `n` with `n * gridSize >= 256 * 2^zoom`. |
| Grid.CeilDivMonotone | library/src/com/google/maps/android/clustering/algo/GridBasedAlgorithm.java:75 | For a positive divisor, `Math.ceil` of the quotient grows with the dividend. |
| Grid.NumCellsMonotone | library/src/com/google/maps/android/clustering/algo/GridBasedAlgorithm.java:75 | For a fixed grid size, zooming in never reduces the number of cells per side. |
| Grid.NumCellsAtZoomTen | library/src/com/google/maps/android/clustering/algo/GridBasedAlgorithm.java:37-75 | The default grid size of 100 gives 2622 cells per side at zoom 10. |
| Grid.GetCoord | library/src/com/google/maps/android/clustering/algo/GridBasedAlgorithm.java:123-125 | For a positive cell count and a `y` inside the grid, the key divided by the count gives back `x` and the remainder gives back `y`. |
| Grid.DivModUnique | library/src/com/google/maps/android/clustering/algo/GridBasedAlgorithm.java:123-125 | `n * x + y` with `0 <= y < n` has quotient `x` and remainder `y` by `n`. |
| Grid.GetCoordInjective | library/src/com/google/maps/android/clustering/algo/GridBasedAlgorithm.java:123-125 | For cells whose `y` lies in the grid, `getCoord` keys are equal exactly when the cells are. |
| Grid.ZoomAllowed | library/src/com/google/maps/android/clustering/algo/GridBasedAlgorithm.java:72 | The zoom passes exactly when each bound is either negative (disabled) or respected. |
| Grid.ZoomAllowedRange | library/src/com/google/maps/android/clustering/algo/GridBasedAlgorithm.java:70-74 | The default bounds of -1 disable the zoom check. A configured range admits exactly the zooms inside it. |
| Grid.MembersAreVisibleItems | library/src/com/google/maps/android/clustering/algo/GridBasedAlgorithm.java:81-107 | The members of all clusters of a pass are exactly the visible registry items. |
| Grid.AllInvisibleGivesNoClusters | library/src/com/google/maps/android/clustering/algo/GridBasedAlgorithm.java:85-87 | A pass yields no cluster exactly when no registry item is visible. |
| Grid.SameCellTogetherNextCellApart | library/src/com/google/maps/android/clustering/algo/GridBasedAlgorithm.java:95-105 | Two clusterable items in one cell share a cluster. An item in the neighbouring cell is not in it. |
| Grid.MemberDeterminesCluster | library/src/com/google/maps/android/clustering/algo/GridBasedAlgorithm.java:89-105 | After the loop, a member fixes its cluster: its own singleton if it is not clusterable, else the bucket of its key. |
| Grid.BucketedIsGridClustering | library/src/com/google/maps/android/clustering/algo/GridBasedAlgorithm.java:81-113 | The finished loop state, with every cluster updated, is a grid clustering of the registry. |
| Grid.BucketItems | library/src/com/google/maps/android/clustering/algo/GridBasedAlgorithm.java:78-113 | See the note after this table. |
| Grid.GridAlgorithm.constructor | library/src/com/google/maps/android/clustering/algo/GridBasedAlgorithm.java:37-39 | An empty registry, grid size 100, and the unbounded zoom sentinels. |
| Grid.GridAlgorithm.WithZoomRange | library/src/com/google/maps/android/clustering/algo/GridBasedAlgorithm.java:151-157 | A subclass that overrides `getMinZoom`/`getMaxZoom` with the given bounds. |
| Grid.GridAlgorithm.AddItem | library/src/com/google/maps/android/clustering/algo/GridBasedAlgorithm.java:42-44 | The registry gains the item. Re-adding has no effect. The grid size is unchanged. |
| Grid.GridAlgorithm.AddItems | library/src/com/google/maps/android/clustering/algo/GridBasedAlgorithm.java:47-49 | The registry gains every given item. |
| Grid.GridAlgorithm.ClearItems | library/src/com/google/maps/android/clustering/algo/GridBasedAlgorithm.java:52-54 | The registry becomes empty. |
| Grid.GridAlgorithm.RemoveItem | library/src/com/google/maps/android/clustering/algo/GridBasedAlgorithm.java:57-59 | The registry loses that item only. An absent item changes nothing. |
| Grid.GridAlgorithm.RemoveItems | library/src/com/google/maps/android/clustering/algo/GridBasedAlgorithm.java:145-149 | The registry loses exactly the given items. |
| Grid.GridAlgorithm.GetItems | library/src/com/google/maps/android/clustering/algo/GridBasedAlgorithm.java:119-121 | Returns the registry's members. |
| Grid.GridAlgorithm.SetGridSize | library/src/com/google/maps/android/clustering/algo/GridBasedAlgorithm.java:127-129 | The grid size takes the new value and the registry is untouched. |
| Grid.GridAlgorithm.GetMinZoom | library/src/com/google/maps/android/clustering/algo/GridBasedAlgorithm.java:151-153 | Returns the configured lower zoom bound (-1 in the base class). |
| Grid.GridAlgorithm.GetMaxZoom | library/src/com/google/maps/android/clustering/algo/GridBasedAlgorithm.java:155-157 | Returns the configured upper zoom bound (-1 in the base class). |
| Grid.GridAlgorithm.RemoveItemsNotInRectangle | library/src/com/google/maps/android/clustering/algo/GridBasedAlgorithm.java:132-142 | Collecting the outside items and then removing them keeps exactly the items inside the rectangle. |
| Grid.GridAlgorithm.GetClusters | library/src/com/google/maps/android/clustering/algo/GridBasedAlgorithm.java:66-116 | Meets `GetClustersSpec`: the result is absent exactly for an empty registry or a zoom outside the range. Otherwise it is a grid clustering at the number of cells for that zoom and grid size. |
| Scheduling.Scheduler.ClusterAll | library/src/com/google/maps/android/clustering/ClusterManager.java:252-263 | One task is appended and the old tasks are kept. The new task is global at the requested zoom and fills the global slot. Every table task and the previous global task become cancelled; no cancellation or completion is forgotten. |
| Scheduling.Scheduler.ClusterAlgo | library/src/com/google/maps/android/clustering/ClusterManager.java:292-301 | One task is appended and the old tasks are kept. The new task is for `a` at the requested zoom, and the table maps `a` to it. The table gains only the key `a`. The old task of `a`, if any, becomes cancelled; the global slot and the completions are kept. |
| Scheduling.Scheduler.PostExecute | library/src/com/google/maps/android/clustering/ClusterManager.java:435-439 | Tasks and cancellations stay; the task joins the finished ones. A per-algorithm task leaves the table; a global task empties the global slot. |
| Scheduling.IdleIsValid | library/src/com/google/maps/android/clustering/ClusterManager.java:95 | A new manager, with no tasks and no global task, satisfies the bookkeeping invariant. |
| Scheduling.ClusterAllSupersedes | library/src/com/google/maps/android/clustering/ClusterManager.java:249-273 | `cluster()` keeps the invariant and cancels every table task. No task launched before it can still deliver; only the new global task can. |
| Scheduling.ClusterAlgoSupersedes | library/src/com/google/maps/android/clustering/ClusterManager.java:289-311 | `clusterAlgo(a)` without a global task keeps the invariant. The old task of `a` can no longer deliver. The new task is live and mapped to `a`. Other table entries are kept. |
| Scheduling.PostExecuteClearsSlot | library/src/com/google/maps/android/clustering/ClusterManager.java:433-441 | A live task's completion keeps the invariant. It clears exactly the slot that held it: the table entry of its algorithm, or the global slot. |
| Scheduling.RepeatedRequestSupersedes | library/src/com/google/maps/android/clustering/ClusterManager.java:291-301 | Of two `clusterAlgo(a)` requests in a row, only the second task can reach the renderer. |
| Manager.ClusterManager.constructor | library/src/com/google/maps/android/clustering/ClusterManager.java:86-97 | No algorithm list and idle bookkeeping; the invariant holds. |
| Manager.ClusterManager.AddClusterAlgorithm | library/src/com/google/maps/android/clustering/ClusterManager.java:154-167 | A null algorithm is ignored. Otherwise the list is created if needed, the algorithm is added once, and a `clusterAlgo` transition follows. |
| Manager.ClusterManager.RemoveClusterAlgorithm | library/src/com/google/maps/android/clustering/ClusterManager.java:169-182 | A null algorithm is ignored. Otherwise the algorithm leaves the list, the others stay, the renderer gets that algorithm with no clusters, and nothing is scheduled. |
| Manager.ClusterManager.ClearItems | library/src/com/google/maps/android/clustering/ClusterManager.java:184-195 | Null is ignored. Otherwise the registry is emptied, then a `clusterAlgo` transition follows. |
| Manager.ClusterManager.AddItems | library/src/com/google/maps/android/clustering/ClusterManager.java:197-208 | Null is ignored. Otherwise the items join the registry, then a `clusterAlgo` transition follows. |
| Manager.ClusterManager.AddItem | library/src/com/google/maps/android/clustering/ClusterManager.java:210-221 | Null is ignored. Otherwise the item joins the registry, then a `clusterAlgo` transition follows. |
| Manager.ClusterManager.RemoveItem | library/src/com/google/maps/android/clustering/ClusterManager.java:223-234 | Null is ignored. Otherwise the item leaves the registry, then a `clusterAlgo` transition follows. |
| Manager.ClusterManager.CancelTableTasks | library/src/com/google/maps/android/clustering/ClusterManager.java:252-257 | Iterating the table cancels exactly the tasks it holds, in addition to those cancelled before. |
| Manager.ClusterManager.Cluster | library/src/com/google/maps/android/clustering/ClusterManager.java:239-274 | With no map or no camera position, nothing happens. Otherwise the bookkeeping makes the `ClusterAll` transition at the camera's zoom; the invariant holds. |
| Manager.ClusterManager.ClusterAlgo | library/src/com/google/maps/android/clustering/ClusterManager.java:279-312 | See the note after this table. |
| Manager.ClusterManager.HandleMessage | library/src/com/google/maps/android/clustering/ClusterManager.java:322-329 | The cluster message triggers `cluster()`. Any other message changes nothing. |
| Manager.ClusterManager.OnCameraChange | library/src/com/google/maps/android/clustering/ClusterManager.java:332-350 | The debounce restarts exactly when there is no previous position or the zoom changed. The zoom is always recorded. No task is scheduled. |
| Manager.ClusterManager.DebounceElapsed | library/src/com/google/maps/android/clustering/ClusterManager.java:341-344 | A pending debounce delivers the cluster message, which makes the `ClusterAll` transition. Without one, nothing happens. |
| Manager.ClusterManager.DoInBackground | library/src/com/google/maps/android/clustering/ClusterManager.java:406-430 | See the note after this table. |
| Manager.ClusterManager.RunTask | library/src/com/google/maps/android/clustering/ClusterManager.java:406-430 | The task's background computation: its result meets `IsTaskResult`, and it is recorded as that task's result. |
| Manager.ClusterManager.OnPostExecute | library/src/com/google/maps/android/clustering/ClusterManager.java:433-441 | A live task's completion makes the `PostExecute` transition. It hands the renderer exactly the result its own background computation recorded; the invariant holds. |
| Manager.ClusterManager.RemoveItems | library/src/com/google/maps/android/clustering/ClusterManager.java:368-378 | Every registered algorithm's registry is emptied and the renderer's cache is cleared. No scheduling changes. |
| Manager.ClusterManager.RemoveItemsNotInRectangle | library/src/com/google/maps/android/clustering/ClusterManager.java:380-389 | Every registered algorithm keeps exactly its items inside the rectangle. The manager itself is untouched. |
| Manager.StaleDeliveryAfterRemoval | library/src/com/google/maps/android/clustering/ClusterManager.java:169-182 | Removing an algorithm while its task is live, then completing that task: the renderer first hears that the algorithm has no clusters, then gets clusters for that algorithm alone. |

Three rows need more than one cell can hold.

**Grid.BucketItems** yields a grid clustering:

- each cluster is non-empty, duplicate-free and updated;
- every visible item is in exactly one cluster, and no other item is in any;
- a non-clusterable item is alone in its cluster;
- two clusterable items share a cluster exactly when their keys agree.

**Manager.ClusterManager.ClusterAlgo** changes nothing when there is no map, when a global task is in flight, or when there is no camera position. Otherwise the bookkeeping makes the `ClusterAlgo` transition, and the invariant holds.

**Manager.ClusterManager.DoInBackground** calls `getClusters` at the task's zoom for the task's algorithm, or for every listed algorithm when the task is global. Its result meets `IsTaskResult`:

- each result pair satisfies `getClusters`'s contract;
- every algorithm in scope gets exactly one pair;
- a global task with no list yields no pairs.

## Left out

- Floating point is not modelled:
  - latitudes, longitudes and zoom levels are integers;
  - the centre is the floored integer midpoint;
  - `Math.pow`, `Math.ceil` and the `(long)` cast are computed exactly, and the cast saturates.

  Fractional zoom, double rounding and NaN are therefore not captured.
- The spherical Mercator projection is a function parameter (`Projection`) returning the floored cell. Its formula is not part of this model.
- Grid.GetCoord: computed exactly. It does not model the double-precision rounding of `numCells * floor(x) + floor(y)` or its saturating cast for very large grids.
- `LatLngBounds` is a plain min/max rectangle. Bounds crossing the antimeridian are not modelled.
- Locks, `synchronized` blocks and the thread pool are left out; every operation is atomic.
- `AsyncTask` timing is left out of the model:
  - a task's background work and its `onPostExecute` are separate calls the environment makes;
  - Manager.ClusterManager.OnPostExecute requires the task to be live, because Android never calls `onPostExecute` for a cancelled task and calls it at most once.
- The `Handler` delay is a pending flag plus a restart counter. Manager.ClusterManager.DebounceElapsed stands for the 300 ms delay elapsing.
- The camera is an input. `cluster()`, `clusterAlgo` and the operations that call them take an optional zoom, absent when the map has no camera position. Manager.ClusterManager.OnCameraChange takes the current camera's zoom. The source dereferences that camera position without a null check; that null path is not modelled. `hasMap` says whether the manager holds a map. The visible region is passed to `getClusters` by the source but never read, so it is omitted.
- The renderer is a log of `onClustersChanged` and `clearCache` calls. Also left out: `setRenderer`, the listener setters, marker clicks, and the marker collections. They only forward to the renderer or to the marker manager.
- Grid.GridAlgorithm.GetClusters: returns cluster values, not fresh `StaticCluster` objects. The updates of its final pass are applied to those values, which `Clusters.StaticCluster.Update` is proved to compute.
- Clusters.StaticCluster.Update: requires a member or existing bounds, because the source dereferences null bounds on an empty cluster that has none. `getClusters` never builds such a cluster.
- Manager.ClusterManager.RemoveClusterAlgorithm, RemoveItems and RemoveItemsNotInRectangle: require the algorithm list to exist, because the source dereferences it.
- Manager.ClusterManager.OnCameraChange: requires a map, because the source reads the map's camera.
- `removeClusterAlgorithm` notifies the renderer but schedules no recompute and cancels no task for the removed algorithm. The documented intent is a recompute after removal; the model follows the code. Manager.StaleDeliveryAfterRemoval shows the consequence: a live task of the removed algorithm still delivers its clusters after the removal notice.
- The manager works with the concrete `Grid.GridAlgorithm`. The source accepts any implementation of its `Algorithm` interface; other implementations are not part of this model.
- `Item` equality is value equality of identifier, position and flags. It stands in for `equals`/`hashCode` of the library's users' item classes.
