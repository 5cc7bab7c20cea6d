/** The grid clustering algorithm (`GridBasedAlgorithm`): an item registry with set semantics and a
    bucketing pass that groups clusterable items by grid cell. */
module Grid {
  import opened Geo
  import opened Lists
  import opened Clusters

  /** The floored planar coordinates of a projected position. */
  datatype Cell = Cell(x: int, y: int)

  /** `new SphericalMercatorProjection(numCells).toPoint(pos)`, floored: supplied from outside,
      given the number of cells and the position. */
  type Projection = (int, Position) -> Cell

  const TILE_SIZE := 256
  const DEFAULT_GRID_SIZE := 100
  /** `getMinZoom`/`getMaxZoom` return this to disable their side of the zoom check. */
  const UNBOUNDED_ZOOM := -1
  const LONG_MAX := 0x7fff_ffff_ffff_ffff
  const LONG_MIN := -0x8000_0000_0000_0000

  /** `Math.pow(2, k)` for a whole exponent. */
  function Pow2(k: nat): (r: nat)
    ensures r >= k + 1
  {
    if k == 0 then 1 else 2 * Pow2(k - 1)
  }

  /** The ceiling of the rational `a / b`. */
  function CeilDiv(a: int, b: int): (q: int)
    requires b != 0
    ensures b > 0 ==> (q - 1) * b < a <= q * b
    ensures b < 0 ==> q * b <= a < (q - 1) * b
  {
    if b > 0 then -((-a) / b) else -(a / (-b))
  }

  /** Java's `(long)` conversion of a double, which saturates at the ends of the long range. */
  function ToLong(v: int): (r: int)
    ensures LONG_MIN <= r <= LONG_MAX
    ensures LONG_MIN <= v <= LONG_MAX ==> r == v
  {
    if v > LONG_MAX then LONG_MAX else if v < LONG_MIN then LONG_MIN else v
  }

  /** `(long) Math.ceil(256 * Math.pow(2, zoom) / gridSize)`, computed exactly. A grid size of 0
      divides by zero in floating point, giving +Infinity, which the cast saturates. */
  function NumCells(zoom: int, gridSize: int): (n: int)
    ensures gridSize > 0 ==> 1 <= n <= LONG_MAX
    ensures gridSize > 0 && zoom >= 0 && n < LONG_MAX ==>
      (n - 1) * gridSize < TILE_SIZE * Pow2(zoom) <= n * gridSize
  {
    if gridSize == 0 then LONG_MAX
    else if zoom >= 0 then ToLong(CeilDiv(TILE_SIZE * Pow2(zoom), gridSize))
    else ToLong(CeilDiv(TILE_SIZE, Pow2(-zoom) * gridSize))
  }

  /** A higher power of two is at least as large. */
  lemma {:induction false} Pow2Monotone(a: nat, b: nat)
    requires a <= b
    ensures Pow2(a) <= Pow2(b)
    decreases b
  {
    if a < b {
      Pow2Monotone(a, b - 1);
    }
  }

  /** The ceiling of a quotient by a positive divisor grows with the dividend. */
  lemma CeilDivMonotone(a1: int, a2: int, b: int)
    requires b > 0 && a1 <= a2
    ensures CeilDiv(a1, b) <= CeilDiv(a2, b)
  {
    var q1, q2 := CeilDiv(a1, b), CeilDiv(a2, b);
    if q1 > q2 {
      MultipleAtLeast(b, q1 - q2);
    }
  }

  /** Zooming in never reduces the number of cells per side. */
  lemma NumCellsMonotone(zoom1: int, zoom2: int, gridSize: int)
    requires gridSize > 0 && 0 <= zoom1 <= zoom2
    ensures NumCells(zoom1, gridSize) <= NumCells(zoom2, gridSize)
  {
    Pow2Monotone(zoom1, zoom2);
    CeilDivMonotone(TILE_SIZE * Pow2(zoom1), TILE_SIZE * Pow2(zoom2), gridSize);
  }

  /** The default grid size at zoom 10 gives ceil(262144 / 100) = 2622 cells per side. */
  lemma NumCellsAtZoomTen()
    ensures NumCells(10, DEFAULT_GRID_SIZE) == 2622
  {
    assert Pow2(10) == 1024;
  }

  /** `getCoord`: the bucket key of a floored cell. Within the grid's `y` range the key encodes the
      cell: dividing by the number of cells gives back `x`, the remainder `y`. */
  function GetCoord(numCells: int, x: int, y: int): (k: int)
    ensures numCells > 0 && 0 <= y < numCells ==> k / numCells == x && k % numCells == y
  {
    if numCells > 0 && 0 <= y < numCells then
      DivModUnique(numCells, x, y);
      numCells * x + y
    else
      numCells * x + y
  }

  /** Euclidean division of `n * x + y` by `n`, for `y` in `[0, n)`. */
  lemma DivModUnique(n: int, x: int, y: int)
    requires n > 0 && 0 <= y < n
    ensures (n * x + y) / n == x && (n * x + y) % n == y
  {
    var k := n * x + y;
    var q, r := k / n, k % n;
    assert k == n * q + r && 0 <= r < n;
    assert n * (q - x) == y - r;
    if q > x {
      MultipleAtLeast(n, q - x);
    } else if q < x {
      MultipleAtLeast(n, x - q);
    }
  }

  /** A positive multiple of `n` is at least `n`. */
  lemma MultipleAtLeast(n: nat, d: int)
    requires d >= 1
    ensures n * d >= n
  {
    assert n * d == n * (d - 1) + n;
    assert n * (d - 1) >= 0;
  }

  /** Distinct cells whose `y` lies in `[0, numCells)` get distinct keys, and equal cells equal keys. */
  lemma GetCoordInjective(numCells: int, c1: Cell, c2: Cell)
    requires 0 <= c1.y < numCells && 0 <= c2.y < numCells
    ensures GetCoord(numCells, c1.x, c1.y) == GetCoord(numCells, c2.x, c2.y) <==> c1 == c2
  {
    if c1.x != c2.x {
      var lo, hi := if c1.x < c2.x then c1 else c2, if c1.x < c2.x then c2 else c1;
      assert numCells * hi.x == numCells * lo.x + numCells * (hi.x - lo.x);
      MultipleAtLeast(numCells, hi.x - lo.x);
    }
  }

  /** The bucket key of an item at the given number of cells. */
  function Key(numCells: int, proj: Projection, it: Item): int
  {
    var p := proj(numCells, it.position);
    GetCoord(numCells, p.x, p.y)
  }

  /** The zoom check of `getClusters`: a negative bound disables its side. */
  predicate ZoomAllowed(zoom: int, minZoom: int, maxZoom: int): (ok: bool)
    ensures ok <==> (minZoom < 0 || minZoom <= zoom) && (maxZoom < 0 || zoom <= maxZoom)
  {
    !((minZoom >= 0 && zoom < minZoom) || (maxZoom >= 0 && zoom > maxZoom))
  }

  /** The defaults disable the check; a configured range admits exactly its own zooms. */
  lemma ZoomAllowedRange(zoom: int, minZoom: int, maxZoom: int)
    ensures ZoomAllowed(zoom, UNBOUNDED_ZOOM, UNBOUNDED_ZOOM)
    ensures 0 <= minZoom && 0 <= maxZoom ==> (ZoomAllowed(zoom, minZoom, maxZoom) <==> minZoom <= zoom <= maxZoom)
  {
  }

  /** What a clustering pass promises about `clusters` for registry `items`: every visible item is in
      exactly one cluster, once; nothing else is; a non-clusterable item is alone; clusterable items
      share a cluster exactly when their keys agree; and every cluster has been updated. */
  ghost predicate IsGridClustering(items: set<Item>, numCells: int, proj: Projection, clusters: set<ClusterState>)
  {
    (forall c :: c in clusters ==>
      c.items != [] && c == Fresh(c.items).Updated() && NoDuplicates(c.items) &&
      forall i :: 0 <= i < |c.items| ==> c.items[i] in items && c.items[i].visible) &&
    (forall it :: it in items && it.visible ==> exists c :: c in clusters && it in c.items) &&
    (forall c1, c2, it :: c1 in clusters && c2 in clusters && it in c1.items && it in c2.items ==> c1 == c2) &&
    (forall c, it :: c in clusters && it in c.items && !it.clusterable ==> c.items == [it]) &&
    (forall c1, c2, i1, i2 ::
      c1 in clusters && c2 in clusters && i1 in c1.items && i2 in c2.items && i1.clusterable && i2.clusterable ==>
      (c1 == c2 <==> Key(numCells, proj, i1) == Key(numCells, proj, i2)))
  }

  /** The members of all clusters together are exactly the visible items of the registry. */
  lemma MembersAreVisibleItems(items: set<Item>, numCells: int, proj: Projection, clusters: set<ClusterState>)
    requires IsGridClustering(items, numCells, proj, clusters)
    ensures (set c, it | c in clusters && it in c.items :: it) == set it | it in items && it.visible
  {
    var members := set c, it | c in clusters && it in c.items :: it;
    forall it | it in members ensures it in items && it.visible {
      var c :| c in clusters && it in c.items;
      var i :| 0 <= i < |c.items| && c.items[i] == it;
    }
  }

  /** A registry whose items are all invisible gives a present but empty set of clusters. */
  lemma AllInvisibleGivesNoClusters(items: set<Item>, numCells: int, proj: Projection, clusters: set<ClusterState>)
    requires IsGridClustering(items, numCells, proj, clusters)
    ensures (forall it :: it in items ==> !it.visible) <==> clusters == {}
  {
    if clusters != {} {
      var c :| c in clusters;
      assert c.items[0] in items && c.items[0].visible;
    }
    if exists it :: it in items && it.visible {
      var it :| it in items && it.visible;
      var c :| c in clusters && it in c.items;
    }
  }

  /** Two visible clusterable items whose projections floor to the same cell share a cluster, and a
      third in the next cell along `y` is in another one, whenever the cells lie in the grid. */
  lemma SameCellTogetherNextCellApart(items: set<Item>, numCells: int, proj: Projection,
                                      clusters: set<ClusterState>, a: Item, b: Item, c: Item)
    requires IsGridClustering(items, numCells, proj, clusters)
    requires a in items && b in items && c in items
    requires a.visible && b.visible && c.visible && a.clusterable && b.clusterable && c.clusterable
    requires proj(numCells, a.position) == proj(numCells, b.position)
    requires var p, q := proj(numCells, a.position), proj(numCells, c.position);
      q == Cell(p.x, p.y + 1) && 0 <= p.y && p.y + 1 < numCells
    ensures exists k :: k in clusters && a in k.items && b in k.items && c !in k.items
  {
    var ka :| ka in clusters && a in ka.items;
    var kb :| kb in clusters && b in kb.items;
    var kc :| kc in clusters && c in kc.items;
    NextCellKeys(numCells, proj, a, b, c);
    SharingFollowsKeys(items, numCells, proj, clusters, ka, kb, a, b);
    SharingFollowsKeys(items, numCells, proj, clusters, ka, kc, a, c);
  }

  /** Items in one cell have one key; an item in the next cell along `y` has another. */
  lemma NextCellKeys(numCells: int, proj: Projection, a: Item, b: Item, c: Item)
    requires proj(numCells, a.position) == proj(numCells, b.position)
    requires var p, q := proj(numCells, a.position), proj(numCells, c.position);
      q == Cell(p.x, p.y + 1) && 0 <= p.y && p.y + 1 < numCells
    ensures Key(numCells, proj, a) == Key(numCells, proj, b)
    ensures Key(numCells, proj, a) != Key(numCells, proj, c)
  {
    GetCoordInjective(numCells, proj(numCells, a.position), proj(numCells, c.position));
  }

  /** One instance of the key rule of a grid clustering. */
  lemma SharingFollowsKeys(items: set<Item>, numCells: int, proj: Projection, clusters: set<ClusterState>,
                           c1: ClusterState, c2: ClusterState, i1: Item, i2: Item)
    requires IsGridClustering(items, numCells, proj, clusters)
    requires c1 in clusters && c2 in clusters && i1 in c1.items && i2 in c2.items && i1.clusterable && i2.clusterable
    ensures c1 == c2 <==> Key(numCells, proj, i1) == Key(numCells, proj, i2)
    ensures c1 != c2 ==> i2 !in c1.items
  {
  }

  /** The state of the bucketing loop once the items outside `remaining` have been visited. */
  ghost predicate Bucketed(items: set<Item>, remaining: set<Item>, numCells: int, proj: Projection,
                           singles: set<Item>, buckets: map<int, seq<Item>>)
  {
    remaining <= items &&
    (forall it :: it in singles ==> it in items && it !in remaining && it.visible && !it.clusterable) &&
    (forall it :: it in items && it !in remaining && it.visible && !it.clusterable ==> it in singles) &&
    (forall k :: k in buckets ==>
      buckets[k] != [] && NoDuplicates(buckets[k]) &&
      forall i :: 0 <= i < |buckets[k]| ==>
        buckets[k][i] in items && buckets[k][i] !in remaining && buckets[k][i].visible &&
        buckets[k][i].clusterable && Key(numCells, proj, buckets[k][i]) == k) &&
    (forall it :: it in items && it !in remaining && it.visible && it.clusterable ==>
      Key(numCells, proj, it) in buckets && it in buckets[Key(numCells, proj, it)])
  }

  /** The clusters of one pass: one per non-clusterable item and one per occupied bucket, each
      updated. */
  function Assemble(singles: set<Item>, buckets: map<int, seq<Item>>): set<ClusterState>
    requires forall k :: k in buckets ==> buckets[k] != []
  {
    (set it | it in singles :: Fresh([it]).Updated()) +
    (set k | k in buckets :: Fresh(buckets[k]).Updated())
  }

  /** After the loop, the cluster holding a member is determined by that member alone. */
  lemma MemberDeterminesCluster(items: set<Item>, numCells: int, proj: Projection,
                                singles: set<Item>, buckets: map<int, seq<Item>>, c: ClusterState, m: Item)
    requires Bucketed(items, {}, numCells, proj, singles, buckets)
    requires c in Assemble(singles, buckets) && m in c.items
    ensures m in items && m.visible
    ensures !m.clusterable ==> m in singles && c == Fresh([m]).Updated()
    ensures m.clusterable ==> Key(numCells, proj, m) in buckets && c == Fresh(buckets[Key(numCells, proj, m)]).Updated()
  {
    if c in set it | it in singles :: Fresh([it]).Updated() {
      var it :| it in singles && c == Fresh([it]).Updated();
      assert m == it;
    } else {
      var k :| k in buckets && c == Fresh(buckets[k]).Updated();
      var i :| 0 <= i < |buckets[k]| && buckets[k][i] == m;
    }
  }

  /** Each assembled cluster is non-empty, updated, duplicate-free and made of visible items. */
  lemma AssembledClustersAreFinal(items: set<Item>, numCells: int, proj: Projection,
                                   singles: set<Item>, buckets: map<int, seq<Item>>)
    requires Bucketed(items, {}, numCells, proj, singles, buckets)
    ensures forall c :: c in Assemble(singles, buckets) ==>
      c.items != [] && c == Fresh(c.items).Updated() && NoDuplicates(c.items) &&
      forall i :: 0 <= i < |c.items| ==> c.items[i] in items && c.items[i].visible
  {
    forall c | c in Assemble(singles, buckets)
      ensures c.items != [] && c == Fresh(c.items).Updated() && NoDuplicates(c.items)
      ensures forall i :: 0 <= i < |c.items| ==> c.items[i] in items && c.items[i].visible
    {
      if c in set it | it in singles :: Fresh([it]).Updated() {
        var it :| it in singles && c == Fresh([it]).Updated();
      } else {
        var k :| k in buckets && c == Fresh(buckets[k]).Updated();
      }
    }
  }

  /** Every visible item lands in an assembled cluster. */
  lemma AssembledCoversVisible(items: set<Item>, numCells: int, proj: Projection,
                               singles: set<Item>, buckets: map<int, seq<Item>>)
    requires Bucketed(items, {}, numCells, proj, singles, buckets)
    ensures forall it :: it in items && it.visible ==> exists c :: c in Assemble(singles, buckets) && it in c.items
  {
    var clusters := Assemble(singles, buckets);
    forall it | it in items && it.visible ensures exists c :: c in clusters && it in c.items {
      if it.clusterable {
        var c := Fresh(buckets[Key(numCells, proj, it)]).Updated();
        assert c in clusters && it in c.items;
      } else {
        var c := Fresh([it]).Updated();
        assert c in clusters && it in c.items;
      }
    }
  }

  /** Clusterable members of assembled clusters share one exactly when their keys agree. */
  lemma AssembledKeysAgree(items: set<Item>, numCells: int, proj: Projection,
                           singles: set<Item>, buckets: map<int, seq<Item>>)
    requires Bucketed(items, {}, numCells, proj, singles, buckets)
    ensures var clusters := Assemble(singles, buckets);
      forall c1, c2, i1, i2 ::
        c1 in clusters && c2 in clusters && i1 in c1.items && i2 in c2.items && i1.clusterable && i2.clusterable ==>
        (c1 == c2 <==> Key(numCells, proj, i1) == Key(numCells, proj, i2))
  {
    var clusters := Assemble(singles, buckets);
    forall c1, c2, i1, i2 |
      c1 in clusters && c2 in clusters && i1 in c1.items && i2 in c2.items && i1.clusterable && i2.clusterable
      ensures c1 == c2 <==> Key(numCells, proj, i1) == Key(numCells, proj, i2)
    {
      MemberDeterminesCluster(items, numCells, proj, singles, buckets, c1, i1);
      MemberDeterminesCluster(items, numCells, proj, singles, buckets, c2, i2);
      var k1 := Key(numCells, proj, i1);
      if c1 == c2 {
        var i :| 0 <= i < |buckets[k1]| && buckets[k1][i] == i2;
      }
    }
  }

  /** The finished loop state assembles into a grid clustering. */
  lemma BucketedIsGridClustering(items: set<Item>, numCells: int, proj: Projection,
                                 singles: set<Item>, buckets: map<int, seq<Item>>)
    requires Bucketed(items, {}, numCells, proj, singles, buckets)
    ensures IsGridClustering(items, numCells, proj, Assemble(singles, buckets))
  {
    var clusters := Assemble(singles, buckets);
    AssembledClustersAreFinal(items, numCells, proj, singles, buckets);
    AssembledCoversVisible(items, numCells, proj, singles, buckets);
    forall c1, c2, it | c1 in clusters && c2 in clusters && it in c1.items && it in c2.items
      ensures c1 == c2
    {
      MemberDeterminesCluster(items, numCells, proj, singles, buckets, c1, it);
      MemberDeterminesCluster(items, numCells, proj, singles, buckets, c2, it);
    }
    forall c, it | c in clusters && it in c.items && !it.clusterable ensures c.items == [it] {
      MemberDeterminesCluster(items, numCells, proj, singles, buckets, c, it);
    }
    AssembledKeysAgree(items, numCells, proj, singles, buckets);
  }

  /** The bucketing loop of `getClusters` over a snapshot of the registry: invisible items are
      skipped, each non-clusterable item gets its own cluster, and each clusterable item joins the
      cluster of its key, created on first use; then every cluster is updated. */
  method BucketItems(items: set<Item>, numCells: int, proj: Projection) returns (clusters: set<ClusterState>)
    ensures IsGridClustering(items, numCells, proj, clusters)
  {
    var remaining := items;
    var singles: set<Item> := {};
    var buckets: map<int, seq<Item>> := map[];
    while remaining != {}
      invariant Bucketed(items, remaining, numCells, proj, singles, buckets)
      decreases remaining
    {
      var it :| it in remaining;
      if !it.visible {
        // skipped
      } else if !it.clusterable {
        singles := singles + {it};
      } else {
        var p := proj(numCells, it.position);
        var coord := GetCoord(numCells, p.x, p.y);
        var cluster := if coord in buckets then buckets[coord] else [];
        buckets := buckets[coord := cluster + [it]];
      }
      remaining := remaining - {it};
    }
    BucketedIsGridClustering(items, numCells, proj, singles, buckets);
    clusters := Assemble(singles, buckets);
  }

  /** What `getClusters(zoom)` returns for a registry: nothing for an empty registry or a zoom out
      of range, otherwise a grid clustering at the number of cells for that zoom. */
  ghost predicate GetClustersSpec(items: set<Item>, gridSize: int, minZoom: int, maxZoom: int,
                                  zoom: int, proj: Projection, r: Option<set<ClusterState>>)
  {
    (r.None? <==> items == {} || !ZoomAllowed(zoom, minZoom, maxZoom)) &&
    (r.Some? ==> IsGridClustering(items, NumCells(zoom, gridSize), proj, r.value))
  }

  /** A `GridBasedAlgorithm` object. `minZoom` and `maxZoom` are what `getMinZoom`/`getMaxZoom`
      return: the unbounded sentinel in the base class, other values in a subclass. */
  class GridAlgorithm {
    var items: set<Item>
    var gridSize: int
    const minZoom: int
    const maxZoom: int

    constructor ()
      ensures items == {} && gridSize == DEFAULT_GRID_SIZE
      ensures minZoom == UNBOUNDED_ZOOM && maxZoom == UNBOUNDED_ZOOM
    {
      items, gridSize := {}, DEFAULT_GRID_SIZE;
      minZoom, maxZoom := UNBOUNDED_ZOOM, UNBOUNDED_ZOOM;
    }

    /** A subclass whose `getMinZoom`/`getMaxZoom` return the given bounds. */
    constructor WithZoomRange(minZoom: int, maxZoom: int)
      ensures items == {} && gridSize == DEFAULT_GRID_SIZE
      ensures this.minZoom == minZoom && this.maxZoom == maxZoom
    {
      items, gridSize := {}, DEFAULT_GRID_SIZE;
      this.minZoom, this.maxZoom := minZoom, maxZoom;
    }

    /** `addItem`: inserting an item already present changes nothing. */
    method AddItem(it: Item)
      modifies this
      ensures items == old(items) + {it} && gridSize == old(gridSize)
    {
      items := items + {it};
    }

    /** `addItems`. */
    method AddItems(its: seq<Item>)
      modifies this
      ensures items == old(items) + (set it | it in its) && gridSize == old(gridSize)
    {
      items := items + (set it | it in its);
    }

    /** `clearItems`. */
    method ClearItems()
      modifies this
      ensures items == {} && gridSize == old(gridSize)
    {
      items := {};
    }

    /** `removeItem`: removes that item only; nothing happens when it is absent. */
    method RemoveItem(it: Item)
      modifies this
      ensures items == old(items) - {it} && gridSize == old(gridSize)
    {
      items := items - {it};
    }

    /** `removeItems`: removes exactly the given items. */
    method RemoveItems(its: seq<Item>)
      modifies this
      ensures items == old(items) - (set it | it in its) && gridSize == old(gridSize)
    {
      items := items - (set it | it in its);
    }

    /** `getItems`. */
    function GetItems(): (s: set<Item>)
      reads this
      ensures forall it :: it in s <==> it in items
    {
      items
    }

    /** `setGridSize`: affects later passes only. */
    method SetGridSize(size: int)
      modifies this
      ensures gridSize == size && items == old(items)
    {
      gridSize := size;
    }

    /** `getMinZoom`. */
    function GetMinZoom(): (z: int)
      ensures z == minZoom
    {
      minZoom
    }

    /** `getMaxZoom`. */
    function GetMaxZoom(): (z: int)
      ensures z == maxZoom
    {
      maxZoom
    }

    /** `removeItemsNotInRectangle`: collects the items outside `b`, then removes them all. */
    method RemoveItemsNotInRectangle(b: Bounds)
      modifies this
      ensures items == set it | it in old(items) && Contains(b, it.position)
      ensures gridSize == old(gridSize)
    {
      var toRemove: set<Item> := {};
      var remaining := items;
      while remaining != {}
        invariant remaining <= items == old(items)
        invariant forall it :: it in toRemove ==> it in items && it !in remaining && !Contains(b, it.position)
        invariant forall it :: it in items && it !in remaining && !Contains(b, it.position) ==> it in toRemove
        decreases remaining
      {
        var it :| it in remaining;
        if !Contains(b, it.position) {
          toRemove := toRemove + {it};
        }
        remaining := remaining - {it};
      }
      items := items - toRemove;
    }

    /** `getClusters(zoom, visibleBounds)`; the viewport is not consulted, as in the source. */
    method GetClusters(zoom: int, proj: Projection) returns (r: Option<set<ClusterState>>)
      ensures GetClustersSpec(items, gridSize, minZoom, maxZoom, zoom, proj, r)
    {
      if |items| == 0 {
        return None;
      }
      if (minZoom >= 0 && zoom < minZoom) || (maxZoom >= 0 && zoom > maxZoom) {
        return None;
      }
      var numCells := NumCells(zoom, gridSize);
      var clusters := BucketItems(items, numCells, proj);
      return Some(clusters);
    }
  }
}
