/** The cluster aggregate (`StaticCluster`): a list of members with a derived centre and bounds. */
module Clusters {
  import opened Geo
  import opened Lists

  /** One step of the loop in `update()`: start a rectangle at `p`, or widen the current one. */
  function Grow(b: Option<Bounds>, p: Position): (r: Bounds)
    ensures Contains(r, p)
    ensures b.Some? ==> Encloses(r, b.value)
  {
    if b.None? then PointBounds(p) else Including(b.value, p)
  }

  /** The bounds after the loop of `update()` has folded every member's position into `b`,
      first member first. */
  function Extend(b: Option<Bounds>, items: seq<Item>): (r: Option<Bounds>)
    ensures items != [] || b.Some? ==> r.Some?
    ensures r.Some? ==> forall i :: 0 <= i < |items| ==> Contains(r.value, items[i].position)
    ensures b.Some? ==> Encloses(r.value, b.value)
    ensures r.Some? && (b.Some? ==> WellFormed(b.value)) ==> WellFormed(r.value)
    decreases |items|
  {
    if items == [] then b
    else Some(Grow(Extend(b, items[..|items| - 1]), items[|items| - 1].position))
  }

  /** The value a `StaticCluster` holds: members in insertion order, bounds and centre
      (both `null` until the first `update()`). */
  datatype ClusterState = ClusterState(items: seq<Item>, bounds: Option<Bounds>, center: Option<Position>)
  {
    /** `add`: `ArrayList.add` appends. */
    function Add(t: Item): (c: ClusterState)
      ensures c.items == items + [t] && |c.items| == |items| + 1
      ensures c.bounds == bounds && c.center == center
    {
      this.(items := items + [t])
    }

    /** `remove`: `ArrayList.remove(Object)` drops the first equal member. */
    function Remove(t: Item): (c: ClusterState)
      ensures t !in items ==> c == this
      ensures t in items ==> |c.items| == |items| - 1
      ensures c.bounds == bounds && c.center == center
    {
      this.(items := RemoveFirst(items, t))
    }

    /** `update()` does not dereference an absent rectangle. */
    predicate CanUpdate()
    {
      items != [] || bounds.Some?
    }

    /** `update()`: one member gives its position and no bounds; otherwise the previous bounds
        are widened by every member and the centre is the centre of those bounds. */
    function Updated(): (c: ClusterState)
      requires CanUpdate()
      ensures c.items == items && c.center.Some?
      ensures |items| == 1 ==> c.bounds.None? && c.center.value == items[0].position
      ensures |items| != 1 ==> c.bounds.Some? && c.center.value == Center(c.bounds.value)
      ensures |items| != 1 ==> forall i :: 0 <= i < |items| ==> Contains(c.bounds.value, items[i].position)
    {
      if |items| == 1 then
        this.(bounds := None, center := Some(items[0].position))
      else
        var b := Extend(bounds, items);
        this.(bounds := b, center := Some(Center(b.value)))
    }
  }

  /** A freshly created cluster holding `items` (as `getClusters` builds them). */
  function Fresh(items: seq<Item>): ClusterState
  {
    ClusterState(items, None, None)
  }

  /** The extended bounds are the smallest rectangle covering the previous bounds and every member. */
  lemma {:induction false} ExtendIsSmallest(b: Option<Bounds>, items: seq<Item>, o: Bounds)
    requires b.Some? ==> Encloses(o, b.value)
    requires forall i :: 0 <= i < |items| ==> Contains(o, items[i].position)
    ensures Extend(b, items).Some? ==> Encloses(o, Extend(b, items).value)
    decreases |items|
  {
    if items != [] {
      var init := items[..|items| - 1];
      assert forall i :: 0 <= i < |init| ==> init[i] == items[i];
      ExtendIsSmallest(b, init, o);
    }
  }

  /** Starting from no bounds, each edge of the result is the coordinate of some member. */
  lemma {:induction false} ExtendEdgesAttained(items: seq<Item>)
    requires items != []
    ensures var r := Extend(None, items).value;
      (exists i :: 0 <= i < |items| && items[i].position.lat == r.south) &&
      (exists i :: 0 <= i < |items| && items[i].position.lat == r.north) &&
      (exists i :: 0 <= i < |items| && items[i].position.lng == r.west) &&
      (exists i :: 0 <= i < |items| && items[i].position.lng == r.east)
    decreases |items|
  {
    var n := |items| - 1;
    var init := items[..n];
    if init != [] {
      ExtendEdgesAttained(init);
      assert forall i :: 0 <= i < |init| ==> init[i] == items[i];
    }
  }

  /** Bounds that already cover every member are a fixed point of the loop. */
  lemma {:induction false} ExtendCovered(bounds: Bounds, items: seq<Item>)
    requires forall i :: 0 <= i < |items| ==> Contains(bounds, items[i].position)
    ensures Extend(Some(bounds), items) == Some(bounds)
    decreases |items|
  {
    if items != [] {
      var init := items[..|items| - 1];
      assert forall i :: 0 <= i < |init| ==> init[i] == items[i];
      ExtendCovered(bounds, init);
    }
  }

  /** On a fresh cluster of two or more members, `update()` produces the minimal rectangle covering
      every member (each edge attained by a member) and centres the cluster on it. */
  lemma UpdateFreshIsMinimal(items: seq<Item>)
    requires |items| >= 2
    ensures var c := Fresh(items).Updated();
      c.bounds.Some? && WellFormed(c.bounds.value) &&
      c.center == Some(Center(c.bounds.value)) &&
      (forall i :: 0 <= i < |items| ==> Contains(c.bounds.value, items[i].position)) &&
      (forall o :: (forall i :: 0 <= i < |items| ==> Contains(o, items[i].position)) ==> Encloses(o, c.bounds.value)) &&
      (exists i :: 0 <= i < |items| && items[i].position.lat == c.bounds.value.south) &&
      (exists i :: 0 <= i < |items| && items[i].position.lat == c.bounds.value.north) &&
      (exists i :: 0 <= i < |items| && items[i].position.lng == c.bounds.value.west) &&
      (exists i :: 0 <= i < |items| && items[i].position.lng == c.bounds.value.east)
  {
    forall o | forall i :: 0 <= i < |items| ==> Contains(o, items[i].position)
      ensures Encloses(o, Extend(None, items).value)
    {
      ExtendIsSmallest(None, items, o);
    }
    ExtendEdgesAttained(items);
  }

  /** The centre is the centre of the bounds, not the mean of the positions: three members at the
      origin and one at (8, 8) are centred on (4, 4), while their mean is (2, 2). */
  lemma CenterIsNotTheMean()
    ensures var p, q := Position(0, 0), Position(8, 8);
      var items := [Item(1, p, true, true), Item(2, p, true, true), Item(3, p, true, true), Item(4, q, true, true)];
      Fresh(items).Updated().center == Some(Position(4, 4))
  {
    var p, q := Position(0, 0), Position(8, 8);
    var items := [Item(1, p, true, true), Item(2, p, true, true), Item(3, p, true, true), Item(4, q, true, true)];
    assert items[..1][..0] == [] && items[..2][..1] == items[..1] && items[..3][..2] == items[..2];
    assert items[..4][..3] == items[..3] && items[..4] == items;
    assert Extend(None, items[..1]) == Some(PointBounds(p));
    assert Extend(None, items[..2]) == Some(PointBounds(p));
    assert Extend(None, items[..3]) == Some(PointBounds(p));
    assert Extend(None, items) == Some(Bounds(0, 0, 8, 8));
  }

  /** `update()` twice with no membership change is the same as once. */
  lemma UpdateIdempotent(c: ClusterState)
    requires c.CanUpdate()
    ensures c.Updated().CanUpdate() && c.Updated().Updated() == c.Updated()
  {
    var u := c.Updated();
    if |c.items| != 1 {
      ExtendCovered(u.bounds.value, c.items);
    }
  }

  /** Bounds are never reset: once a cluster has bounds, a later `update()` (with any membership
      other than one member) yields bounds enclosing them. */
  lemma UpdateNeverShrinks(c: ClusterState)
    requires c.bounds.Some? && |c.items| != 1
    ensures c.CanUpdate() && Encloses(c.Updated().bounds.value, c.bounds.value)
  {
  }

  /** Removing a member of an updated multi-member cluster and updating again keeps the old bounds
      inside the new ones, unless a single member is left. */
  lemma RemoveThenUpdateNeverShrinks(c: ClusterState, t: Item)
    requires |c.items| >= 2
    requires |c.Updated().Remove(t).items| != 1
    ensures c.Updated().Remove(t).CanUpdate()
    ensures Encloses(c.Updated().Remove(t).Updated().bounds.value, c.Updated().bounds.value)
  {
    UpdateNeverShrinks(c.Updated().Remove(t));
  }

  /** A `StaticCluster` object: its fields are updated in place by its methods. */
  class StaticCluster {
    var items: seq<Item>
    var bounds: Option<Bounds>
    var center: Option<Position>

    /** The cluster's value. */
    function State(): ClusterState
      reads this
    {
      ClusterState(items, bounds, center)
    }

    constructor ()
      ensures State() == Fresh([])
    {
      items, bounds, center := [], None, None;
    }

    /** `add`: appends `t` and reports success. */
    method Add(t: Item) returns (added: bool)
      modifies this
      ensures added
      ensures State() == old(State()).Add(t)
    {
      items := items + [t];
      added := true;
    }

    /** `remove`: drops the first member equal to `t`; reports whether there was one. */
    method Remove(t: Item) returns (removed: bool)
      modifies this
      ensures removed == (t in old(items))
      ensures State() == old(State()).Remove(t)
    {
      removed := t in items;
      items := RemoveFirst(items, t);
    }

    /** `getPosition`. */
    function GetPosition(): (p: Option<Position>)
      reads this
      ensures p == State().center
    {
      center
    }

    /** `getBounds`. */
    function GetBounds(): (b: Option<Bounds>)
      reads this
      ensures b == State().bounds
    {
      bounds
    }

    /** `getItems`. */
    function GetItems(): (s: seq<Item>)
      reads this
      ensures s == State().items
    {
      items
    }

    /** `getSize`. */
    function GetSize(): (n: nat)
      reads this
      ensures n == |State().items|
    {
      |items|
    }

    /** `update()`: recomputes bounds and centre from the members, never touching membership. */
    method Update()
      requires State().CanUpdate()
      modifies this
      ensures State() == old(State()).Updated()
    {
      if |items| == 1 {
        bounds := None;
        center := Some(items[0].position);
      } else {
        var i := 0;
        while i < |items|
          invariant 0 <= i <= |items|
          invariant items == old(items)
          invariant bounds == Extend(old(bounds), items[..i])
        {
          assert items[..i + 1][..i] == items[..i];
          bounds := Some(Grow(bounds, items[i].position));
          i := i + 1;
        }
        assert items[..|items|] == items;
        center := Some(Center(bounds.value));
      }
    }
  }
}
