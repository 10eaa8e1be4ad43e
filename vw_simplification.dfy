/** Visvalingam-Whyatt ranking of polyline vertices (VisvalingamWhyattSimplification.kt):
    triangles over consecutive vertices are kept in a list that starts sorted by area; the
    first one is taken repeatedly, its vertex weighted with the running maximum of the areas
    taken so far, and its neighbours relinked and re-queued. */
module VisvalingamWhyatt {
  import opened Wrappers
  import opened Numerics

  datatype Point = Point(x: real, y: real)

  /** A vertex weight: INITIAL_AREA (Double.MAX_VALUE) until the vertex's triangle is taken. */
  datatype Weight = InitialArea | Area(value: real)

  /** IllegalArgumentException of `ArrayList(points.size - 2)` for fewer than two points; and
      the step bound of this model running out before the triangle list is empty. */
  datatype WeightsError = NegativeCapacity | FuelExhausted

  /** One pass of the loop: the vertex written, the taken triangle's area and the weight. */
  datatype Removal = Removal(vertex: nat, area: real, weight: real)

  /** Half the absolute cross product of b - a and c - a. */
  function TriangleArea(a: Point, b: Point, c: Point): (r: real)
    ensures r >= 0.0
    ensures r == 0.0 <==> (b.x - a.x) * (c.y - a.y) == (c.x - a.x) * (b.y - a.y)
  {
    Abs(((b.x - a.x) * (c.y - a.y) - (c.x - a.x) * (b.y - a.y)) / 2.0)
  }

  /** The area does not depend on the orientation: walking the triangle backwards gives the
      same value, and so does moving the apex to the front. */
  lemma TriangleAreaSymmetric(a: Point, b: Point, c: Point)
    ensures TriangleArea(a, b, c) == TriangleArea(c, b, a)
    ensures TriangleArea(a, b, c) == TriangleArea(b, c, a)
  {
  }

  /** A triangle whose corner repeats an end point has no area. */
  lemma DegenerateTriangleArea(a: Point, c: Point)
    ensures TriangleArea(a, a, c) == 0.0 && TriangleArea(a, c, c) == 0.0
  {
  }

  class Triangle {
    const currentVertex: nat
    const points: seq<Point>
    var prevVertex: nat
    var nextVertex: nat
    var area: real
    var prev: Triangle?
    var next: Triangle?

    /** The three vertex indices are in range and `area` is the area they span. */
    ghost predicate Valid()
      reads this
    {
      InRange() && area == TriangleArea(points[prevVertex], points[currentVertex], points[nextVertex])
    }

    ghost predicate InRange()
      reads this
    {
      prevVertex < |points| && currentVertex < |points| && nextVertex < |points|
    }

    constructor (currentVertex: nat, points: seq<Point>)
      requires 1 <= currentVertex < |points| - 1
      ensures this.currentVertex == currentVertex && this.points == points
      ensures prevVertex == currentVertex - 1 && nextVertex == currentVertex + 1
      ensures prev == null && next == null && Valid()
    {
      this.currentVertex := currentVertex;
      this.points := points;
      prevVertex := currentVertex - 1;
      nextVertex := currentVertex + 1;
      prev := null;
      next := null;
      new;
      area := TriangleArea(points[prevVertex], points[currentVertex], points[nextVertex]);
    }

    /** takeNextFrom(t): this triangle now ends where the removed `t` ended. */
    method TakeNextFrom(t: Triangle)
      requires InRange() && t.InRange() && t.points == points
      modifies this
      ensures Valid()
      ensures next == old(t.next) && nextVertex == old(t.nextVertex)
      ensures prev == old(prev) && prevVertex == old(prevVertex)
    {
      next := t.next;
      nextVertex := t.nextVertex;
      area := TriangleArea(points[prevVertex], points[currentVertex], points[nextVertex]);
    }

    /** takePrevFrom(t): this triangle now starts where the removed `t` started. */
    method TakePrevFrom(t: Triangle)
      requires InRange() && t.InRange() && t.points == points
      modifies this
      ensures Valid()
      ensures prev == old(t.prev) && prevVertex == old(t.prevVertex)
      ensures next == old(next) && nextVertex == old(nextVertex)
    {
      prev := t.prev;
      prevVertex := t.prevVertex;
      area := TriangleArea(points[prevVertex], points[currentVertex], points[nextVertex]);
    }
  }

  ghost predicate SortedByArea(s: seq<Triangle>)
    reads set i | 0 <= i < |s| :: s[i]
  {
    forall i, j | 0 <= i < j < |s| :: s[i].area <= s[j].area
  }

  /** The list with the first occurrence of t removed (MutableList.remove). */
  function RemoveFirst(s: seq<Triangle>, t: Triangle): (r: seq<Triangle>)
    ensures t in s ==> |r| == |s| - 1 && multiset(r) == multiset(s) - multiset{t}
    ensures t !in s ==> r == s
    ensures forall u | u in s && u != t :: u in r
    ensures forall u | u in r :: u in s
  {
    if s == [] then []
    else if s[0] == t then
      assert s == [s[0]] + s[1..];
      s[1..]
    else
      assert s == [s[0]] + s[1..];
      [s[0]] + RemoveFirst(s[1..], t)
  }

  /** Sum of the multiplicities is preserved by removal plus re-append. */
  lemma UpdateKeepsMembers(s: seq<Triangle>, t: Triangle)
    ensures t in RemoveFirst(s, t) + [t]
    ensures forall u | u in s :: u in RemoveFirst(s, t) + [t]
  {
  }

  /** Every vertex taken twice in a row (takeTriangle and the end of the loop body). */
  function Twice(removals: seq<Removal>): (r: seq<nat>)
    ensures |r| == 2 * |removals|
    ensures forall k | 0 <= k < |removals| :: r[2 * k] == removals[k].vertex && r[2 * k + 1] == removals[k].vertex
  {
    if removals == [] then []
    else Twice(removals[..|removals| - 1]) + [removals[|removals| - 1].vertex, removals[|removals| - 1].vertex]
  }

  /** The weight each pass writes is the running maximum of the areas taken so far, starting
      from 0 (lastRemovedVertexArea). */
  ghost predicate RunningMaximum(removals: seq<Removal>) {
    forall k | 0 <= k < |removals| :: removals[k].weight == Max(PreviousWeight(removals, k), removals[k].area)
  }

  /** lastRemovedVertexArea before pass k. */
  function PreviousWeight(removals: seq<Removal>, k: nat): real
    requires k <= |removals|
  {
    if k == 0 then 0.0 else removals[k - 1].weight
  }

  function Max(a: real, b: real): real {
    if b > a then b else a
  }

  /** Every pass takes an interior vertex of an n-point polyline with a non-negative area. */
  ghost predicate InteriorRemovals(n: nat, removals: seq<Removal>) {
    forall k | 0 <= k < |removals| :: 1 <= removals[k].vertex < n - 1 && removals[k].area >= 0.0
  }

  /** The weights list after the given passes: INITIAL_AREA everywhere, then each pass
      overwrites its vertex. */
  function Replay(n: nat, removals: seq<Removal>): (w: seq<Weight>)
    requires forall k | 0 <= k < |removals| :: removals[k].vertex < n
    ensures |w| == n
  {
    if removals == [] then seq(n, _ => InitialArea)
    else
      var last := removals[|removals| - 1];
      Replay(n, removals[..|removals| - 1])[last.vertex := Area(last.weight)]
  }

  /** Recording one more pass. */
  lemma AppendRemoval(n: nat, removals: seq<Removal>, r: Removal)
    requires InteriorRemovals(n, removals) && RunningMaximum(removals)
    requires 1 <= r.vertex < n - 1 && r.area >= 0.0
    requires r.weight == Max(PreviousWeight(removals, |removals|), r.area)
    ensures InteriorRemovals(n, removals + [r]) && RunningMaximum(removals + [r])
    ensures Replay(n, removals + [r]) == Replay(n, removals)[r.vertex := Area(r.weight)]
    ensures Twice(removals + [r]) == Twice(removals) + [r.vertex, r.vertex]
    ensures PreviousWeight(removals + [r], |removals| + 1) == r.weight
  {
    var s := removals + [r];
    assert s[..|removals|] == removals;
    forall k | 0 <= k < |s| ensures s[k].weight == Max(PreviousWeight(s, k), s[k].area) {
      if k < |removals| {
        assert PreviousWeight(s, k) == PreviousWeight(removals, k);
      }
    }
  }

  /** Weights written in removal order never decrease, and each one covers the area of the
      triangle just taken. */
  lemma {:induction false} RunningMaximumMonotone(removals: seq<Removal>)
    requires RunningMaximum(removals)
    ensures forall j, k | 0 <= j <= k < |removals| :: removals[j].weight <= removals[k].weight
    ensures forall k | 0 <= k < |removals| :: removals[k].area <= removals[k].weight
    ensures forall k | 0 <= k < |removals| :: 0.0 <= removals[k].weight
  {
    forall j, k | 0 <= j <= k < |removals| ensures removals[j].weight <= removals[k].weight {
      WeightsOrdered(removals, j, k);
    }
    forall k | 0 <= k < |removals| ensures 0.0 <= removals[k].weight {
      WeightNonNegative(removals, k);
    }
  }

  lemma {:induction false} WeightsOrdered(removals: seq<Removal>, j: nat, k: nat)
    requires RunningMaximum(removals) && j <= k < |removals|
    ensures removals[j].weight <= removals[k].weight
    decreases k - j
  {
    if j < k {
      WeightsOrdered(removals, j, k - 1);
      assert removals[k].weight == Max(PreviousWeight(removals, k), removals[k].area);
    }
  }

  lemma {:induction false} WeightNonNegative(removals: seq<Removal>, k: nat)
    requires RunningMaximum(removals) && k < |removals|
    ensures 0.0 <= removals[k].weight
  {
    assert removals[k].weight == Max(PreviousWeight(removals, k), removals[k].area);
    if k > 0 {
      WeightNonNegative(removals, k - 1);
    }
  }

  /** A vertex carries a weight other than INITIAL_AREA exactly when some pass took it, and then
      it is the weight of its last pass; the end points are never taken. */
  lemma {:induction false} ReplayWeights(n: nat, removals: seq<Removal>, v: nat)
    requires InteriorRemovals(n, removals) && v < n
    ensures Replay(n, removals)[v].Area? <==> exists k :: 0 <= k < |removals| && removals[k].vertex == v
    ensures Replay(n, removals)[v].Area? ==>
      exists k :: 0 <= k < |removals| && removals[k].vertex == v && Replay(n, removals)[v].value == removals[k].weight &&
        forall j | k < j < |removals| :: removals[j].vertex != v
    ensures v == 0 || v == n - 1 ==> Replay(n, removals)[v] == InitialArea
  {
    if removals != [] {
      var init := removals[..|removals| - 1];
      var last := |removals| - 1;
      assert InteriorRemovals(n, init) by {
        forall k | 0 <= k < |init| ensures 1 <= init[k].vertex < n - 1 && init[k].area >= 0.0 {
          assert init[k] == removals[k];
        }
      }
      ReplayWeights(n, init, v);
      if removals[last].vertex != v {
        if Replay(n, removals)[v].Area? {
          var k :| 0 <= k < |init| && init[k].vertex == v && Replay(n, init)[v].value == init[k].weight &&
            forall j | k < j < |init| :: init[j].vertex != v;
          assert removals[k] == init[k];
          assert forall j | k < j < |removals| :: removals[j].vertex != v by {
            forall j | k < j < |removals| ensures removals[j].vertex != v {
              if j < last { assert removals[j] == init[j]; }
            }
          }
        } else {
          forall k | 0 <= k < |removals| ensures removals[k].vertex != v {
            if k < last { assert removals[k] == init[k]; }
          }
        }
      }
    }
  }

  class Simplification {
    var verticesToRemove: seq<nat>
    var triangles: seq<Triangle>

    constructor ()
      ensures verticesToRemove == [] && triangles == []
    {
      verticesToRemove := [];
      triangles := [];
    }

    /** getWeights(): one weight per point.  The loop runs until the triangle list is empty;
        this model bounds it by `fuel` passes (FuelExhausted when the bound is reached first).
        `removals` records every pass in order. */
    method GetWeights(points: seq<Point>, fuel: nat) returns (r: Result<seq<Weight>, WeightsError>, ghost removals: seq<Removal>)
      modifies this
      ensures |points| < 2 ==>
        r == Failure(NegativeCapacity) && removals == [] && unchanged(this)
      ensures |points| >= 2 ==>
        && InteriorRemovals(|points|, removals) && RunningMaximum(removals)
        && verticesToRemove == old(verticesToRemove) + Twice(removals)
        && |removals| <= fuel
        && (r.Success? <==> triangles == [])
        && (r.Failure? ==> r.error == FuelExhausted && |removals| == fuel)
      ensures r.Success? ==> r.value == Replay(|points|, removals)
      ensures r.Success? ==> forall v | 1 <= v < |points| - 1 :: r.value[v].Area?
    {
      if |points| < 2 {
        return Failure(NegativeCapacity), [];
      }
      triangles := [];
      ghost var created := InitTriangles(points);
      ghost var all := Elements(created);
      assert forall t | t in triangles :: t in multiset(created);
      assert forall k | 0 <= k < |created| :: created[k] in multiset(triangles);
      var weights;
      weights, removals := RemoveTriangles(all, created, points, fuel);
      if triangles != [] {
        return Failure(FuelExhausted), removals;
      }
      r := Success(weights);
    }

    /** The loop of getWeights(): each pass takes a triangle off the queue, records its vertex
        with the running maximum of the removed areas and relinks its neighbours. */
    method RemoveTriangles(ghost all: set<Triangle>, ghost created: seq<Triangle>, points: seq<Point>, fuel: nat)
      returns (weights: seq<Weight>, ghost removals: seq<Removal>)
      requires |points| >= 2 && |created| == |points| - 2
      requires RunState(all, created, points)
      requires forall k | 0 <= k < |created| :: created[k] in triangles
      modifies this`triangles, this`verticesToRemove, all
      ensures InteriorRemovals(|points|, removals) && RunningMaximum(removals)
      ensures weights == Replay(|points|, removals)
      ensures forall v | 1 <= v < |points| - 1 :: weights[v].Area? || created[v - 1] in triangles
      ensures verticesToRemove == old(verticesToRemove) + Twice(removals)
      ensures |removals| <= fuel && (triangles != [] ==> |removals| == fuel)
    {
      var n := |points|;
      weights := seq(n, _ => InitialArea);
      var lastRemovedVertexArea := 0.0;
      removals := [];
      ghost var start := verticesToRemove;
      var steps := 0;
      while triangles != [] && steps < fuel
        invariant RunState(all, created, points)
        invariant InteriorRemovals(n, removals) && RunningMaximum(removals)
        invariant lastRemovedVertexArea == PreviousWeight(removals, |removals|)
        invariant weights == Replay(n, removals)
        invariant forall v | 1 <= v < n - 1 :: weights[v].Area? || created[v - 1] in triangles
        invariant verticesToRemove == start + Twice(removals)
        invariant steps == |removals| <= fuel
        decreases fuel - steps
      {
        ghost var tr0, w0, r0 := triangles, weights, removals;
        var vertex, area := Pass(all, created, points);
        lastRemovedVertexArea := if area > lastRemovedVertexArea then area else lastRemovedVertexArea;
        weights := weights[vertex := Area(lastRemovedVertexArea)];
        ghost var removal := Removal(vertex, area, lastRemovedVertexArea);
        AppendRemoval(n, removals, removal);
        removals := removals + [removal];
        assert verticesToRemove == start + Twice(r0) + [vertex, vertex];
        assert start + Twice(r0) + [vertex, vertex] == start + (Twice(r0) + [vertex, vertex]);
        forall v | 1 <= v < n - 1 ensures weights[v].Area? || created[v - 1] in triangles {
          if v != vertex {
            assert weights[v] == w0[v];
            if !w0[v].Area? {
              assert created[v - 1] in tr0;
            }
          }
        }
        steps := steps + 1;
      }
    }

    /** The queue holds only triangles of this run, which stay closed under their links. */
    ghost predicate RunState(all: set<Triangle>, created: seq<Triangle>, points: seq<Point>)
      reads this, all
    {
      && (forall t | t in triangles :: t in all)
      && Closed(all, points)
      && (forall k | 0 <= k < |created| :: created[k].currentVertex == k + 1)
    }

    /** One pass of the getWeights loop without the weight bookkeeping: take the first
        triangle, relink its neighbours, record its vertex a second time. */
    method Pass(ghost all: set<Triangle>, ghost created: seq<Triangle>, ghost points: seq<Point>)
      returns (vertex: nat, area: real)
      requires triangles != [] && RunState(all, created, points)
      modifies this`triangles, this`verticesToRemove, all
      ensures RunState(all, created, points)
      ensures 1 <= vertex < |points| - 1 && area >= 0.0
      ensures vertex == old(triangles[0].currentVertex) && area == old(triangles[0].area)
      ensures verticesToRemove == old(verticesToRemove) + [vertex, vertex]
      ensures forall k | 0 <= k < |created| && k + 1 != vertex && created[k] in old(triangles) :: created[k] in triangles
    {
      var triangle := TakeTriangle();
      vertex, area := triangle.currentVertex, triangle.area;
      assert forall k | 0 <= k < |created| && k + 1 != vertex && created[k] in old(triangles) :: created[k] in triangles;
      Relink(triangle, all, points);
      verticesToRemove := verticesToRemove + [triangle.currentVertex];
    }

    /** The neighbours of a taken triangle take over its outer vertex and link and are moved
        to the end of the list. */
    method Relink(triangle: Triangle, ghost all: set<Triangle>, ghost points: seq<Point>)
      requires triangle in all && Closed(all, points)
      requires forall t | t in triangles :: t in all
      modifies this`triangles, all
      ensures Closed(all, points)
      ensures forall t | t in triangles :: t in all
      ensures forall t | t in old(triangles) :: t in triangles
      ensures old(triangle.next) != null ==> old(triangle.next) in triangles
      ensures old(triangle.prev) != null ==> old(triangle.prev) in triangles
      ensures old(triangle.next) != null && old(triangle.next) != old(triangle.prev) ==>
        var next := old(triangle.next);
        next.prev == old(triangle.prev) && next.prevVertex == old(triangle.prevVertex) && next.Valid()
      ensures old(triangle.prev) != null ==> var prev := old(triangle.prev);
        && prev.next == old(triangle.next) && prev.nextVertex == old(triangle.nextVertex) && prev.Valid()
        && triangles[|triangles| - 1] == prev
      ensures forall u | u in all && u != old(triangle.next) && u != old(triangle.prev) :: unchanged(u)
    {
      RelinkNext(triangle, all, points);
      RelinkPrev(triangle, all, points);
    }

    /** The next neighbour takes over the taken triangle's previous vertex and link. */
    method RelinkNext(triangle: Triangle, ghost all: set<Triangle>, ghost points: seq<Point>)
      requires triangle in all && Closed(all, points)
      requires forall t | t in triangles :: t in all
      modifies this`triangles, all
      ensures Closed(all, points) && triangle.prev == old(triangle.prev)
      ensures forall t | t in triangles :: t in all
      ensures forall t | t in old(triangles) :: t in triangles
      ensures old(triangle.next) != null ==> old(triangle.next) in triangles
      ensures old(triangle.next) == null ==> triangles == old(triangles)
      ensures old(triangle.next) != null ==> var next := old(triangle.next);
        && next.prev == old(triangle.prev) && next.prevVertex == old(triangle.prevVertex)
        && next.next == old(next.next) && next.nextVertex == old(next.nextVertex) && next.Valid()
        && triangles == RemoveFirst(old(triangles), next) + [next]
        && triangles[|triangles| - 1] == next
      ensures forall u | u in all && u != old(triangle.next) :: unchanged(u)
    {
      var next := triangle.next;
      if next != null {
        next.TakePrevFrom(triangle);
        Update(next);
      }
    }

    /** The previous neighbour takes over the taken triangle's next vertex and link. */
    method RelinkPrev(triangle: Triangle, ghost all: set<Triangle>, ghost points: seq<Point>)
      requires triangle in all && Closed(all, points)
      requires forall t | t in triangles :: t in all
      modifies this`triangles, all
      ensures Closed(all, points)
      ensures forall t | t in triangles :: t in all
      ensures forall t | t in old(triangles) :: t in triangles
      ensures old(triangle.prev) != null ==> old(triangle.prev) in triangles
      ensures old(triangle.prev) == null ==> triangles == old(triangles)
      ensures old(triangle.prev) != null ==> var prev := old(triangle.prev);
        && prev.next == old(triangle.next) && prev.nextVertex == old(triangle.nextVertex)
        && prev.prev == old(prev.prev) && prev.prevVertex == old(prev.prevVertex) && prev.Valid()
        && triangles == RemoveFirst(old(triangles), prev) + [prev]
        && triangles[|triangles| - 1] == prev
      ensures forall u | u in all && u != old(triangle.prev) :: unchanged(u)
    {
      var prev := triangle.prev;
      if prev != null {
        prev.TakeNextFrom(triangle);
        Update(prev);
      }
    }

    /** takeTriangle(): poll the first triangle of the list and record its vertex. */
    method TakeTriangle() returns (t: Triangle)
      requires triangles != []
      modifies this`triangles, this`verticesToRemove
      ensures t == old(triangles)[0] && triangles == old(triangles)[1..]
      ensures verticesToRemove == old(verticesToRemove) + [t.currentVertex]
    {
      t := triangles[0];
      triangles := triangles[1..];
      verticesToRemove := verticesToRemove + [t.currentVertex];
    }

    /** getIndex(): Collections.binarySearch by area, a miss turned into its insertion point.
        On a list sorted by area the index splits it into smaller-or-equal and
        greater-or-equal areas. */
    method GetIndex(t: Triangle) returns (index: nat)
      ensures index <= |triangles|
      ensures SortedByArea(triangles) ==>
        (forall i | 0 <= i < index :: triangles[i].area <= t.area) &&
        (forall i | index <= i < |triangles| :: t.area <= triangles[i].area)
    {
      ghost var sorted := SortedByArea(triangles);
      var low, high := 0, |triangles| - 1;
      while low <= high
        invariant 0 <= low <= |triangles| && -1 <= high < |triangles| && low <= high + 1
        invariant sorted ==> forall i | 0 <= i < low :: triangles[i].area < t.area
        invariant sorted ==> forall i | high < i < |triangles| :: t.area < triangles[i].area
      {
        var mid := (low + high) / 2;
        if triangles[mid].area < t.area {
          low := mid + 1;
        } else if triangles[mid].area > t.area {
          high := mid - 1;
        } else {
          return mid;
        }
      }
      index := low;
    }

    /** add(): insert at the binary-search position. */
    method Add(t: Triangle)
      modifies this`triangles
      ensures multiset(triangles) == multiset(old(triangles)) + multiset{t}
      ensures SortedByArea(old(triangles)) ==> SortedByArea(triangles)
    {
      var index := GetIndex(t);
      InsertAt(triangles, index, t);
      triangles := triangles[..index] + [t] + triangles[index..];
    }

    /** update(): remove the triangle and append it at the end of the list. */
    method Update(t: Triangle)
      modifies this`triangles
      ensures triangles == RemoveFirst(old(triangles), t) + [t]
    {
      triangles := RemoveFirst(triangles, t) + [t];
    }

    /** initTriangles(): one triangle per interior vertex; the link loop sets `next` and `prev`
        for the triangles at positions 1 .. size-2 only; all of them are then added. */
    method InitTriangles(points: seq<Point>) returns (ghost created: seq<Triangle>)
      requires |points| >= 2 && triangles == []
      modifies this`triangles
      ensures |created| == |points| - 2
      ensures forall i | 0 <= i < |created| :: fresh(created[i]) && AsConstructed(created[i], i, points)
      ensures forall i | 0 <= i < |created| :: Linked(created, i)
      ensures multiset(triangles) == multiset(created)
      ensures SortedByArea(triangles)
      ensures Closed(Elements(created), points)
    {
      var tris := CreateTriangles(points);
      LinkTriangles(tris);
      AddAll(tris);
      created := tris;
      forall t | t in Elements(tris)
        ensures && t.InRange() && t.area >= 0.0 && t.points == points && 1 <= t.currentVertex < |points| - 1
                && (t.prev != null ==> t.prev in Elements(tris)) && (t.next != null ==> t.next in Elements(tris))
      {
        var k :| 0 <= k < |tris| && tris[k] == t;
        assert AsConstructed(tris[k], k, points) && Linked(tris, k);
      }
    }

    /** triangles.forEach { add(it) }. */
    method AddAll(tris: seq<Triangle>)
      requires triangles == []
      modifies this`triangles
      ensures multiset(triangles) == multiset(tris)
      ensures SortedByArea(triangles)
    {
      var k := 0;
      while k < |tris|
        invariant 0 <= k <= |tris|
        invariant multiset(triangles) == multiset(tris[..k])
        invariant SortedByArea(triangles)
      {
        Add(tris[k]);
        assert tris[..k + 1] == tris[..k] + [tris[k]];
        k := k + 1;
      }
      assert tris[..|tris|] == tris;
    }
  }

  function Elements(s: seq<Triangle>): set<Triangle> {
    set k | 0 <= k < |s| :: s[k]
  }

  /** Inserting at a binary-search split point adds one element and keeps the order. */
  lemma InsertAt(s: seq<Triangle>, index: nat, t: Triangle)
    requires index <= |s|
    requires SortedByArea(s) ==>
      (forall i | 0 <= i < index :: s[i].area <= t.area) && (forall i | index <= i < |s| :: t.area <= s[i].area)
    ensures multiset(s[..index] + [t] + s[index..]) == multiset(s) + multiset{t}
    ensures SortedByArea(s) ==> SortedByArea(s[..index] + [t] + s[index..])
  {
    assert s == s[..index] + s[index..];
    if SortedByArea(s) {
      InsertAtSorted(s, index, t);
    }
  }

  lemma InsertAtSorted(s: seq<Triangle>, index: nat, t: Triangle)
    requires index <= |s| && SortedByArea(s)
    requires forall i | 0 <= i < index :: s[i].area <= t.area
    requires forall i | index <= i < |s| :: t.area <= s[i].area
    ensures SortedByArea(s[..index] + [t] + s[index..])
  {
    var r := s[..index] + [t] + s[index..];
    assert forall k | 0 <= k < |r| :: r[k] == (if k < index then s[k] else if k == index then t else s[k - 1]);
  }

  /** The triangles of one run: each valid over `points` with an interior apex, and their links
      stay among them. */
  ghost predicate Closed(all: set<Triangle>, points: seq<Point>)
    reads all
  {
    forall t | t in all ::
      && t.InRange() && t.area >= 0.0 && t.points == points && 1 <= t.currentVertex < |points| - 1
      && (t.prev != null ==> t.prev in all) && (t.next != null ==> t.next in all)
  }

  /** Triangle number k as constructed: apex k+1 between vertices k and k+2. */
  ghost predicate AsConstructed(t: Triangle, k: nat, points: seq<Point>)
    reads t
  {
    t.currentVertex == k + 1 && t.points == points && t.Valid() && t.prevVertex == k && t.nextVertex == k + 2
  }

  /** The links initTriangles leaves: only positions 1 .. size-2 point to their neighbours. */
  ghost predicate Linked(tris: seq<Triangle>, k: nat)
    requires k < |tris|
    reads tris[k]
  {
    LinkedBelow(tris, k, |tris| - 1)
  }

  /** The links of position k after the link loop has handled the positions 1 .. i-1. */
  ghost predicate LinkedBelow(tris: seq<Triangle>, k: nat, i: int)
    requires k < |tris|
    reads tris[k]
  {
    && tris[k].next == (if 1 <= k < i && k + 1 < |tris| then tris[k + 1] else null)
    && tris[k].prev == (if 1 <= k < i then tris[k - 1] else null)
  }

  /** The creation loop of initTriangles. */
  method CreateTriangles(points: seq<Point>) returns (tris: seq<Triangle>)
    requires |points| >= 2
    ensures |tris| == |points| - 2
    ensures forall k | 0 <= k < |tris| ::
      fresh(tris[k]) && AsConstructed(tris[k], k, points) && tris[k].prev == null && tris[k].next == null
  {
    tris := [];
    var i := 1;
    while i < |points| - 1
      invariant 1 <= i <= |points| - 1 && |tris| == i - 1
      invariant forall k | 0 <= k < |tris| ::
        fresh(tris[k]) && AsConstructed(tris[k], k, points) && tris[k].prev == null && tris[k].next == null
    {
      var t := new Triangle(i, points);
      tris := tris + [t];
      i := i + 1;
    }
  }

  /** The link loop of initTriangles; it changes only the `next` and `prev` links. */
  method LinkTriangles(tris: seq<Triangle>)
    requires forall k | 0 <= k < |tris| :: tris[k].currentVertex == k + 1
    requires forall k | 0 <= k < |tris| :: tris[k].prev == null && tris[k].next == null
    modifies set k | 0 <= k < |tris| :: tris[k]
    ensures forall k | 0 <= k < |tris| :: Linked(tris, k)
    ensures forall k | 0 <= k < |tris| :: SameVertices(tris[k], old(tris[k].prevVertex), old(tris[k].nextVertex), old(tris[k].area))
  {
    var i := 1;
    while i < |tris| - 1
      invariant i == 1 || 1 <= i <= |tris| - 1
      invariant forall k | 0 <= k < |tris| :: LinkedBelow(tris, k, i)
      invariant forall k | 0 <= k < |tris| :: SameVertices(tris[k], old(tris[k].prevVertex), old(tris[k].nextVertex), old(tris[k].area))
    {
      assert forall k | 0 <= k < |tris| && k != i :: tris[k] != tris[i] by {
        assert forall k | 0 <= k < |tris| && k != i :: tris[k].currentVertex != tris[i].currentVertex;
      }
      label before:
      tris[i].next := tris[i + 1];
      tris[i].prev := tris[i - 1];
      i := i + 1;
      forall k | 0 <= k < |tris| ensures LinkedBelow(tris, k, i) {
        if k != i - 1 {
          assert old@before(LinkedBelow(tris, k, i - 1));
        }
      }
    }
    forall k | 0 <= k < |tris| ensures Linked(tris, k) {
      assert LinkedBelow(tris, k, i);
      assert (1 <= k < i) == (1 <= k < |tris| - 1);
    }
  }

  ghost predicate SameVertices(t: Triangle, prevVertex: nat, nextVertex: nat, area: real)
    reads t
  {
    t.prevVertex == prevVertex && t.nextVertex == nextVertex && t.area == area
  }
}
