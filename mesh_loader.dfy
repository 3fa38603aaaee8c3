/**
 * The mesh loader's modellable parts:
 *  - the triangle-adjacency builder (CalculateTriangleNeighbours), proved
 *    against a per-edge specification (Sharers, NeighbourAt) whose meaning is
 *    established by lemmas: one record per triangle, neighbour range,
 *    boundary detection, smallest other sharer, independence from vertex
 *    order and symmetry on manifold input;
 *  - the per-vertex cloth record loop of LoadClothMesh;
 *  - the path-keyed texture cache of LoadTextureFromFile, with the image
 *    loader passed in as a function.
 */
module MeshLoader {
  import opened MathUtil
  import opened Geometry

  /** `std::pair<uint, uint>` used as an edge key: the two vertex indices of an edge. */
  type EdgeKey = (nat, nat)

  /** The canonical key of the undirected edge {a, b}: smaller index first. */
  function Key(a: nat, b: nat): EdgeKey
  {
    if a <= b then (a, b) else (b, a)
  }

  /**
   * The three edge keys the builder derives from a triangle, in slot order:
   * (min, median), (median, max), (min, max) of its vertex indices.
   */
  function CanonicalEdges(t: Triangle): (es: seq<EdgeKey>)
    ensures |es| == 3
    ensures forall k :: 0 <= k < 3 ==> es[k].0 <= es[k].1
  {
    var minv: nat := Min3(t.x, t.y, t.z);
    var medv: nat := Median3(t.x, t.y, t.z);
    var maxv: nat := Max3(t.x, t.y, t.z);
    [(minv, medv), (medv, maxv), (minv, maxv)]
  }

  /** The three slots are exactly the canonical keys of the triangle's three sides. */
  lemma CanonicalEdgesAreSides(t: Triangle)
    ensures multiset(CanonicalEdges(t)) == multiset{Key(t.x, t.y), Key(t.y, t.z), Key(t.x, t.z)}
  {
    var x, y, z := t.x, t.y, t.z;
    var lo, mid, hi := Min3(x, y, z), Median3(x, y, z), Max3(x, y, z);
    assert CanonicalEdges(t) == [(lo, mid), (mid, hi), (lo, hi)];
    if x <= y <= z {
      assert lo == x && mid == y && hi == z;
    } else if x <= z <= y {
      assert lo == x && mid == z && hi == y;
    } else if y <= x <= z {
      assert lo == y && mid == x && hi == z;
    } else if y <= z <= x {
      assert lo == y && mid == z && hi == x;
    } else if z <= x <= y {
      assert lo == z && mid == x && hi == y;
    } else {
      assert lo == z && mid == y && hi == x;
    }
  }

  /** `u` lists the same three vertex indices as `t`, in some order. */
  predicate IsReordering(t: Triangle, u: Triangle)
  {
    u == Triangle(t.x, t.y, t.z) || u == Triangle(t.x, t.z, t.y)
    || u == Triangle(t.y, t.x, t.z) || u == Triangle(t.y, t.z, t.x)
    || u == Triangle(t.z, t.x, t.y) || u == Triangle(t.z, t.y, t.x)
  }

  /** The edge keys, slot by slot, do not depend on the order of a triangle's indices. */
  lemma CanonicalEdgesIgnoreOrder(t: Triangle, u: Triangle)
    requires IsReordering(t, u)
    ensures CanonicalEdges(u) == CanonicalEdges(t)
  {
    OrderHelpersIgnoreArgumentOrder(t.x, t.y, t.z);
  }

  /** The IDs a triangle with slot keys `es` appends to edge `e`'s list: `id` once per slot whose key is `e`. */
  function Appended(id: nat, es: seq<EdgeKey>, e: EdgeKey): seq<nat>
    requires |es| == 3
  {
    (if es[0] == e then [id] else []) + (if es[1] == e then [id] else []) + (if es[2] == e then [id] else [])
  }

  /**
   * The list kept for edge `e` once the first `n` triangles are processed:
   * triangle IDs in the order they were appended.
   */
  function Sharers(tris: seq<Triangle>, n: nat, e: EdgeKey): seq<nat>
    requires n <= |tris|
    decreases n
  {
    if n == 0 then [] else Sharers(tris, n - 1, e) + Appended(n - 1, CanonicalEdges(tris[n - 1]), e)
  }

  /** How many of a triangle's slots carry key `e`. */
  function SlotsWith(t: Triangle, e: EdgeKey): (c: nat)
    ensures c > 0 <==> e in CanonicalEdges(t)
  {
    var es := CanonicalEdges(t);
    (if es[0] == e then 1 else 0) + (if es[1] == e then 1 else 0) + (if es[2] == e then 1 else 0)
  }

  /** Number of occurrences of `x` in `s`. */
  function Count(s: seq<nat>, x: nat): nat
  {
    if s == [] then 0 else (if s[0] == x then 1 else 0) + Count(s[1..], x)
  }

  lemma {:induction false} CountConcat(a: seq<nat>, b: seq<nat>, x: nat)
    ensures Count(a + b, x) == Count(a, x) + Count(b, x)
  {
    if a != [] {
      assert (a + b)[1..] == a[1..] + b;
      CountConcat(a[1..], b, x);
    } else {
      assert a + b == b;
    }
  }

  lemma {:induction false} CountPositive(s: seq<nat>, x: nat)
    ensures Count(s, x) > 0 <==> x in s
  {
    if s != [] {
      CountPositive(s[1..], x);
      assert s == [s[0]] + s[1..];
    }
  }

  /** Equal first and second entries make that value occur at least twice. */
  lemma LeadingPairCount(s: seq<nat>)
    requires |s| >= 2
    ensures s[0] == s[1] ==> Count(s, s[0]) >= 2
  {
    CountPositive(s[1..], s[0]);
    assert s[1..][0] == s[1];
  }

  lemma AppendedCount(id: nat, es: seq<EdgeKey>, e: EdgeKey, j: nat)
    requires |es| == 3
    ensures Count(Appended(id, es, e), j)
         == if j == id then (if es[0] == e then 1 else 0) + (if es[1] == e then 1 else 0) + (if es[2] == e then 1 else 0) else 0
  {
    var a, b, c := (if es[0] == e then [id] else []), (if es[1] == e then [id] else []), (if es[2] == e then [id] else []);
    CountConcat(a + b, c, j);
    CountConcat(a, b, j);
  }

  /**
   * Edge `e`'s list holds triangle `j` exactly as many times as `j` has
   * slots with key `e`, for every processed triangle, and nothing else.
   */
  lemma {:induction false} SharersCount(tris: seq<Triangle>, n: nat, e: EdgeKey, j: nat)
    requires n <= |tris|
    ensures Count(Sharers(tris, n, e), j) == if j < n then SlotsWith(tris[j], e) else 0
  {
    if n > 0 {
      SharersCount(tris, n - 1, e, j);
      AppendedCount(n - 1, CanonicalEdges(tris[n - 1]), e, j);
      CountConcat(Sharers(tris, n - 1, e), Appended(n - 1, CanonicalEdges(tris[n - 1]), e), j);
    }
  }

  /** Triangle `j` is on edge `e`'s list exactly when it is processed and has `e` among its edges. */
  lemma SharersMembership(tris: seq<Triangle>, n: nat, e: EdgeKey, j: nat)
    requires n <= |tris|
    ensures j in Sharers(tris, n, e) <==> j < n && e in CanonicalEdges(tris[j])
  {
    SharersCount(tris, n, e, j);
    CountPositive(Sharers(tris, n, e), j);
  }

  /** Entries of an edge's list are processed triangle IDs, in non-decreasing order. */
  lemma {:induction false} SharersSorted(tris: seq<Triangle>, n: nat, e: EdgeKey)
    requires n <= |tris|
    ensures forall j :: 0 <= j < |Sharers(tris, n, e)| ==> Sharers(tris, n, e)[j] < n
    ensures forall a, b :: 0 <= a < b < |Sharers(tris, n, e)| ==> Sharers(tris, n, e)[a] <= Sharers(tris, n, e)[b]
  {
    if n > 0 {
      SharersSorted(tris, n - 1, e);
    }
  }

  /**
   * The neighbour the builder stores for slot `k` of triangle `i`: -1 when
   * the edge's list holds a single entry, otherwise its first entry, or its
   * second when the first is triangle `i` itself.
   */
  function NeighbourAt(tris: seq<Triangle>, i: nat, k: nat): (r: int)
    requires i < |tris| && k < 3
    ensures r == NoNeighbour || 0 <= r < |tris|
  {
    var e := CanonicalEdges(tris[i])[k];
    var s := Sharers(tris, |tris|, e);
    SharersMembership(tris, |tris|, e, i);
    SharersSorted(tris, |tris|, e);
    if |s| == 1 then NoNeighbour
    else if s[0] != i then s[0]
    else s[1]
  }

  /** The record the builder stores for triangle `i`. */
  function TriangleRecord(tris: seq<Triangle>, i: nat): ClothTriangleData
    requires i < |tris|
  {
    var slots := [NeighbourAt(tris, i, 0), NeighbourAt(tris, i, 1), NeighbourAt(tris, i, 2)];
    assert |slots| == 3;
    ClothTriangleData(i, slots)
  }

  /** The whole table: one record per triangle, in triangle order. */
  function NeighbourTable(tris: seq<Triangle>): (table: seq<ClothTriangleData>)
    ensures |table| == |tris|
    ensures forall i :: 0 <= i < |tris| ==> table[i] == TriangleRecord(tris, i)
  {
    seq(|tris|, i requires 0 <= i < |tris| => TriangleRecord(tris, i))
  }

  /**
   * First pass of CalculateTriangleNeighbours: the look-up tables
   * edge -> triangles and triangle -> edges, filled by push_back in
   * triangle order.
   */
  method BuildLookupTables(triangles: seq<Triangle>)
    returns (edgeTriangles: map<EdgeKey, seq<nat>>, triangleEdges: map<nat, seq<EdgeKey>>)
    ensures edgeTriangles == EdgeTableAfter(triangles, |triangles|)
    ensures triangleEdges == TriangleTableAfter(triangles, |triangles|)
  {
    edgeTriangles, triangleEdges := map[], map[];
    var triangleID: nat := 0;

    while triangleID < |triangles|
      invariant triangleID <= |triangles|
      invariant edgeTriangles == EdgeTableAfter(triangles, triangleID)
      invariant triangleEdges == TriangleTableAfter(triangles, triangleID)
    {
      var tri := triangles[triangleID];
      var minv: nat := Min3(tri.x, tri.y, tri.z);
      var medv: nat := Median3(tri.x, tri.y, tri.z);
      var maxv: nat := Max3(tri.x, tri.y, tri.z);

      var e0, e1, e2 := (minv, medv), (medv, maxv), (minv, maxv);
      assert [e0, e1, e2] == CanonicalEdges(tri);

      edgeTriangles := PushBack(edgeTriangles, e0, triangleID);
      edgeTriangles := PushBack(edgeTriangles, e1, triangleID);
      edgeTriangles := PushBack(edgeTriangles, e2, triangleID);

      // The triangle's own list is empty before these three push_backs.
      triangleEdges := triangleEdges[triangleID := [e0, e1, e2]];

      triangleID := triangleID + 1;
    }
  }

  /** The edge table after the first pass has processed the first `n` triangles. */
  ghost function EdgeTableAfter(tris: seq<Triangle>, n: nat): map<EdgeKey, seq<nat>>
    requires n <= |tris|
  {
    if n == 0 then map[]
    else
      var es := CanonicalEdges(tris[n - 1]);
      PushBack(PushBack(PushBack(EdgeTableAfter(tris, n - 1), es[0], n - 1), es[1], n - 1), es[2], n - 1)
  }

  /** The triangle table after the first pass has processed the first `n` triangles. */
  ghost function TriangleTableAfter(tris: seq<Triangle>, n: nat): map<nat, seq<EdgeKey>>
    requires n <= |tris|
  {
    if n == 0 then map[] else TriangleTableAfter(tris, n - 1)[n - 1 := CanonicalEdges(tris[n - 1])]
  }

  /** In the edge table the first pass builds, every key's list is its sharers, in triangle order. */
  lemma {:induction false} EdgeTableLists(tris: seq<Triangle>, n: nat, e: EdgeKey)
    requires n <= |tris|
    ensures ListOf(EdgeTableAfter(tris, n), e) == Sharers(tris, n, e)
  {
    if n > 0 {
      EdgeTableLists(tris, n - 1, e);
      PushTriangle(EdgeTableAfter(tris, n - 1), n - 1, CanonicalEdges(tris[n - 1]), EdgeTableAfter(tris, n), e);
    }
  }

  /** The triangle table the first pass builds maps exactly the processed IDs, each to its slot keys. */
  lemma {:induction false} TriangleTableLists(tris: seq<Triangle>, n: nat, j: nat)
    requires n <= |tris|
    ensures j in TriangleTableAfter(tris, n) <==> j < n
    ensures j < n ==> TriangleTableAfter(tris, n)[j] == CanonicalEdges(tris[j])
  {
    if n > 0 {
      TriangleTableLists(tris, n - 1, j);
    }
  }

  /**
   * CalculateTriangleNeighbours: builds the look-up tables, then looks up
   * each slot's neighbour in a second pass, writing one record per triangle
   * by index into a pre-sized result.
   */
  method CalculateTriangleNeighbours(triangles: seq<Triangle>) returns (clothTriangleData: seq<ClothTriangleData>)
    ensures |clothTriangleData| == |triangles|
    ensures forall i :: 0 <= i < |triangles| ==> clothTriangleData[i].triangleID == i
    ensures clothTriangleData == NeighbourTable(triangles)
  {
    clothTriangleData := seq(|triangles|, _ => ClothTriangleData(0, [0, 0, 0]));

    var edgeTriangles, triangleEdges := BuildLookupTables(triangles);

    var triangleID: nat := 0;
    var data := ClothTriangleData(0, [0, 0, 0]);

    // Second pass: one record per triangle, its slots filled from the edge lists.
    while triangleID < |triangles|
      invariant triangleID <= |triangles|
      invariant |clothTriangleData| == |triangles|
      invariant forall j :: 0 <= j < triangleID ==> clothTriangleData[j] == TriangleRecord(triangles, j)
    {
      data := data.(triangleID := triangleID);

      data := FindSharingTriangles(edgeTriangles, triangleEdges, triangles, triangleID, data);
      clothTriangleData := clothTriangleData[triangleID := data];
      triangleID := triangleID + 1;
    }
  }

  /**
   * The inner loop of the second pass: fills the three slots of `data`
   * (already carrying triangle `triangleID`'s ID) from the edge lists.
   */
  method FindSharingTriangles(edgeTriangles: map<EdgeKey, seq<nat>>, triangleEdges: map<nat, seq<EdgeKey>>,
                              triangles: seq<Triangle>, triangleID: nat, data: ClothTriangleData)
    returns (filled: ClothTriangleData)
    requires triangleID < |triangles|
    requires edgeTriangles == EdgeTableAfter(triangles, |triangles|)
    requires triangleEdges == TriangleTableAfter(triangles, |triangles|)
    requires data.triangleID == triangleID
    ensures filled == TriangleRecord(triangles, triangleID)
  {
    filled := data;
    for edgeid := 0 to 3
      invariant filled.triangleID == triangleID
      invariant forall k :: 0 <= k < edgeid ==> filled.neighbourIDs[k] == NeighbourAt(triangles, triangleID, k)
    {
      ListedEdge(edgeTriangles, triangleEdges, triangles, triangleID, edgeid);
      var sharingTriangles := edgeTriangles[triangleEdges[triangleID][edgeid]];

      if |sharingTriangles| == 1 {
        // A single entry on the list: the edge lies on the boundary.
        filled := filled.(neighbourIDs := filled.neighbourIDs[edgeid := NoNeighbour]);
        continue;
      }

      if sharingTriangles[0] != triangleID {
        filled := filled.(neighbourIDs := filled.neighbourIDs[edgeid := sharingTriangles[0]]);
      } else {
        filled := filled.(neighbourIDs := filled.neighbourIDs[edgeid := sharingTriangles[1]]);
      }
    }
    RecordFromSlots(triangles, triangleID, filled);
  }

  /** In completed tables, every slot key of every triangle is listed, with a non-empty list. */
  lemma ListedEdge(m: map<EdgeKey, seq<nat>>, t: map<nat, seq<EdgeKey>>, tris: seq<Triangle>, i: nat, k: nat)
    requires i < |tris| && k < 3
    requires m == EdgeTableAfter(tris, |tris|) && t == TriangleTableAfter(tris, |tris|)
    ensures i in t && t[i] == CanonicalEdges(tris[i])
    ensures CanonicalEdges(tris[i])[k] in m
    ensures m[CanonicalEdges(tris[i])[k]] == Sharers(tris, |tris|, CanonicalEdges(tris[i])[k])
    ensures |m[CanonicalEdges(tris[i])[k]]| >= 1
  {
    var e := CanonicalEdges(tris[i])[k];
    SharersMembership(tris, |tris|, e, i);
    EdgeTableLists(tris, |tris|, e);
    TriangleTableLists(tris, |tris|, i);
  }

  /** Appending triangle `id` to the lists of its three slot keys, one after another. */
  lemma PushTriangle(m: map<EdgeKey, seq<nat>>, id: nat, es: seq<EdgeKey>, m3: map<EdgeKey, seq<nat>>, e: EdgeKey)
    requires |es| == 3
    requires m3 == PushBack(PushBack(PushBack(m, es[0], id), es[1], id), es[2], id)
    ensures ListOf(m3, e) == ListOf(m, e) + Appended(id, es, e)
  {
    var m1 := PushBack(m, es[0], id);
    var m2 := PushBack(m1, es[1], id);
    PushBackList(m, es[0], id, e);
    PushBackList(m1, es[1], id, e);
    PushBackList(m2, es[2], id, e);
    var a, b, c := (if es[0] == e then [id] else []), (if es[1] == e then [id] else []), (if es[2] == e then [id] else []);
    assert ListOf(m3, e) == ListOf(m, e) + a + b + c;
    assert a + b + c == Appended(id, es, e);
  }

  /** `list[e].push_back(id)` on a map of lists. */
  function PushBack(m: map<EdgeKey, seq<nat>>, e: EdgeKey, id: nat): map<EdgeKey, seq<nat>>
  {
    m[e := ListOf(m, e) + [id]]
  }

  lemma PushBackList(m: map<EdgeKey, seq<nat>>, e: EdgeKey, id: nat, e': EdgeKey)
    ensures ListOf(PushBack(m, e, id), e') == ListOf(m, e') + (if e' == e then [id] else [])
  {
  }

  /** A record whose ID is `i` and whose slots agree with NeighbourAt is triangle `i`'s record. */
  lemma RecordFromSlots(tris: seq<Triangle>, i: nat, d: ClothTriangleData)
    requires i < |tris|
    requires d.triangleID == i
    requires forall k :: 0 <= k < 3 ==> d.neighbourIDs[k] == NeighbourAt(tris, i, k)
    ensures d == TriangleRecord(tris, i)
  {
    var slots := d.neighbourIDs;
    assert slots == [slots[0], slots[1], slots[2]];
  }

  /** `std::map::operator[]` on a missing key reads an empty list. */
  function ListOf(m: map<EdgeKey, seq<nat>>, e: EdgeKey): seq<nat>
  {
    if e in m then m[e] else []
  }

  // ---------------------------------------------------------------------
  // What the stored neighbours mean.

  /** Triangle `j` has the edge with key `e` among its three slots. */
  ghost predicate HasEdge(tris: seq<Triangle>, j: nat, e: EdgeKey)
    requires j < |tris|
  {
    e in CanonicalEdges(tris[j])
  }

  /** A triangle whose three vertex indices are pairwise different. */
  predicate NonDegenerate(t: Triangle)
  {
    t.x != t.y && t.y != t.z && t.x != t.z
  }

  /** A non-degenerate triangle carries each edge key in at most one slot. */
  lemma SlotsOfNonDegenerate(t: Triangle, e: EdgeKey)
    requires NonDegenerate(t)
    ensures SlotsWith(t, e) <= 1
  {
    var es := CanonicalEdges(t);
    assert Min3(t.x, t.y, t.z) < Median3(t.x, t.y, t.z) < Max3(t.x, t.y, t.z);
    assert es[0] != es[1] && es[1] != es[2] && es[0] != es[2];
  }

  /**
   * Boundary detection: a slot is -1 exactly when its edge's list has one
   * entry, that is, when the triangle carries the edge in one slot only and
   * no other triangle of the mesh has it.
   */
  lemma BoundaryExactly(tris: seq<Triangle>, i: nat, k: nat)
    requires i < |tris| && k < 3
    ensures NeighbourAt(tris, i, k) == NoNeighbour
        <==> SlotsWith(tris[i], CanonicalEdges(tris[i])[k]) == 1
             && forall j :: 0 <= j < |tris| && j != i ==> !HasEdge(tris, j, CanonicalEdges(tris[i])[k])
  {
    var e := CanonicalEdges(tris[i])[k];
    var s := Sharers(tris, |tris|, e);
    SharersMembership(tris, |tris|, e, i);
    SharersCount(tris, |tris|, e, i);
    if |s| == 1 {
      assert s == [i];
      forall j | 0 <= j < |tris| && j != i ensures !HasEdge(tris, j, e) {
        SharersMembership(tris, |tris|, e, j);
      }
    } else {
      LeadingPairCount(s);
      var j := if s[0] != i then s[0] else s[1];
      SharersMembership(tris, |tris|, e, j);
      if j == i {
        assert Count(s, s[0]) >= 2 && s[0] == i;
      } else {
        assert HasEdge(tris, j, e);
      }
    }
  }

  /**
   * For a non-degenerate triangle, a slot is -1 exactly when no other
   * triangle of the mesh has that slot's edge.
   */
  lemma BoundaryIff(tris: seq<Triangle>, i: nat, k: nat)
    requires i < |tris| && k < 3
    requires NonDegenerate(tris[i])
    ensures NeighbourAt(tris, i, k) == NoNeighbour
        <==> forall j :: 0 <= j < |tris| && j != i ==> !HasEdge(tris, j, CanonicalEdges(tris[i])[k])
  {
    var e := CanonicalEdges(tris[i])[k];
    BoundaryExactly(tris, i, k);
    SlotsOfNonDegenerate(tris[i], e);
  }

  /**
   * A stored neighbour of a non-degenerate triangle is another triangle that
   * has the slot's edge, and the one with the smallest ID among those.
   */
  lemma FirstOtherSharer(tris: seq<Triangle>, i: nat, k: nat)
    requires i < |tris| && k < 3
    requires NonDegenerate(tris[i])
    requires NeighbourAt(tris, i, k) != NoNeighbour
    ensures var r := NeighbourAt(tris, i, k);
            0 <= r < |tris| && r != i && HasEdge(tris, r, CanonicalEdges(tris[i])[k])
            && forall j :: 0 <= j < r && j != i ==> !HasEdge(tris, j, CanonicalEdges(tris[i])[k])
  {
    var e := CanonicalEdges(tris[i])[k];
    var s := Sharers(tris, |tris|, e);
    var r := NeighbourAt(tris, i, k);
    SharersMembership(tris, |tris|, e, i);
    SharersCount(tris, |tris|, e, i);
    SlotsOfNonDegenerate(tris[i], e);
    SharersSorted(tris, |tris|, e);
    LeadingPairCount(s);
    assert r == s[0] || r == s[1];
    SharersMembership(tris, |tris|, e, r);
    forall j | 0 <= j < r && j != i ensures !HasEdge(tris, j, e) {
      SharersMembership(tris, |tris|, e, j);
    }
  }

  /**
   * The input the builder is meant for: every triangle non-degenerate and no
   * edge shared by three different triangles. This is narrower than "every
   * edge on at most two triangles": a repeated index is excluded as well.
   */
  ghost predicate Manifold(tris: seq<Triangle>)
  {
    (forall j :: 0 <= j < |tris| ==> NonDegenerate(tris[j]))
    && NoEdgeOnThree(tris)
  }

  /** No edge is shared by three different triangles. */
  ghost predicate NoEdgeOnThree(tris: seq<Triangle>)
  {
    forall a, b, c, e :: 0 <= a < |tris| && 0 <= b < |tris| && 0 <= c < |tris|
      && a != b && b != c && a != c && HasEdge(tris, a, e) && HasEdge(tris, b, e)
      ==> !HasEdge(tris, c, e)
  }

  /**
   * Symmetry, the property the builder's debug pass asserts: on a manifold
   * mesh, when triangle `i` names `r` as a neighbour, `r` names `i` back,
   * and does so in the slot that carries the same edge.
   */
  lemma NeighbourSymmetric(tris: seq<Triangle>, i: nat, k: nat)
    requires Manifold(tris)
    requires i < |tris| && k < 3
    requires NeighbourAt(tris, i, k) != NoNeighbour
    ensures var r := NeighbourAt(tris, i, k);
            0 <= r < |tris| && i in TriangleRecord(tris, r).neighbourIDs
    ensures var r := NeighbourAt(tris, i, k);
            0 <= r < |tris|
            && exists k' :: 0 <= k' < 3 && CanonicalEdges(tris[r])[k'] == CanonicalEdges(tris[i])[k]
                            && NeighbourAt(tris, r, k') == i
  {
    var e := CanonicalEdges(tris[i])[k];
    FirstOtherSharer(tris, i, k);
    var r: nat := NeighbourAt(tris, i, k);
    var k' :| 0 <= k' < 3 && CanonicalEdges(tris[r])[k'] == e;
    BoundaryIff(tris, r, k');
    assert HasEdge(tris, i, e);
    FirstOtherSharer(tris, r, k');
    var r' := NeighbourAt(tris, r, k');
    assert r' == i;
    assert TriangleRecord(tris, r).neighbourIDs[k'] == i;
  }

  /** The whole table is symmetric on a manifold mesh: every stored neighbour lists the triangle back. */
  lemma TableSymmetric(tris: seq<Triangle>)
    requires Manifold(tris)
    ensures var table := NeighbourTable(tris);
            forall i, k :: 0 <= i < |table| && 0 <= k < 3 && table[i].neighbourIDs[k] != NoNeighbour ==>
              0 <= table[i].neighbourIDs[k] < |table|
              && table[i].triangleID in table[table[i].neighbourIDs[k]].neighbourIDs
  {
    var table := NeighbourTable(tris);
    forall i, k | 0 <= i < |table| && 0 <= k < 3 && table[i].neighbourIDs[k] != NoNeighbour
      ensures 0 <= table[i].neighbourIDs[k] < |table|
              && table[i].triangleID in table[table[i].neighbourIDs[k]].neighbourIDs
    {
      assert table[i].neighbourIDs[k] == NeighbourAt(tris, i, k);
      NeighbourSymmetric(tris, i, k);
    }
  }

  /** Symmetry edge by edge: every stored neighbour names the triangle back in its slot for the same edge. */
  lemma TableSymmetricPerEdge(tris: seq<Triangle>)
    requires Manifold(tris)
    ensures var table := NeighbourTable(tris);
            forall i, k :: 0 <= i < |table| && 0 <= k < 3 && table[i].neighbourIDs[k] != NoNeighbour ==>
              SameEdgeNamesBack(tris, table, i, k)
  {
    var table := NeighbourTable(tris);
    forall i, k | 0 <= i < |table| && 0 <= k < 3 && table[i].neighbourIDs[k] != NoNeighbour
      ensures SameEdgeNamesBack(tris, table, i, k)
    {
      assert table[i] == TriangleRecord(tris, i);
      NeighbourSymmetric(tris, i, k);
      var r: nat := NeighbourAt(tris, i, k);
      var k' :| 0 <= k' < 3 && CanonicalEdges(tris[r])[k'] == CanonicalEdges(tris[i])[k]
                && NeighbourAt(tris, r, k') == i;
      SlotNamesBack(tris, table, i, k, r, k');
    }
  }

  /**
   * One slot of the table: when the stored neighbour `r` names triangle `i`
   * in its slot for the same edge, the table shows that back-reference.
   */
  lemma SlotNamesBack(tris: seq<Triangle>, table: seq<ClothTriangleData>, i: nat, k: nat, r: nat, k': nat)
    requires table == NeighbourTable(tris)
    requires i < |tris| && k < 3 && r < |tris| && k' < 3
    requires table[i].neighbourIDs[k] == r
    requires CanonicalEdges(tris[r])[k'] == CanonicalEdges(tris[i])[k] && NeighbourAt(tris, r, k') == i
    ensures SameEdgeNamesBack(tris, table, i, k)
  {
    assert table[r] == TriangleRecord(tris, r);
    RecordSlot(tris, r, k');
    assert table[r].neighbourIDs[k'] == i;
  }

  /** Slot `k` of triangle `r`'s record is the neighbour the builder stores for that slot. */
  lemma RecordSlot(tris: seq<Triangle>, r: nat, k: nat)
    requires r < |tris| && k < 3
    ensures TriangleRecord(tris, r).neighbourIDs[k] == NeighbourAt(tris, r, k)
  {
  }

  /**
   * In the table `table` for `tris`, the neighbour stored in slot `k` of
   * triangle `i` is a triangle that names `i` back in its slot for the same
   * edge.
   */
  ghost predicate SameEdgeNamesBack(tris: seq<Triangle>, table: seq<ClothTriangleData>, i: nat, k: nat)
    requires |table| == |tris| && i < |tris| && k < 3
  {
    var r := table[i].neighbourIDs[k];
    0 <= r < |table|
    && exists k' :: 0 <= k' < 3 && CanonicalEdges(tris[r])[k'] == CanonicalEdges(tris[i])[k]
                    && table[r].neighbourIDs[k'] == i
  }

  // ---------------------------------------------------------------------
  // Independence from vertex order, and what happens off the intended input.

  /** Triangles whose slot keys agree, position by position, have the same edge lists. */
  lemma {:induction false} SharersAgree(t1: seq<Triangle>, t2: seq<Triangle>, n: nat, e: EdgeKey)
    requires n <= |t1| == |t2|
    requires forall j :: 0 <= j < |t1| ==> CanonicalEdges(t1[j]) == CanonicalEdges(t2[j])
    ensures Sharers(t1, n, e) == Sharers(t2, n, e)
  {
    if n > 0 {
      SharersAgree(t1, t2, n - 1, e);
    }
  }

  /**
   * Reordering the vertex indices of any triangles (as flipping their
   * winding does) leaves the whole neighbour table unchanged.
   */
  lemma ReorderingKeepsTable(t1: seq<Triangle>, t2: seq<Triangle>)
    requires |t1| == |t2|
    requires forall j :: 0 <= j < |t1| ==> IsReordering(t1[j], t2[j])
    ensures NeighbourTable(t1) == NeighbourTable(t2)
  {
    forall j | 0 <= j < |t1| ensures CanonicalEdges(t1[j]) == CanonicalEdges(t2[j]) {
      CanonicalEdgesIgnoreOrder(t1[j], t2[j]);
    }
    forall i | 0 <= i < |t1| ensures TriangleRecord(t1, i) == TriangleRecord(t2, i) {
      RecordsAgree(t1, t2, i);
    }
  }

  /** Meshes whose slot keys agree triangle by triangle get the same record for each triangle. */
  lemma RecordsAgree(t1: seq<Triangle>, t2: seq<Triangle>, i: nat)
    requires i < |t1| == |t2|
    requires forall j :: 0 <= j < |t1| ==> CanonicalEdges(t1[j]) == CanonicalEdges(t2[j])
    ensures TriangleRecord(t1, i) == TriangleRecord(t2, i)
  {
    var es := CanonicalEdges(t1[i]);
    SharersAgree(t1, t2, |t1|, es[0]);
    SharersAgree(t1, t2, |t1|, es[1]);
    SharersAgree(t1, t2, |t1|, es[2]);
  }

  /**
   * Without the manifold condition symmetry fails: three triangles on edge
   * {0, 1}; the third names the first, which names only the second. A
   * debug build aborts on this input at its symmetry assert.
   */
  lemma NonManifoldBreaksSymmetry()
    ensures var tris := [Triangle(0, 1, 2), Triangle(0, 1, 3), Triangle(0, 1, 4)];
            NeighbourAt(tris, 2, 0) == 0 && 2 !in TriangleRecord(tris, 0).neighbourIDs
  {
    var tris := [Triangle(0, 1, 2), Triangle(0, 1, 3), Triangle(0, 1, 4)];
    assert Sharers(tris, 3, (0, 1)) == [0, 1, 2];
    assert Sharers(tris, 3, (1, 2)) == [0];
    assert Sharers(tris, 3, (0, 2)) == [0];
  }

  /**
   * Without non-degeneracy symmetry fails too, even though no edge lies on
   * three triangles: the degenerate first triangle lists edge {0, 1} twice,
   * so the second names the first, which names itself instead. A debug
   * build aborts on this input at its symmetry assert.
   */
  lemma DegenerateBreaksSymmetry()
    ensures var tris := [Triangle(0, 0, 1), Triangle(0, 1, 2)];
            NoEdgeOnThree(tris) && !Manifold(tris)
            && NeighbourAt(tris, 1, 0) == 0 && 1 !in TriangleRecord(tris, 0).neighbourIDs
  {
    var tris := [Triangle(0, 0, 1), Triangle(0, 1, 2)];
    assert CanonicalEdges(tris[0]) == [(0, 0), (0, 1), (0, 1)];
    assert CanonicalEdges(tris[1]) == [(0, 1), (1, 2), (0, 2)];
    assert Sharers(tris, 2, (0, 1)) == [0, 0, 1];
    assert Sharers(tris, 2, (0, 0)) == [0];
    assert !NonDegenerate(tris[0]);
  }

  /** A degenerate triangle with a repeated index names itself as its own neighbour. */
  lemma DegenerateListsItself()
    ensures NeighbourAt([Triangle(0, 0, 1)], 0, 1) == 0
  {
    var tris := [Triangle(0, 0, 1)];
    assert CanonicalEdges(tris[0]) == [(0, 0), (0, 1), (0, 1)];
    assert Sharers(tris, 1, (0, 1)) == [0, 0];
  }

  // ---------------------------------------------------------------------
  // Per-vertex cloth records of LoadClothMesh.

  /** One record per vertex, pushed back in index order, each with mass 1. */
  method ClothVertexRecords(numVertices: nat) returns (clothVertexData: seq<ClothVertexData>)
    ensures |clothVertexData| == numVertices
    ensures forall i :: 0 <= i < numVertices ==> clothVertexData[i] == ClothVertexData(i, 1.0)
  {
    clothVertexData := [];
    var data := ClothVertexData(0, 1.0);
    var i: nat := 0;
    while i < numVertices
      invariant i <= numVertices
      invariant |clothVertexData| == i
      invariant data.mass == 1.0
      invariant forall j :: 0 <= j < i ==> clothVertexData[j] == ClothVertexData(j, 1.0)
    {
      data := data.(vertexID := i);
      clothVertexData := clothVertexData + [data];
      i := i + 1;
    }
  }

  // ---------------------------------------------------------------------
  // The texture cache of LoadTextureFromFile.

  /** No two textures in the list have the same path. */
  predicate UniquePaths(textures: seq<Texture>)
  {
    forall a, b :: 0 <= a < b < |textures| ==> textures[a].path != textures[b].path
  }

  /** std::find_if by path: the first matching position, or the length when none matches. */
  method FindTexture(textures: seq<Texture>, path: string) returns (index: nat)
    ensures index <= |textures|
    ensures index < |textures| ==> textures[index].path == path
    ensures forall j :: 0 <= j < index ==> textures[j].path != path
  {
    index := 0;
    while index < |textures| && textures[index].path != path
      invariant index <= |textures|
      invariant forall j :: 0 <= j < index ==> textures[j].path != path
    {
      index := index + 1;
    }
  }

  /**
   * The loader's list of loaded textures. The image loader (SOIL) is a
   * parameter: a function from a file path to the texture name it creates.
   */
  class TextureCache {
    var loadedTextures: seq<Texture>

    ghost predicate Valid()
      reads this
    {
      UniquePaths(loadedTextures)
    }

    constructor()
      ensures Valid()
      ensures loadedTextures == []
    {
      loadedTextures := [];
    }

    /**
     * A cached path returns the cached texture (whatever kind is asked for)
     * and leaves the list as it is; a new path is loaded once and appended.
     */
    method LoadTextureFromFile(path: string, kind: string, load: string -> nat) returns (texture: Texture)
      requires Valid()
      modifies this
      ensures Valid()
      ensures texture.path == path
      ensures (exists j :: 0 <= j < |old(loadedTextures)| && old(loadedTextures)[j].path == path) ==>
                loadedTextures == old(loadedTextures)
      ensures forall j :: 0 <= j < |old(loadedTextures)| && old(loadedTextures)[j].path == path ==>
                texture == old(loadedTextures)[j]
      ensures (forall j :: 0 <= j < |old(loadedTextures)| ==> old(loadedTextures)[j].path != path) ==>
                texture == Texture(load(path), kind, path)
                && loadedTextures == old(loadedTextures) + [texture]
    {
      var index := FindTexture(loadedTextures, path);
      if index < |loadedTextures| {
        return loadedTextures[index];
      }
      texture := Texture(load(path), kind, path);
      loadedTextures := loadedTextures + [texture];
    }
  }
}
