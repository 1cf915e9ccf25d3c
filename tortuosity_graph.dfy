// The graph tomviz's tortuosity operator builds from a labelled volume: one
// node per voxel of the chosen phase (numbered after 2 * ndim reserved face
// nodes, in lexicographic voxel order), an edge between in-phase neighbours
// weighted by the distance method, face edges from each auxiliary node to the
// in-phase voxels of its face, the sparse-matrix triplets of that graph, the
// volume of shortest distances written back from the search, and the voxels
// of one slice along a propagation direction.

module TortuosityGraph {
  import opened Wrappers
  import opened TortuosityCoords

  // ---- Distance functions ----

  /** DistanceMethod: Eucledian = 0, CityBlock = 1, ChessBoard = 2. */
  datatype Method = Euclidean | CityBlock | ChessBoard

  /** An edge weight: 1, or the square root of a whole number (the Euclidean length of an offset). */
  datatype Weight = Unit | Root(squared: nat)

  /** get_distance_function: the three methods are known; anything else raises. */
  function DistanceFunction(code: int): (r: Result<Method>)
    ensures r.Ok? <==> 0 <= code <= 2
    ensures code == 0 ==> r == Ok(Euclidean)
    ensures code == 1 ==> r == Ok(CityBlock)
    ensures code == 2 ==> r == Ok(ChessBoard)
  {
    if code == 0 then Ok(Euclidean)
    else if code == 2 then Ok(ChessBoard)
    else if code == 1 then Ok(CityBlock)
    else Err("Unknown distance method")
  }

  function Abs(x: int): nat
  {
    if x < 0 then -x else x
  }

  function SumAbs(v: seq<int>): nat
  {
    if |v| == 0 then 0 else Abs(v[0]) + SumAbs(v[1..])
  }

  function SumSquares(v: seq<int>): nat
  {
    if |v| == 0 then 0 else v[0] * v[0] + SumSquares(v[1..])
  }

  /** distance_fn(vec): no weight means "no edge". */
  function Distance(m: Method, v: seq<int>): Option<Weight>
  {
    match m
    case Euclidean => Some(Root(SumSquares(v)))
    case ChessBoard => Some(Unit)
    case CityBlock => if SumAbs(v) > 1 then None else Some(Unit)
  }

  function Negate(v: seq<int>): (w: seq<int>)
    ensures |w| == |v| && forall k :: 0 <= k < |v| ==> w[k] == -v[k]
  {
    seq(|v|, k requires 0 <= k < |v| => -v[k])
  }

  /** Chess-board steps all weigh 1; city-block steps exist only for offsets of length at most 1; Euclidean steps always exist. */
  lemma DistanceSpec(v: seq<int>)
    ensures Distance(ChessBoard, v) == Some(Unit)
    ensures Distance(CityBlock, v).Some? <==> SumAbs(v) <= 1
    ensures Distance(CityBlock, v).Some? ==> Distance(CityBlock, v) == Some(Unit)
    ensures Distance(Euclidean, v).Some?
  {
  }

  /** Among neighbour offsets, city-block keeps exactly those along one axis. */
  lemma {:induction false} CityBlockFaceNeighbors(v: seq<int>)
    requires AnyNonZero(v) && forall k :: 0 <= k < |v| ==> -1 <= v[k] <= 1
    ensures Distance(CityBlock, v).Some? <==> forall i, j :: 0 <= i < j < |v| ==> v[i] == 0 || v[j] == 0
    decreases |v|
  {
    if v[0] == 0 {
      var k :| 0 <= k < |v| && v[k] != 0;
      assert v[1..][k - 1] != 0;
      assert forall k :: 0 <= k < |v[1..]| ==> -1 <= v[1..][k] <= 1 by {
        forall k | 0 <= k < |v[1..]| ensures -1 <= v[1..][k] <= 1 {
          assert v[1..][k] == v[k + 1];
        }
      }
      CityBlockFaceNeighbors(v[1..]);
      PairsOfTail(v);
    } else {
      SumAbsZero(v[1..]);
      PairsWithHead(v);
    }
  }

  lemma PairsWithHead(v: seq<int>)
    requires |v| > 0 && v[0] != 0
    ensures (forall i, j :: 0 <= i < j < |v| ==> v[i] == 0 || v[j] == 0)
        <==> (forall k :: 0 <= k < |v[1..]| ==> v[1..][k] == 0)
  {
    if forall i, j :: 0 <= i < j < |v| ==> v[i] == 0 || v[j] == 0 {
      forall k | 0 <= k < |v[1..]| ensures v[1..][k] == 0 {
        assert v[1..][k] == v[k + 1];
      }
    }
    if forall k :: 0 <= k < |v[1..]| ==> v[1..][k] == 0 {
      forall i, j | 0 <= i < j < |v| ensures v[i] == 0 || v[j] == 0 {
        assert v[1..][j - 1] == v[j];
      }
    }
  }

  lemma PairsOfTail(v: seq<int>)
    requires |v| > 0 && v[0] == 0
    ensures (forall i, j :: 0 <= i < j < |v| ==> v[i] == 0 || v[j] == 0)
        <==> (forall i, j :: 0 <= i < j < |v[1..]| ==> v[1..][i] == 0 || v[1..][j] == 0)
  {
    if forall i, j :: 0 <= i < j < |v[1..]| ==> v[1..][i] == 0 || v[1..][j] == 0 {
      forall i, j | 0 <= i < j < |v| ensures v[i] == 0 || v[j] == 0 {
        if i > 0 {
          assert v[1..][i - 1] == v[i] && v[1..][j - 1] == v[j];
        }
      }
    }
  }

  lemma {:induction false} SumAbsZero(v: seq<int>)
    ensures SumAbs(v) == 0 <==> forall k :: 0 <= k < |v| ==> v[k] == 0
    decreases |v|
  {
    if |v| > 0 {
      SumAbsZero(v[1..]);
      if forall k :: 0 <= k < |v[1..]| ==> v[1..][k] == 0 {
        assert forall k :: 0 < k < |v| ==> v[k] == v[1..][k - 1];
      }
    }
  }

  /** Every method gives an offset and its opposite the same weight, so an edge's weight does not depend on which end found it. */
  lemma DistanceSymmetric(m: Method, v: seq<int>)
    ensures Distance(m, Negate(v)) == Distance(m, v)
  {
    NegateSums(v);
  }

  lemma {:induction false} NegateSums(v: seq<int>)
    ensures SumAbs(Negate(v)) == SumAbs(v) && SumSquares(Negate(v)) == SumSquares(v)
    decreases |v|
  {
    if |v| > 0 {
      NegateSums(v[1..]);
      assert Negate(v)[1..] == Negate(v[1..]);
    }
  }

  // ---- Node numbering ----

  /** The extent of a volume: (0, s) for each axis length s. */
  function ExtentOf(shape: seq<nat>): (e: Extent)
    ensures |e| == |shape| && forall k :: 0 <= k < |shape| ==> e[k] == (0, shape[k] as int)
  {
    seq(|shape|, k requires 0 <= k < |shape| => (0, shape[k] as int))
  }

  /** The voxels of `coords` that belong to the phase, in the same order. */
  function InPhase(coords: seq<seq<int>>, volume: map<seq<int>, int>, phase: int): seq<seq<int>>
    requires forall c :: c in coords ==> c in volume
  {
    if |coords| == 0 then []
    else
      var last := coords[|coords| - 1];
      InPhase(coords[..|coords| - 1], volume, phase) + (if volume[last] == phase then [last] else [])
  }

  lemma {:induction false} InPhaseMembers(coords: seq<seq<int>>, volume: map<seq<int>, int>, phase: int)
    requires forall c :: c in coords ==> c in volume
    ensures forall c :: c in InPhase(coords, volume, phase) <==> c in coords && volume[c] == phase
    decreases |coords|
  {
    if |coords| > 0 {
      InPhaseMembers(coords[..|coords| - 1], volume, phase);
      assert coords == coords[..|coords| - 1] + [coords[|coords| - 1]];
    }
  }

  /** Dropping voxels keeps the lexicographic order. */
  lemma {:induction false} InPhaseSorted(coords: seq<seq<int>>, volume: map<seq<int>, int>, phase: int)
    requires forall c :: c in coords ==> c in volume
    requires LexSorted(coords)
    ensures LexSorted(InPhase(coords, volume, phase))
    decreases |coords|
  {
    if |coords| > 0 {
      var n := |coords| - 1;
      var init := coords[..n];
      assert LexSorted(init) by {
        forall i, j | 0 <= i < j < |init| ensures LexLess(init[i], init[j]) {
          assert init[i] == coords[i] && init[j] == coords[j];
        }
      }
      InPhaseSorted(init, volume, phase);
      InPhaseMembers(init, volume, phase);
      var front := InPhase(init, volume, phase);
      if volume[coords[n]] == phase {
        forall i | 0 <= i < |front| ensures LexLess(front[i], coords[n]) {
          assert front[i] in init;
          var p :| 0 <= p < n && init[p] == front[i];
        }
      }
    }
  }

  /** `nodes` are numbered from `start` in order, and only they. */
  ghost predicate Numbered(nodeMap: map<seq<int>, int>, nodes: seq<seq<int>>, start: int)
  {
    nodeMap.Keys == (set c | c in nodes)
    && forall k :: 0 <= k < |nodes| ==> nodes[k] in nodeMap && nodeMap[nodes[k]] == start + k
  }

  /** The node array covers the voxels and holds each one's id, or -1. */
  ghost predicate ArrayOf(nodeArray: map<seq<int>, int>, nodeMap: map<seq<int>, int>, coords: seq<seq<int>>)
  {
    nodeArray.Keys == (set c | c in coords)
    && forall c :: c in nodeArray ==> nodeArray[c] == (if c in nodeMap then nodeMap[c] else -1)
  }

  /** Numbering one more voxel keeps both. */
  lemma NumberStep(nodeMap: map<seq<int>, int>, nodes: seq<seq<int>>, start: int,
                   nodeArray: map<seq<int>, int>, coords: seq<seq<int>>, coord: seq<int>)
    requires Numbered(nodeMap, nodes, start) && ArrayOf(nodeArray, nodeMap, coords)
    requires coord !in nodes && coord in coords
    ensures Numbered(nodeMap[coord := start + |nodes|], nodes + [coord], start)
    ensures ArrayOf(nodeArray[coord := start + |nodes|], nodeMap[coord := start + |nodes|], coords)
  {
    var m := nodeMap[coord := start + |nodes|];
    var ns := nodes + [coord];
    assert m.Keys == (set c | c in ns);
    forall k | 0 <= k < |ns| ensures ns[k] in m && m[ns[k]] == start + k {
      if k < |nodes| {
        assert ns[k] == nodes[k] && nodes[k] != coord;
      }
    }
  }

  /** The loop meets each voxel once, so a voxel is never numbered twice. */
  lemma NotYetNumbered(coords: seq<seq<int>>, i: nat, volume: map<seq<int>, int>, phase: int)
    requires i < |coords| && forall c :: c in coords ==> c in volume
    requires forall a, b :: 0 <= a < b < |coords| ==> coords[a] != coords[b]
    ensures coords[i] !in InPhase(coords[..i], volume, phase)
  {
    InPhaseMembers(coords[..i], volume, phase);
    forall j | 0 <= j < i ensures coords[..i][j] != coords[i] {
      assert coords[..i][j] == coords[j];
    }
  }

  /** One pass of the numbering loop keeps its invariants, whether or not the voxel is in the phase. */
  lemma NumberLoopStep(coords: seq<seq<int>>, i: nat, volume: map<seq<int>, int>, phase: int,
                       nodeMap: map<seq<int>, int>, nodes: seq<seq<int>>, start: int, nodeArray: map<seq<int>, int>)
    requires i < |coords| && forall c :: c in coords ==> c in volume
    requires forall a, b :: 0 <= a < b < |coords| ==> coords[a] != coords[b]
    requires nodes == InPhase(coords[..i], volume, phase)
    requires Numbered(nodeMap, nodes, start) && ArrayOf(nodeArray, nodeMap, coords)
    ensures var c := coords[i];
      volume[c] == phase ==>
        nodes + [c] == InPhase(coords[..i + 1], volume, phase)
        && Numbered(nodeMap[c := start + |nodes|], nodes + [c], start)
        && ArrayOf(nodeArray[c := start + |nodes|], nodeMap[c := start + |nodes|], coords)
    ensures volume[coords[i]] != phase ==> nodes == InPhase(coords[..i + 1], volume, phase)
  {
    assert coords[..i + 1][..i] == coords[..i];
    var c := coords[i];
    if volume[c] == phase {
      NotYetNumbered(coords, i, volume, phase);
      NumberStep(nodeMap, nodes, start, nodeArray, coords, c);
    }
  }

  /**
   * The numbering loop of volume_to_graph: the in-phase voxels, in
   * lexicographic order, get the ids 2 * ndim, 2 * ndim + 1, ...; `nodes` lists
   * the voxel of each id (inv_node_map, whose items come in id order), and the
   * node array holds each voxel's id, or -1 for a voxel of another phase.
   */
  method NumberNodes(shape: seq<nat>, volume: map<seq<int>, int>, phase: int)
    returns (nodeMap: map<seq<int>, int>, nodes: seq<seq<int>>, nodeArray: map<seq<int>, int>)
    requires forall c :: c in Coords(ExtentOf(shape)) ==> c in volume
    ensures nodes == InPhase(Coords(ExtentOf(shape)), volume, phase)
    ensures Numbered(nodeMap, nodes, 2 * |shape|)
    ensures ArrayOf(nodeArray, nodeMap, Coords(ExtentOf(shape)))
  {
    var coords := Coords(ExtentOf(shape));
    CoordsSorted(ExtentOf(shape));
    LexSortedDistinct(coords);
    nodeArray := map c | c in coords :: -1;
    nodeMap, nodes := map[], [];
    var nodeIdx := 2 * |shape|;
    for i := 0 to |coords|
      invariant nodes == InPhase(coords[..i], volume, phase)
      invariant nodeIdx == 2 * |shape| + |nodes|
      invariant Numbered(nodeMap, nodes, 2 * |shape|)
      invariant ArrayOf(nodeArray, nodeMap, coords)
    {
      NumberLoopStep(coords, i, volume, phase, nodeMap, nodes, 2 * |shape|, nodeArray);
      var coord := coords[i];
      if volume[coord] == phase {
        nodeArray := nodeArray[coord := nodeIdx];
        nodes := nodes + [coord];
        nodeMap := nodeMap[coord := nodeIdx];
        nodeIdx := nodeIdx + 1;
      }
    }
    assert coords[..|coords|] == coords;
  }

  /** A voxel gets a node iff it lies in the volume and belongs to the phase ... */
  lemma NodesAreThePhase(shape: seq<nat>, volume: map<seq<int>, int>, phase: int)
    requires |shape| > 0
    requires forall c :: c in Coords(ExtentOf(shape)) ==> c in volume
    ensures forall c :: c in InPhase(Coords(ExtentOf(shape)), volume, phase) <==>
      InBox(c, ExtentOf(shape)) && c in volume && volume[c] == phase
  {
    CoordsMembers(ExtentOf(shape));
    InPhaseMembers(Coords(ExtentOf(shape)), volume, phase);
  }

  /** ... and the ids follow the lexicographic order of the voxels. */
  lemma NodeIdsOrdered(shape: seq<nat>, volume: map<seq<int>, int>, phase: int)
    requires forall c :: c in Coords(ExtentOf(shape)) ==> c in volume
    ensures LexSorted(InPhase(Coords(ExtentOf(shape)), volume, phase))
  {
    CoordsSorted(ExtentOf(shape));
    InPhaseSorted(Coords(ExtentOf(shape)), volume, phase);
  }

  // ---- Edges ----

  /** tuple(c + d for c, d in zip(node, delta)): the neighbour's voxel (zip stops at the shorter). */
  function Shift(u: seq<int>, d: seq<int>): (v: seq<int>)
    ensures |v| == (if |u| <= |d| then |u| else |d|)
    ensures forall k :: 0 <= k < |v| ==> v[k] == u[k] + d[k]
  {
    var n := if |u| <= |d| then |u| else |d|;
    seq(n, k requires 0 <= k < n => u[k] + d[k])
  }

  /** (min(a, b), max(a, b)): each edge is kept once. */
  function Key(a: int, b: int): (key: (int, int))
    ensures key.0 <= key.1 && {key.0, key.1} == {a, b}
  {
    if a <= b then (a, b) else (b, a)
  }

  /** Node u and the voxel at offset k from it are both in the phase and the offset has a weight. */
  ghost predicate Links(nodeMap: map<seq<int>, int>, deltas: seq<seq<int>>, dists: seq<Option<Weight>>, u: seq<int>, k: int)
  {
    u in nodeMap && 0 <= k < |deltas| && k < |dists| && Shift(u, deltas[k]) in nodeMap && dists[k].Some?
  }

  ghost function LinkKey(nodeMap: map<seq<int>, int>, deltas: seq<seq<int>>, dists: seq<Option<Weight>>, u: seq<int>, k: int): (int, int)
    requires Links(nodeMap, deltas, dists, u, k)
  {
    Key(nodeMap[u], nodeMap[Shift(u, deltas[k])])
  }

  /** An edge recorded from node u: its key and weight come from one of u's links. */
  ghost predicate FoundFrom(nodeMap: map<seq<int>, int>, deltas: seq<seq<int>>, dists: seq<Option<Weight>>,
                            u: seq<int>, key: (int, int), w: Weight)
  {
    exists k :: Links(nodeMap, deltas, dists, u, k) && key == LinkKey(nodeMap, deltas, dists, u, k) && w == dists[k].value
  }

  /** The inner loop: every weighted in-phase neighbour of one node adds (or overwrites) its edge. */
  method AddNodeEdges(nodeMap: map<seq<int>, int>, u: seq<int>, id: int, deltas: seq<seq<int>>, dists: seq<Option<Weight>>,
                      edges0: map<(int, int), Weight>) returns (edges: map<(int, int), Weight>)
    requires |deltas| == |dists| && u in nodeMap && nodeMap[u] == id
    ensures edges0.Keys <= edges.Keys
    ensures forall key :: key in edges ==> (key in edges0 && edges[key] == edges0[key]) || FoundFrom(nodeMap, deltas, dists, u, key, edges[key])
    ensures forall k :: Links(nodeMap, deltas, dists, u, k) ==> LinkKey(nodeMap, deltas, dists, u, k) in edges
  {
    edges := edges0;
    for k := 0 to |deltas|
      invariant edges0.Keys <= edges.Keys
      invariant forall key :: key in edges ==> (key in edges0 && edges[key] == edges0[key]) || FoundFrom(nodeMap, deltas, dists, u, key, edges[key])
      invariant forall j :: 0 <= j < k && Links(nodeMap, deltas, dists, u, j) ==> LinkKey(nodeMap, deltas, dists, u, j) in edges
    {
      var neighbor := Shift(u, deltas[k]);
      if neighbor in nodeMap && dists[k].Some? {
        var key := Key(id, nodeMap[neighbor]);
        assert Links(nodeMap, deltas, dists, u, k) && key == LinkKey(nodeMap, deltas, dists, u, k);
        edges := edges[key := dists[k].value];
      }
    }
  }

  /**
   * The edge loop of volume_to_graph: an edge exists exactly between two
   * in-phase voxels one neighbour offset apart whose offset has a weight, it
   * is keyed (smaller id, larger id), and its weight is that offset's.
   */
  method FindEdges(nodeMap: map<seq<int>, int>, nodes: seq<seq<int>>, first: int, deltas: seq<seq<int>>, dists: seq<Option<Weight>>)
    returns (edges: map<(int, int), Weight>)
    requires |deltas| == |dists|
    requires forall k :: 0 <= k < |nodes| ==> nodes[k] in nodeMap && nodeMap[nodes[k]] == first + k
    ensures forall key :: key in edges ==> exists u :: u in nodes && FoundFrom(nodeMap, deltas, dists, u, key, edges[key])
    ensures forall u, k :: u in nodes && Links(nodeMap, deltas, dists, u, k) ==> LinkKey(nodeMap, deltas, dists, u, k) in edges
  {
    edges := map[];
    for i := 0 to |nodes|
      invariant forall key :: key in edges ==> exists u :: u in nodes[..i] && FoundFrom(nodeMap, deltas, dists, u, key, edges[key])
      invariant forall u, k :: u in nodes[..i] && Links(nodeMap, deltas, dists, u, k) ==> LinkKey(nodeMap, deltas, dists, u, k) in edges
    {
      assert nodes[..i + 1] == nodes[..i] + [nodes[i]];
      ghost var before := edges;
      edges := AddNodeEdges(nodeMap, nodes[i], first + i, deltas, dists, edges);
      forall key | key in edges
        ensures exists u :: u in nodes[..i + 1] && FoundFrom(nodeMap, deltas, dists, u, key, edges[key])
      {
        if key in before && edges[key] == before[key] {
          var u :| u in nodes[..i] && FoundFrom(nodeMap, deltas, dists, u, key, before[key]);
          assert u in nodes[..i + 1];
        } else {
          assert nodes[i] in nodes[..i + 1];
        }
      }
    }
    assert nodes[..|nodes|] == nodes;
  }

  // ---- Face edges ----

  /** The face slice of axis i: index 0 for j = 0, index -1 (the last) for j = 1. */
  function FaceIndex(shape: seq<nat>, i: nat, j: nat): int
    requires i < |shape|
  {
    if j == 0 then 0 else shape[i] as int - 1
  }

  /** The voxels of one slice of the volume: axis i fixed at index f. */
  function FaceExtent(shape: seq<nat>, i: nat, f: int): (e: Extent)
    requires i < |shape|
    ensures |e| == |shape|
  {
    ExtentOf(shape)[i := (f, f + 1)]
  }

  /** The face edges of node 2 * i + j: one to every numbered voxel of its face slice. */
  ghost function FaceKeys(shape: seq<nat>, nodeArray: map<seq<int>, int>, i: nat, j: nat): set<(int, int)>
    requires i < |shape|
  {
    set c | c in Coords(FaceExtent(shape, i, FaceIndex(shape, i, j))) && c in nodeArray && nodeArray[c] != -1
      :: (2 * i + j, nodeArray[c])
  }

  /** The face edges of the first n axes, both faces each. */
  ghost function AllFaceKeys(shape: seq<nat>, nodeArray: map<seq<int>, int>, n: nat): set<(int, int)>
    requires n <= |shape|
  {
    if n == 0 then {} else AllFaceKeys(shape, nodeArray, n - 1) + FaceKeys(shape, nodeArray, n - 1, 0) + FaceKeys(shape, nodeArray, n - 1, 1)
  }

  /** The loop over one face slice: each numbered voxel gets an edge of weight 1 from the face node. */
  method AddFace(shape: seq<nat>, nodeArray: map<seq<int>, int>, i: nat, j: nat, aux0: map<(int, int), Weight>)
    returns (aux: map<(int, int), Weight>)
    requires i < |shape| && j < 2
    requires forall c :: c in Coords(FaceExtent(shape, i, FaceIndex(shape, i, j))) ==> c in nodeArray
    ensures aux.Keys == aux0.Keys + FaceKeys(shape, nodeArray, i, j)
    ensures forall key :: key in aux ==> aux[key] == (if key in aux0 && key !in FaceKeys(shape, nodeArray, i, j) then aux0[key] else Unit)
  {
    var face := Coords(FaceExtent(shape, i, FaceIndex(shape, i, j)));
    var nodeIdx := i * 2 + j;
    aux := aux0;
    for k := 0 to |face|
      invariant aux.Keys == aux0.Keys + set c | c in face[..k] && nodeArray[c] != -1 :: (nodeIdx, nodeArray[c])
      invariant forall key :: key in aux ==> aux[key] == (if key in aux0 && key !in (set c | c in face[..k] && nodeArray[c] != -1 :: (nodeIdx, nodeArray[c])) then aux0[key] else Unit)
    {
      assert face[..k + 1] == face[..k] + [face[k]];
      var neighborIdx := nodeArray[face[k]];
      if neighborIdx != -1 {
        aux := aux[(nodeIdx, neighborIdx) := Unit];
      }
    }
    assert face[..|face|] == face;
  }

  /**
   * The face loop of volume_to_graph: node 2 * i + j is linked with weight 1
   * to every numbered voxel of the first (j = 0) or last (j = 1) slice of axis
   * i. Indexing a slice of an empty axis raises.
   */
  method FaceEdges(shape: seq<nat>, nodeArray: map<seq<int>, int>) returns (aux: Result<map<(int, int), Weight>>)
    requires forall c :: c in Coords(ExtentOf(shape)) ==> c in nodeArray
    ensures aux.Err? <==> exists i :: 0 <= i < |shape| && shape[i] == 0
    ensures aux.Ok? ==> aux.value.Keys == AllFaceKeys(shape, nodeArray, |shape|)
    ensures aux.Ok? ==> forall key :: key in aux.value ==> aux.value[key] == Unit
  {
    var edges: map<(int, int), Weight> := map[];
    for i := 0 to |shape|
      invariant forall k :: 0 <= k < i ==> shape[k] > 0
      invariant edges.Keys == AllFaceKeys(shape, nodeArray, i)
      invariant forall key :: key in edges ==> edges[key] == Unit
    {
      if shape[i] == 0 {
        return Err("index out of bounds for an axis of size 0");
      }
      FaceInVolume(shape, i, 0, nodeArray);
      FaceInVolume(shape, i, 1, nodeArray);
      edges := AddFace(shape, nodeArray, i, 0, edges);
      edges := AddFace(shape, nodeArray, i, 1, edges);
    }
    return Ok(edges);
  }

  /** The voxels of a face slice of a non-empty axis are voxels of the volume. */
  lemma FaceInVolume(shape: seq<nat>, i: nat, j: nat, nodeArray: map<seq<int>, int>)
    requires i < |shape| && shape[i] > 0
    requires forall c :: c in Coords(ExtentOf(shape)) ==> c in nodeArray
    ensures forall c :: c in Coords(FaceExtent(shape, i, FaceIndex(shape, i, j))) ==> c in nodeArray
  {
    var f := FaceIndex(shape, i, j);
    CoordsMembers(FaceExtent(shape, i, f));
    CoordsMembers(ExtentOf(shape));
    forall c | c in Coords(FaceExtent(shape, i, f)) ensures c in nodeArray {
      assert InBox(c, ExtentOf(shape)) by {
        forall k | 0 <= k < |shape| ensures 0 <= c[k] < shape[k] as int {
          if k != i {
            assert FaceExtent(shape, i, f)[k] == (0, shape[k] as int);
          }
        }
      }
    }
  }

  /** A face edge of node 2 * i + j reaches exactly the numbered voxels whose i-th coordinate is the face's index. */
  lemma FaceKeysMembers(shape: seq<nat>, nodeArray: map<seq<int>, int>, i: nat, j: nat)
    requires i < |shape| && shape[i] > 0
    ensures forall key :: key in FaceKeys(shape, nodeArray, i, j) <==>
      exists c :: c in nodeArray && InBox(c, ExtentOf(shape)) && c[i] == FaceIndex(shape, i, j) && nodeArray[c] != -1
                  && key == (2 * i + j, nodeArray[c])
  {
    var f := FaceIndex(shape, i, j);
    CoordsMembers(FaceExtent(shape, i, f));
    forall c | |c| == |shape|
      ensures InBox(c, FaceExtent(shape, i, f)) <==> InBox(c, ExtentOf(shape)) && c[i] == f
    {
      if InBox(c, ExtentOf(shape)) && c[i] == f {
        forall k | 0 <= k < |shape| ensures FaceExtent(shape, i, f)[k].0 <= c[k] < FaceExtent(shape, i, f)[k].1 {
        }
      }
      if InBox(c, FaceExtent(shape, i, f)) {
        forall k | 0 <= k < |shape| ensures 0 <= c[k] < shape[k] as int {
          if k != i {
            assert FaceExtent(shape, i, f)[k] == (0, shape[k] as int);
          }
        }
      }
    }
  }

  // ---- Sparse matrix ----

  /** The face edges leaving one face node, in order. */
  function FromNode(aux: seq<((int, int), Weight)>, node: int): seq<((int, int), Weight)>
  {
    if |aux| == 0 then []
    else FromNode(aux[..|aux| - 1], node) + (if aux[|aux| - 1].0.0 == node then [aux[|aux| - 1]] else [])
  }

  lemma {:induction false} FromNodeSpec(aux: seq<((int, int), Weight)>, node: int)
    ensures |FromNode(aux, node)| <= |aux|
    ensures forall e :: e in FromNode(aux, node) <==> e in aux && e.0.0 == node
    decreases |aux|
  {
    if |aux| > 0 {
      FromNodeSpec(aux[..|aux| - 1], node);
      assert aux == aux[..|aux| - 1] + [aux[|aux| - 1]];
    }
  }

  /**
   * edges_to_sparse_matrix: the triplets (row, col, weight) of every edge, in
   * the order of the edge dictionary, then of the face edges leaving the
   * chosen face node; the matrix is square of size n_nodes + 2 * ndim. The
   * count loop and the fill loop agree, so the final assertion holds.
   */
  method EdgesToSparse(edges: seq<((int, int), Weight)>, aux: seq<((int, int), Weight)>, auxNode: int, nNodes: nat, ndim: nat)
    returns (row: array<int>, col: array<int>, data: array<Weight>, size: nat)
    ensures fresh(row) && fresh(col) && fresh(data)
    ensures row.Length == col.Length == data.Length == |edges| + |FromNode(aux, auxNode)|
    ensures forall k :: 0 <= k < |edges| ==> row[k] == edges[k].0.0 && col[k] == edges[k].0.1 && data[k] == edges[k].1
    ensures forall k :: 0 <= k < |FromNode(aux, auxNode)| ==>
      var e := FromNode(aux, auxNode)[k];
      row[|edges| + k] == e.0.0 && col[|edges| + k] == e.0.1 && data[|edges| + k] == e.1
    ensures size == nNodes + 2 * ndim
  {
    var nEdges := |edges|;
    var nAuxEdges := 0;
    for k := 0 to |aux|
      invariant nAuxEdges == |FromNode(aux[..k], auxNode)|
    {
      assert aux[..k + 1][..k] == aux[..k];
      if aux[k].0.0 == auxNode {
        nAuxEdges := nAuxEdges + 1;
      }
    }
    assert aux[..|aux|] == aux;
    row := new int[nEdges + nAuxEdges];
    col := new int[nEdges + nAuxEdges];
    data := new Weight[nEdges + nAuxEdges](_ => Unit);
    FillEdges(edges, row, col, data);
    FillFromNode(aux, auxNode, nEdges, row, col, data);
    size := nNodes + 2 * ndim;
  }

  /** The second loop of edges_to_sparse_matrix: the edges leaving auxNode follow from entry `start` on. */
  method FillFromNode(aux: seq<((int, int), Weight)>, auxNode: int, start: nat,
                      row: array<int>, col: array<int>, data: array<Weight>)
    requires row.Length == col.Length == data.Length == start + |FromNode(aux, auxNode)| && row != col
    modifies row, col, data
    ensures forall m :: 0 <= m < start ==> row[m] == old(row[m]) && col[m] == old(col[m]) && data[m] == old(data[m])
    ensures forall m :: 0 <= m < |FromNode(aux, auxNode)| ==>
      var e := FromNode(aux, auxNode)[m];
      row[start + m] == e.0.0 && col[start + m] == e.0.1 && data[start + m] == e.1
  {
    var i := start;
    for k := 0 to |aux|
      invariant i == start + |FromNode(aux[..k], auxNode)| <= row.Length
      invariant forall m :: 0 <= m < start ==> row[m] == old(row[m]) && col[m] == old(col[m]) && data[m] == old(data[m])
      invariant forall m :: 0 <= m < |FromNode(aux[..k], auxNode)| ==>
        var e := FromNode(aux[..k], auxNode)[m];
        row[start + m] == e.0.0 && col[start + m] == e.0.1 && data[start + m] == e.1
    {
      assert aux[..k + 1][..k] == aux[..k];
      FromNodePrefix(aux, auxNode, k + 1);
      if aux[k].0.0 == auxNode {
        row[i] := aux[k].0.0;
        col[i] := aux[k].0.1;
        data[i] := aux[k].1;
        i := i + 1;
      }
    }
    assert aux[..|aux|] == aux;
  }

  /** The first loop of edges_to_sparse_matrix: entry k holds edge k. */
  method FillEdges(edges: seq<((int, int), Weight)>, row: array<int>, col: array<int>, data: array<Weight>)
    requires row.Length == col.Length == data.Length >= |edges| && row != col
    modifies row, col, data
    ensures forall k :: 0 <= k < |edges| ==> row[k] == edges[k].0.0 && col[k] == edges[k].0.1 && data[k] == edges[k].1
  {
    for i := 0 to |edges|
      invariant forall k :: 0 <= k < i ==> row[k] == edges[k].0.0 && col[k] == edges[k].0.1 && data[k] == edges[k].1
    {
      row[i] := edges[i].0.0;
      col[i] := edges[i].0.1;
      data[i] := edges[i].1;
    }
  }

  /** A prefix of the face edges holds no more of those leaving the node than all of them. */
  lemma {:induction false} FromNodePrefix(aux: seq<((int, int), Weight)>, node: int, k: nat)
    requires k <= |aux|
    ensures |FromNode(aux[..k], node)| <= |FromNode(aux, node)|
    decreases |aux| - k
  {
    if k < |aux| {
      FromNodePrefix(aux, node, k + 1);
      assert aux[..k + 1][..k] == aux[..k];
    } else {
      assert aux[..k] == aux;
    }
  }

  // ---- Slices along a propagation direction ----

  /**
   * The slice index get_slice_scalars reads: along axis direction // 2,
   * counted from the start for an even direction and from the end for an odd
   * one. An axis the volume lacks or an index outside it fails.
   */
  function SliceIndex(shape: seq<nat>, direction: nat, sliceNumber: int): (r: Result<nat>)
    ensures r.Ok? ==> direction / 2 < |shape| && r.value < shape[direction / 2]
    ensures direction / 2 < |shape| ==> (r.Ok? <==> 0 <= sliceNumber < shape[direction / 2])
  {
    var axis := direction / 2;
    if axis >= |shape| then Err("tuple index out of range")
    else
      var start := if direction % 2 == 1 then shape[axis] as int - 1 else 0;
      var increment := if direction % 2 == 1 then -1 else 1;
      var s := start + increment * sliceNumber;
      if s >= 0 && s < shape[axis] then Ok(s) else Err("AssertionError")
  }

  /** The two directions of an axis read its slices in opposite orders. */
  lemma OppositeDirections(shape: seq<nat>, axis: nat, sliceNumber: int)
    requires axis < |shape| && 0 <= sliceNumber < shape[axis]
    ensures SliceIndex(shape, 2 * axis, sliceNumber) == Ok(sliceNumber)
    ensures SliceIndex(shape, 2 * axis + 1, sliceNumber) == Ok(shape[axis] as int - 1 - sliceNumber)
  {
    assert (2 * axis) / 2 == axis && (2 * axis) % 2 == 0;
    assert (2 * axis + 1) / 2 == axis && (2 * axis + 1) % 2 == 1;
  }

  /** get_slice_scalars: the voxels of the chosen slice, in lexicographic order. */
  function SliceScalars(shape: seq<nat>, direction: nat, sliceNumber: int): (r: Result<seq<seq<int>>>)
    ensures r.Ok? <==> SliceIndex(shape, direction, sliceNumber).Ok?
  {
    match SliceIndex(shape, direction, sliceNumber)
    case Ok(s) => Ok(Coords(FaceExtent(shape, direction / 2, s)))
    case Err(msg) => Err(msg)
  }

  /** The slice holds exactly the volume's voxels whose coordinate on the axis is the slice index. */
  lemma SliceScalarsMembers(shape: seq<nat>, direction: nat, sliceNumber: int)
    requires SliceScalars(shape, direction, sliceNumber).Ok?
    ensures var axis := direction / 2; var s := SliceIndex(shape, direction, sliceNumber).value;
      forall c :: c in SliceScalars(shape, direction, sliceNumber).value <==> InBox(c, ExtentOf(shape)) && c[axis] == s
  {
    var axis := direction / 2;
    var s := SliceIndex(shape, direction, sliceNumber).value;
    CoordsMembers(FaceExtent(shape, axis, s));
    forall c | |c| == |shape|
      ensures InBox(c, FaceExtent(shape, axis, s)) <==> InBox(c, ExtentOf(shape)) && c[axis] == s
    {
      if InBox(c, FaceExtent(shape, axis, s)) {
        forall k | 0 <= k < |shape| ensures 0 <= c[k] < shape[k] as int {
          if k != axis {
            assert FaceExtent(shape, axis, s)[k] == (0, shape[k] as int);
          }
        }
      }
    }
  }

  // ---- The distance map ----

  /** A distance the shortest-path search returns: a finite length, infinity for an unreached node, or NaN. */
  datatype Dist = Finite(length: real) | Infinity | NaN

  /** The value distance_matrix_to_volume gives a voxel no path reaches. */
  const UnreachableValue: real := -1.0

  /**
   * The final clean-up of distance_matrix_to_volume: infinity becomes the
   * unreachable value, while NaN, which compares unequal to everything
   * (np.nan included), stays NaN.
   */
  function Cleaned(d: Dist): (r: Dist)
    ensures r != Infinity
    ensures r == NaN <==> d == NaN
    ensures d.Finite? ==> r == d
  {
    if d == Infinity then Finite(UnreachableValue) else d
  }

  /** Every voxel of the box, unreachable: the volume before any node is written. */
  function Unreached(box: seq<seq<int>>): (m: map<seq<int>, Dist>)
    ensures forall c :: c in m <==> c in box
  {
    map c | c in box :: Finite(UnreachableValue)
  }

  /** The volume after the node map's items are written in order, each voxel taking its node's distance. */
  function Filled(items: seq<(int, seq<int>)>, dist: seq<Dist>, base: map<seq<int>, Dist>): map<seq<int>, Dist>
    requires forall k :: 0 <= k < |items| ==> 0 <= items[k].0 < |dist|
    decreases |items|
  {
    if |items| == 0 then base
    else
      var last := items[|items| - 1];
      Filled(items[..|items| - 1], dist, base)[last.1 := dist[last.0]]
  }

  /** distance_matrix_to_volume as a value: the filled volume, each voxel cleaned. */
  function DistanceMap(items: seq<(int, seq<int>)>, dist: seq<Dist>, shape: seq<nat>): map<seq<int>, Dist>
    requires forall k :: 0 <= k < |items| ==> 0 <= items[k].0 < |dist|
  {
    var filled := Filled(items, dist, Unreached(Coords(ExtentOf(shape))));
    map c | c in filled :: Cleaned(filled[c])
  }

  /** Writing voxels of the box adds no voxel. */
  lemma {:induction false} FilledKeys(items: seq<(int, seq<int>)>, dist: seq<Dist>, base: map<seq<int>, Dist>)
    requires forall k :: 0 <= k < |items| ==> 0 <= items[k].0 < |dist| && items[k].1 in base
    ensures Filled(items, dist, base).Keys == base.Keys
    decreases |items|
  {
    if |items| > 0 {
      FilledKeys(items[..|items| - 1], dist, base);
    }
  }

  /** A voxel no item names keeps its value. */
  lemma {:induction false} FilledUntouched(items: seq<(int, seq<int>)>, dist: seq<Dist>, base: map<seq<int>, Dist>, c: seq<int>)
    requires forall k :: 0 <= k < |items| ==> 0 <= items[k].0 < |dist|
    requires c in base && forall k :: 0 <= k < |items| ==> items[k].1 != c
    ensures c in Filled(items, dist, base) && Filled(items, dist, base)[c] == base[c]
    decreases |items|
  {
    if |items| > 0 {
      FilledUntouched(items[..|items| - 1], dist, base, c);
    }
  }

  /** The last item naming a voxel decides its value. */
  lemma {:induction false} FilledLast(items: seq<(int, seq<int>)>, dist: seq<Dist>, base: map<seq<int>, Dist>, k: int)
    requires forall k :: 0 <= k < |items| ==> 0 <= items[k].0 < |dist|
    requires 0 <= k < |items| && forall j :: k < j < |items| ==> items[j].1 != items[k].1
    ensures items[k].1 in Filled(items, dist, base) && Filled(items, dist, base)[items[k].1] == dist[items[k].0]
    decreases |items|
  {
    if k < |items| - 1 {
      FilledLast(items[..|items| - 1], dist, base, k);
    }
  }

  /**
   * The distance map covers exactly the voxels of the volume and holds no
   * infinity; a voxel of no node is unreachable, and a node's voxel (when no
   * later node names it) holds that node's distance, cleaned.
   */
  lemma DistanceMapSpec(items: seq<(int, seq<int>)>, dist: seq<Dist>, shape: seq<nat>)
    requires forall k :: 0 <= k < |items| ==> 0 <= items[k].0 < |dist| && items[k].1 in Coords(ExtentOf(shape))
    ensures forall c :: c in DistanceMap(items, dist, shape) <==> c in Coords(ExtentOf(shape))
    ensures forall c :: c in DistanceMap(items, dist, shape) ==> DistanceMap(items, dist, shape)[c] != Infinity
    ensures forall c :: c in Coords(ExtentOf(shape)) && (forall k :: 0 <= k < |items| ==> items[k].1 != c) ==>
      c in DistanceMap(items, dist, shape) && DistanceMap(items, dist, shape)[c] == Finite(UnreachableValue)
    ensures forall k :: 0 <= k < |items| && (forall j :: k < j < |items| ==> items[j].1 != items[k].1) ==>
      items[k].1 in DistanceMap(items, dist, shape) && DistanceMap(items, dist, shape)[items[k].1] == Cleaned(dist[items[k].0])
  {
    var base := Unreached(Coords(ExtentOf(shape)));
    FilledKeys(items, dist, base);
    forall c | c in Coords(ExtentOf(shape)) && (forall k :: 0 <= k < |items| ==> items[k].1 != c)
      ensures c in DistanceMap(items, dist, shape) && DistanceMap(items, dist, shape)[c] == Finite(UnreachableValue)
    {
      FilledUntouched(items, dist, base, c);
    }
    forall k | 0 <= k < |items| && (forall j :: k < j < |items| ==> items[j].1 != items[k].1)
      ensures items[k].1 in DistanceMap(items, dist, shape) && DistanceMap(items, dist, shape)[items[k].1] == Cleaned(dist[items[k].0])
    {
      FilledLast(items, dist, base, k);
    }
  }

  /**
   * distance_matrix_to_volume: every voxel starts unreachable, the node
   * map's items are written in order, and infinity is then replaced.
   */
  method DistanceMatrixToVolume(items: seq<(int, seq<int>)>, dist: seq<Dist>, shape: seq<nat>)
    returns (volume: map<seq<int>, Dist>)
    requires forall k :: 0 <= k < |items| ==> 0 <= items[k].0 < |dist| && items[k].1 in Coords(ExtentOf(shape))
    ensures volume == DistanceMap(items, dist, shape)
  {
    var base := Unreached(Coords(ExtentOf(shape)));
    var filled := base;
    var i := 0;
    while i < |items|
      invariant 0 <= i <= |items|
      invariant filled == Filled(items[..i], dist, base)
    {
      assert items[..i + 1][..i] == items[..i];
      filled := filled[items[i].1 := dist[items[i].0]];
      i := i + 1;
    }
    assert items[..i] == items;
    volume := map c | c in filled :: Cleaned(filled[c]);
  }
}
