/**
 * The host-side mesh: vertex, edge and triangle arrays, three texture
 * handles, and the upload lifecycle that copies the arrays into GPU buffers,
 * caches their sizes and lets the host arrays be freed afterwards.
 *
 * The edge record type is a type parameter: the mesh stores, uploads and
 * clears edges without looking inside them. A GPU buffer is modelled by the
 * sequence of records last copied into it; the graphics calls that bind
 * buffers and describe attribute layouts have no other observable effect
 * here and are not modelled.
 */
module Meshes {
  import opened Geometry
  import MeshLoader

  /** The buffer usage hint a mesh passes for its vertex and edge buffers. */
  datatype Usage = StaticDraw | DynamicDraw

  /** The shared OpenCL handles a mesh hands out, named by the buffer they wrap. */
  datatype MemoryObject =
    | VertexBufferCL
    | EdgeBufferCL
    | TriangleBufferCL
    | PredictedPositionsBufferCL
    | VelocitiesBufferCL

  /** A vertex with its normal reversed; every other field is kept. */
  function FlipVertex(v: Vertex): (w: Vertex)
    ensures w.normal == Vec3(-v.normal.x, -v.normal.y, -v.normal.z)
    ensures w.position == v.position && w.texCoord == v.texCoord && w.color == v.color
  {
    v.(normal := v.normal.Neg())
  }

  /** A triangle with its second and third indices swapped: the opposite winding. */
  function FlipWinding(t: Triangle): (u: Triangle)
    ensures u.x == t.x && u.y == t.z && u.z == t.y
    ensures MeshLoader.IsReordering(t, u)
  {
    Triangle(t.x, t.z, t.y)
  }

  /** Every vertex flipped, in place. */
  function FlippedVertices(vs: seq<Vertex>): (ws: seq<Vertex>)
    ensures |ws| == |vs|
    ensures forall i :: 0 <= i < |vs| ==> ws[i] == FlipVertex(vs[i])
  {
    seq(|vs|, i requires 0 <= i < |vs| => FlipVertex(vs[i]))
  }

  /** Every triangle rewound, in place. */
  function FlippedTriangles(ts: seq<Triangle>): (us: seq<Triangle>)
    ensures |us| == |ts|
    ensures forall i :: 0 <= i < |ts| ==> us[i] == FlipWinding(ts[i])
  {
    seq(|ts|, i requires 0 <= i < |ts| => FlipWinding(ts[i]))
  }

  /** Flipping twice restores every vertex and every triangle exactly. */
  lemma FlipTwiceRestores(vs: seq<Vertex>, ts: seq<Triangle>)
    ensures FlippedVertices(FlippedVertices(vs)) == vs
    ensures FlippedTriangles(FlippedTriangles(ts)) == ts
  {
    assert forall i :: 0 <= i < |vs| ==> FlipVertex(FlipVertex(vs[i])) == vs[i];
  }

  /** Rewinding every triangle leaves the neighbour table of the mesh unchanged. */
  lemma FlipKeepsNeighbourTable(ts: seq<Triangle>)
    ensures MeshLoader.NeighbourTable(FlippedTriangles(ts)) == MeshLoader.NeighbourTable(ts)
  {
    MeshLoader.ReorderingKeepsTable(ts, FlippedTriangles(ts));
  }

  /**
   * A mesh. `numVertices`, `numEdges` and `numTriangles` are the counts
   * cached at upload; before the first upload they hold no meaning and the
   * count queries read the host arrays instead.
   */
  class Mesh<E> {
    var vertices: seq<Vertex>
    var edges: seq<E>
    var triangles: seq<Triangle>

    var texDiffuse: Texture
    var texSpecular: Texture
    var texBump: Texture

    const usage: Usage

    var hasUploadedHostData: bool
    var numVertices: nat
    var numEdges: nat
    var numTriangles: nat

    var vertexBuffer: seq<Vertex>
    var edgeBuffer: seq<E>
    var triangleBuffer: seq<Triangle>

    /** Once uploaded, each cached count is the length of the buffer it describes. */
    ghost predicate Valid()
      reads this
    {
      hasUploadedHostData ==>
        numVertices == |vertexBuffer| && numEdges == |edgeBuffer| && numTriangles == |triangleBuffer|
    }

    /** A new mesh holds copies of its arrays, is not uploaded, and has texture ID 0 everywhere. */
    constructor(vertices: seq<Vertex>, edges: seq<E>, triangles: seq<Triangle>, usage: Usage)
      ensures Valid()
      ensures this.vertices == vertices && this.edges == edges && this.triangles == triangles
      ensures this.usage == usage
      ensures !hasUploadedHostData
      ensures texDiffuse.id == 0 && texSpecular.id == 0 && texBump.id == 0
      ensures vertexBuffer == [] && edgeBuffer == [] && triangleBuffer == []
    {
      this.vertices := vertices;
      this.edges := edges;
      this.triangles := triangles;
      this.usage := usage;
      hasUploadedHostData := false;
      numVertices, numEdges, numTriangles := 0, 0, 0;
      texDiffuse, texSpecular, texBump := NoTexture, NoTexture, NoTexture;
      vertexBuffer, edgeBuffer, triangleBuffer := [], [], [];
    }

    /** The vertex count: the cached one after upload, the host array's length before. */
    function NumVertices(): (r: nat)
      reads this
      ensures Valid() && hasUploadedHostData ==> r == |vertexBuffer|
      ensures !hasUploadedHostData ==> r == |vertices|
    {
      if hasUploadedHostData then numVertices else |vertices|
    }

    /** The edge count: the cached one after upload, the host array's length before. */
    function NumEdges(): (r: nat)
      reads this
      ensures Valid() && hasUploadedHostData ==> r == |edgeBuffer|
      ensures !hasUploadedHostData ==> r == |edges|
    {
      if hasUploadedHostData then numEdges else |edges|
    }

    /** The triangle count: the cached one after upload, the host array's length before. */
    function NumTriangles(): (r: nat)
      reads this
      ensures Valid() && hasUploadedHostData ==> r == |triangleBuffer|
      ensures !hasUploadedHostData ==> r == |triangles|
    {
      if hasUploadedHostData then numTriangles else |triangles|
    }

    /**
     * Reverses every normal, then swaps the second and third index of every
     * triangle, so that face culling sees the opposite side as the front.
     */
    method FlipNormals()
      modifies this
      ensures vertices == FlippedVertices(old(vertices))
      ensures triangles == FlippedTriangles(old(triangles))
      ensures edges == old(edges)
      ensures texDiffuse == old(texDiffuse) && texSpecular == old(texSpecular) && texBump == old(texBump)
      ensures hasUploadedHostData == old(hasUploadedHostData)
      ensures numVertices == old(numVertices) && numEdges == old(numEdges) && numTriangles == old(numTriangles)
      ensures vertexBuffer == old(vertexBuffer) && edgeBuffer == old(edgeBuffer) && triangleBuffer == old(triangleBuffer)
    {
      var vs := vertices;
      for i := 0 to |vs|
        invariant |vs| == |old(vertices)|
        invariant forall j :: 0 <= j < i ==> vs[j] == FlipVertex(old(vertices)[j])
        invariant forall j :: i <= j < |vs| ==> vs[j] == old(vertices)[j]
      {
        vs := vs[i := vs[i].(normal := vs[i].normal.Neg())];
      }
      vertices := vs;

      var ts := triangles;
      for i := 0 to |ts|
        invariant |ts| == |old(triangles)|
        invariant forall j :: 0 <= j < i ==> ts[j] == FlipWinding(old(triangles)[j])
        invariant forall j :: i <= j < |ts| ==> ts[j] == old(triangles)[j]
      {
        var t := ts[i];
        ts := ts[i := Triangle(t.x, t.z, t.y)];
      }
      triangles := ts;
    }

    /**
     * The first call marks the mesh uploaded, caches the three array lengths
     * and copies the arrays into their buffers; any later call does nothing.
     */
    method UploadHostData()
      requires Valid()
      modifies this
      ensures Valid()
      ensures hasUploadedHostData
      ensures vertices == old(vertices) && edges == old(edges) && triangles == old(triangles)
      ensures texDiffuse == old(texDiffuse) && texSpecular == old(texSpecular) && texBump == old(texBump)
      ensures old(hasUploadedHostData) ==>
        numVertices == old(numVertices) && numEdges == old(numEdges) && numTriangles == old(numTriangles)
        && vertexBuffer == old(vertexBuffer) && edgeBuffer == old(edgeBuffer) && triangleBuffer == old(triangleBuffer)
      ensures !old(hasUploadedHostData) ==>
        vertexBuffer == vertices && edgeBuffer == edges && triangleBuffer == triangles
        && numVertices == |vertices| && numEdges == |edges| && numTriangles == |triangles|
      ensures NumVertices() == old(NumVertices()) && NumEdges() == old(NumEdges())
           && NumTriangles() == old(NumTriangles())
    {
      if hasUploadedHostData {
        return;
      }

      hasUploadedHostData := true;
      numVertices := |vertices|;
      numEdges := |edges|;
      numTriangles := |triangles|;

      vertexBuffer := vertices;
      edgeBuffer := edges;
      triangleBuffer := triangles;
    }

    /**
     * Frees the host arrays. The upload flag, the cached counts and the
     * buffers are left alone, so after an upload the counts survive.
     */
    method ClearHostData()
      requires Valid()
      modifies this
      ensures Valid()
      ensures vertices == [] && edges == [] && triangles == []
      ensures hasUploadedHostData == old(hasUploadedHostData)
      ensures texDiffuse == old(texDiffuse) && texSpecular == old(texSpecular) && texBump == old(texBump)
      ensures numVertices == old(numVertices) && numEdges == old(numEdges) && numTriangles == old(numTriangles)
      ensures vertexBuffer == old(vertexBuffer) && edgeBuffer == old(edgeBuffer) && triangleBuffer == old(triangleBuffer)
      ensures hasUploadedHostData ==>
        NumVertices() == old(NumVertices()) && NumEdges() == old(NumEdges())
        && NumTriangles() == old(NumTriangles())
      ensures !hasUploadedHostData ==> NumVertices() == 0 && NumEdges() == 0 && NumTriangles() == 0
    {
      vertices := [];
      edges := [];
      triangles := [];
    }

    /** The shared handles, in the order the simulation acquires them. */
    method GetMemoryCL() returns (memory: seq<MemoryObject>)
      ensures memory == [VertexBufferCL, EdgeBufferCL, TriangleBufferCL]
    {
      memory := [];
      memory := memory + [VertexBufferCL];
      memory := memory + [EdgeBufferCL];
      memory := memory + [TriangleBufferCL];
    }
  }
}
