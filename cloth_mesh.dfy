/**
 * The cloth mesh: a mesh plus per-vertex, per-edge and per-triangle cloth
 * records, and the extra GPU buffers the simulation works in (cloth vertex
 * records, velocities, predicted positions and position corrections).
 *
 * The mesh part is held in the field `mesh`; the cloth mesh's upload and
 * clear first do what the mesh does and then handle the cloth data. The
 * per-edge cloth record type is a type parameter, like the edge type.
 */
module ClothMeshes {
  import opened Geometry
  import opened Meshes

  /** `n` zero vectors, as a vector resized to `n` and filled with zeros. */
  method ZeroVectors(n: nat) returns (velocities: seq<Vec4>)
    ensures |velocities| == n
    ensures forall i :: 0 <= i < n ==> velocities[i] == Zero4
  {
    velocities := [];
    while |velocities| < n
      invariant |velocities| <= n
      invariant forall i :: 0 <= i < |velocities| ==> velocities[i] == Zero4
    {
      velocities := velocities + [Zero4];
    }
  }

  class ClothMesh<E, ED> {
    const mesh: Mesh<E>

    var vertexClothData: seq<ClothVertexData>
    var edgeClothData: seq<ED>
    var triangleClothData: seq<ClothTriangleData>

    var vertexClothBuffer: seq<ClothVertexData>
    var velocitiesBuffer: seq<Vec4>
    var predictedPositionsBuffer: seq<Vec4>
    var positionCorrectionsBuffer: seq<Vec4>

    /**
     * The mesh part is consistent, and once uploaded every per-vertex cloth
     * buffer holds one entry per vertex.
     */
    ghost predicate Valid()
      reads this, mesh
    {
      mesh.Valid()
      && (mesh.hasUploadedHostData ==>
            |vertexClothBuffer| == mesh.numVertices
            && |velocitiesBuffer| == mesh.numVertices
            && |predictedPositionsBuffer| == mesh.numVertices
            && |positionCorrectionsBuffer| == mesh.numVertices)
    }

    /** A new cloth mesh over new arrays, with dynamic vertex buffers and nothing uploaded. */
    constructor(vertices: seq<Vertex>, clothVertexData: seq<ClothVertexData>,
                edges: seq<E>, clothEdgeData: seq<ED>,
                triangles: seq<Triangle>, clothTriangleData: seq<ClothTriangleData>)
      ensures Valid()
      ensures fresh(mesh)
      ensures mesh.vertices == vertices && mesh.edges == edges && mesh.triangles == triangles
      ensures mesh.usage == DynamicDraw && !mesh.hasUploadedHostData
      ensures mesh.texDiffuse.id == 0 && mesh.texSpecular.id == 0 && mesh.texBump.id == 0
      ensures this.vertexClothData == clothVertexData
      ensures this.edgeClothData == clothEdgeData
      ensures this.triangleClothData == clothTriangleData
    {
      mesh := new Mesh(vertices, edges, triangles, DynamicDraw);
      this.vertexClothData := clothVertexData;
      this.edgeClothData := clothEdgeData;
      this.triangleClothData := clothTriangleData;
      vertexClothBuffer, velocitiesBuffer := [], [];
      predictedPositionsBuffer, positionCorrectionsBuffer := [], [];
    }

    /**
     * A cloth mesh over copies of an existing mesh's arrays and textures.
     * The existing mesh is left as it is, and the new one starts not uploaded
     * whatever the state of the existing one.
     */
    constructor FromMesh(m: Mesh<E>, clothVertexData: seq<ClothVertexData>,
                         clothEdgeData: seq<ED>, clothTriangleData: seq<ClothTriangleData>)
      ensures Valid()
      ensures fresh(mesh)
      ensures mesh.vertices == m.vertices && mesh.edges == m.edges && mesh.triangles == m.triangles
      ensures mesh.usage == DynamicDraw && !mesh.hasUploadedHostData
      ensures mesh.texDiffuse == m.texDiffuse && mesh.texSpecular == m.texSpecular && mesh.texBump == m.texBump
      ensures this.vertexClothData == clothVertexData
      ensures this.edgeClothData == clothEdgeData
      ensures this.triangleClothData == clothTriangleData
    {
      var base := new Mesh(m.vertices, m.edges, m.triangles, DynamicDraw);
      base.texDiffuse := m.texDiffuse;
      base.texSpecular := m.texSpecular;
      base.texBump := m.texBump;
      mesh := base;
      this.vertexClothData := clothVertexData;
      this.edgeClothData := clothEdgeData;
      this.triangleClothData := clothTriangleData;
      vertexClothBuffer, velocitiesBuffer := [], [];
      predictedPositionsBuffer, positionCorrectionsBuffer := [], [];
    }

    /**
     * The first call uploads the mesh part, copies one cloth record per
     * vertex into the cloth buffer and fills the velocity, predicted-position
     * and correction buffers with one zero vector per vertex; any later call
     * does nothing. The cloth-record copy reads as many records as there are
     * vertices, so there must be at least that many.
     */
    method UploadHostData()
      requires Valid()
      requires !mesh.hasUploadedHostData ==> |vertexClothData| >= |mesh.vertices|
      modifies this, mesh
      ensures Valid()
      ensures mesh.hasUploadedHostData
      ensures mesh.vertices == old(mesh.vertices) && mesh.edges == old(mesh.edges) && mesh.triangles == old(mesh.triangles)
      ensures vertexClothData == old(vertexClothData) && edgeClothData == old(edgeClothData)
      ensures triangleClothData == old(triangleClothData)
      ensures mesh.NumVertices() == old(mesh.NumVertices())
      ensures mesh.texDiffuse == old(mesh.texDiffuse) && mesh.texSpecular == old(mesh.texSpecular)
           && mesh.texBump == old(mesh.texBump)
      ensures old(mesh.hasUploadedHostData) ==>
        vertexClothBuffer == old(vertexClothBuffer) && velocitiesBuffer == old(velocitiesBuffer)
        && predictedPositionsBuffer == old(predictedPositionsBuffer)
        && positionCorrectionsBuffer == old(positionCorrectionsBuffer)
        && mesh.vertexBuffer == old(mesh.vertexBuffer) && mesh.edgeBuffer == old(mesh.edgeBuffer)
        && mesh.triangleBuffer == old(mesh.triangleBuffer)
      ensures !old(mesh.hasUploadedHostData) ==>
        mesh.vertexBuffer == mesh.vertices && mesh.edgeBuffer == mesh.edges
        && mesh.triangleBuffer == mesh.triangles
        && vertexClothBuffer == vertexClothData[..|mesh.vertices|]
        && (forall i :: 0 <= i < |mesh.vertices| ==>
              velocitiesBuffer[i] == Zero4 && predictedPositionsBuffer[i] == Zero4
              && positionCorrectionsBuffer[i] == Zero4)
    {
      if mesh.hasUploadedHostData {
        return;
      }

      mesh.UploadHostData();

      vertexClothBuffer := vertexClothData[..mesh.NumVertices()];

      var velocities := ZeroVectors(mesh.NumVertices());
      velocitiesBuffer := velocities;
      predictedPositionsBuffer := velocities;
      positionCorrectionsBuffer := velocities;
    }

    /** Frees the mesh part's host arrays and the three cloth record lists. */
    method ClearHostData()
      requires Valid()
      modifies this, mesh
      ensures Valid()
      ensures mesh.vertices == [] && mesh.edges == [] && mesh.triangles == []
      ensures vertexClothData == [] && edgeClothData == [] && triangleClothData == []
      ensures mesh.hasUploadedHostData == old(mesh.hasUploadedHostData)
      ensures mesh.texDiffuse == old(mesh.texDiffuse) && mesh.texSpecular == old(mesh.texSpecular)
           && mesh.texBump == old(mesh.texBump)
      ensures mesh.hasUploadedHostData ==>
        mesh.NumVertices() == old(mesh.NumVertices()) && mesh.NumEdges() == old(mesh.NumEdges())
        && mesh.NumTriangles() == old(mesh.NumTriangles())
      ensures mesh.vertexBuffer == old(mesh.vertexBuffer) && mesh.edgeBuffer == old(mesh.edgeBuffer)
      ensures mesh.triangleBuffer == old(mesh.triangleBuffer)
      ensures vertexClothBuffer == old(vertexClothBuffer) && velocitiesBuffer == old(velocitiesBuffer)
      ensures predictedPositionsBuffer == old(predictedPositionsBuffer)
      ensures positionCorrectionsBuffer == old(positionCorrectionsBuffer)
    {
      mesh.ClearHostData();
      vertexClothData := [];
      edgeClothData := [];
      triangleClothData := [];
    }

    /**
     * The mesh's three shared handles, followed by the predicted positions
     * and then the velocities.
     */
    method GetMemoryCL() returns (memory: seq<MemoryObject>)
      ensures |memory| == 5
      ensures memory[..3] == [VertexBufferCL, EdgeBufferCL, TriangleBufferCL]
      ensures memory[3] == PredictedPositionsBufferCL && memory[4] == VelocitiesBufferCL
      ensures forall a, b :: 0 <= a < b < |memory| ==> memory[a] != memory[b]
    {
      memory := mesh.GetMemoryCL();
      memory := memory + [PredictedPositionsBufferCL];
      memory := memory + [VelocitiesBufferCL];
    }
  }
}
