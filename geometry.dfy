/**
 * Host-side records shared by the mesh, the loader and the simulation:
 * vertices, triangles, the per-vertex and per-triangle cloth records, the
 * vertex-attribute locations and the texture record.
 *
 * Floating-point components are modelled as reals; the padding members that
 * align the host layout with OpenCL's 4-component float3 carry no value and
 * are omitted.
 */
module Geometry {

  datatype Vec2 = Vec2(x: real, y: real)

  datatype Vec3 = Vec3(x: real, y: real, z: real)
  {
    /** Unary minus of glm::vec3: every component negated. */
    function Neg(): Vec3
    {
      Vec3(-x, -y, -z)
    }
  }

  datatype Vec4 = Vec4(x: real, y: real, z: real, w: real)

  /** glm::vec4(0.0f). */
  const Zero4: Vec4 := Vec4(0.0, 0.0, 0.0, 0.0)

  /** The shader attribute slots a vertex buffer is bound to. */
  datatype VertexAttribute = Position | Normal | TexCoord | Color | Velocity | Mass

  /** The location number each attribute is bound to. */
  function Location(a: VertexAttribute): (r: nat)
    ensures r <= 5
  {
    match a
    case Position => 0
    case Normal => 1
    case TexCoord => 2
    case Color => 3
    case Velocity => 4
    case Mass => 5
  }

  /** The attribute bound at a location, if any. */
  function AttributeAt(location: nat): (r: Option<VertexAttribute>)
    ensures r.Some? <==> location <= 5
    ensures r.Some? ==> Location(r.value) == location
  {
    if location == 0 then Some(Position)
    else if location == 1 then Some(Normal)
    else if location == 2 then Some(TexCoord)
    else if location == 3 then Some(Color)
    else if location == 4 then Some(Velocity)
    else if location == 5 then Some(Mass)
    else None
  }

  /** Locations are pairwise distinct: each attribute is recovered from its location. */
  lemma LocationsDistinct(a: VertexAttribute, b: VertexAttribute)
    ensures AttributeAt(Location(a)) == Some(a)
    ensures Location(a) == Location(b) <==> a == b
  {
  }

  datatype Option<T> = None | Some(value: T)

  /** Host representation of a vertex. */
  datatype Vertex = Vertex(position: Vec3, normal: Vec3, texCoord: Vec2, color: Vec4)

  /** A triangle is exactly three unsigned vertex indices (glm::uvec3 x, y, z). */
  datatype Triangle = Triangle(x: nat, y: nat, z: nat)

  /** Extra per-vertex cloth data: the vertex it belongs to and its mass. */
  datatype ClothVertexData = ClothVertexData(vertexID: nat, mass: real)

  /** Neighbour ID stored in a slot whose edge no other triangle shares. */
  const NoNeighbour: int := -1

  /** `int neighbourIDs[3]`: exactly three neighbour slots. */
  type NeighbourSlots = s: seq<int> | |s| == 3 witness [NoNeighbour, NoNeighbour, NoNeighbour]

  /** Per-triangle cloth data: the triangle's own ID and one neighbour slot per edge. */
  datatype ClothTriangleData = ClothTriangleData(triangleID: nat, neighbourIDs: NeighbourSlots)

  /** Number of slots that name a neighbour, i.e. that are not NoNeighbour. */
  function NeighbourCount(d: ClothTriangleData): (r: nat)
    ensures r <= 3
    ensures r == 0 <==> forall k :: 0 <= k < 3 ==> d.neighbourIDs[k] == NoNeighbour
    ensures r == 3 <==> forall k :: 0 <= k < 3 ==> d.neighbourIDs[k] != NoNeighbour
  {
    (if d.neighbourIDs[0] != NoNeighbour then 1 else 0)
    + (if d.neighbourIDs[1] != NoNeighbour then 1 else 0)
    + (if d.neighbourIDs[2] != NoNeighbour then 1 else 0)
  }

  /** A loaded texture: its OpenGL name (0 for none), its kind ("diffuse", ...) and its file path. */
  datatype Texture = Texture(id: nat, kind: string, path: string)

  /** The texture a mesh holds before any is assigned: ID 0, empty kind and path. */
  const NoTexture: Texture := Texture(0, "", "")
}
