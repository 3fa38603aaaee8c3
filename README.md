# Cloth mesh core of a position-based-dynamics cloth simulator, in Dafny

This project models the host-side core of a C++ cloth simulator built on
OpenGL and OpenCL. The simulation kernels themselves are not part of it.
The model covers five parts:

- **Order helpers** (`MathUtil`): three-argument minimum, maximum and
  median, and clamp, all built from `std::min`/`std::max`.
- **Records** (`Geometry`): vertices, triangles, the per-vertex and
  per-triangle cloth records (three neighbour slots, where -1 means no
  neighbour), the vertex-attribute locations and textures.
- **Mesh loader** (`MeshLoader`):
  - the triangle-adjacency builder `CalculateTriangleNeighbours`;
  - the per-vertex cloth-record loop of `LoadClothMesh`;
  - the path-keyed texture cache of `LoadTextureFromFile`.
- **Meshes** (`Meshes`, `ClothMeshes`): the mesh and cloth-mesh classes with
  their upload/clear lifecycle, cached counts, normal flipping and
  shared-buffer lists.
- **Scene** (`Scene`): the scene's frame-time window, frame counter,
  mouse-driven rotation flag and camera pitch clamp.

The adjacency builder is proved in two layers. First, the method is shown
to produce exactly `NeighbourTable`, a specification built from `Sharers`:
the list an edge key accumulates when triangles are processed in order.
Second, lemmas state what that table means:

- a slot is -1 exactly when its edge's list has a single entry. For a
  triangle with three distinct indices, that means exactly at a boundary
  edge;
- for a triangle with three distinct indices, any other slot holds the
  smallest-ID other triangle on that edge. A triangle with a repeated
  index can instead name itself, as `DegenerateListsItself` shows;
- adjacency is symmetric on manifold meshes. Here "manifold" means
  that no edge lies on three triangles and that no triangle repeats an
  index. That is narrower than "every edge on at most two triangles",
  and a counterexample shows the second condition is needed;
- the table does not depend on the order of a triangle's indices, so
  flipping normals keeps it.

Three counterexample lemmas show what happens off the intended input.

## Model

| member | source | states |
|---|---|---|
| MathUtil.Min3 | src/util/math_util.hpp:9-12 | the result is at most each argument and is one of them |
| MathUtil.Max3 | src/util/math_util.hpp:14-17 | the result is at least each argument and is one of them |
| MathUtil.Median3 | src/util/math_util.hpp:19-22 | the result is one of the arguments and lies between their minimum and maximum |
| MathUtil.SortedTripleIsPermutation | src/util/math_util.hpp:9-22 | minimum, median and maximum together are the three arguments, with multiplicity |
| MathUtil.OrderHelpersIgnoreArgumentOrder | src/util/math_util.hpp:9-22 | each helper gives the same result under all six orders of its arguments |
| MathUtil.Clamp | src/util/math_util.hpp:25-28 | with lo ≤ hi the result is in [lo, hi], an in-range value is returned unchanged, a value at or below lo becomes lo and one at or above hi becomes hi; with lo > hi the result is lo |
| MathUtil.ClampIdempotent | src/util/math_util.hpp:25-28 | clamping twice equals clamping once, for every range |
| Geometry.Location | src/geometry/geometry.hpp:10-17 | every attribute location is between 0 and 5 |
| Geometry.AttributeAt | src/geometry/geometry.hpp:10-17 | exactly the locations 0 to 5 name an attribute, and that attribute has that location |
| Geometry.LocationsDistinct | src/geometry/geometry.hpp:10-17 | the attribute locations are pairwise distinct, and each attribute is recovered from its location |
| Geometry.NeighbourCount | src/geometry/geometry.hpp:61-72 | a triangle has 0 to 3 neighbours; 0 exactly when all slots are -1, 3 exactly when none is |
| MeshLoader.CanonicalEdges | src/geometry/MeshLoader.cpp:76-82 | the three keys (min,med), (med,max), (min,max) each have first ≤ second |
| MeshLoader.CanonicalEdgesAreSides | src/geometry/MeshLoader.cpp:76-82 | the three keys are exactly the triangle's three sides, each with the smaller index first |
| MeshLoader.CanonicalEdgesIgnoreOrder | src/geometry/MeshLoader.cpp:76-82 | any reordering of a triangle's indices gives the same keys, slot by slot |
| MeshLoader.SharersCount | src/geometry/MeshLoader.cpp:84-86 | an edge's list holds each processed triangle as often as that triangle has slots with the edge, and holds nothing else |
| MeshLoader.SharersMembership | src/geometry/MeshLoader.cpp:84-86 | a triangle is on an edge's list exactly when it is processed and has that edge |
| MeshLoader.SharersSorted | src/geometry/MeshLoader.cpp:84-86 | an edge's list holds processed IDs in non-decreasing order |
| MeshLoader.NeighbourAt | src/geometry/MeshLoader.cpp:104-118 | every neighbour slot is -1 or a valid triangle index |
| MeshLoader.NeighbourTable | src/geometry/MeshLoader.cpp:100-121 | one record per triangle, and record i is triangle i's record |
| MeshLoader.BuildLookupTables | src/geometry/MeshLoader.cpp:67-93 | the first pass leaves the two tables that pushing every triangle's three keys, triangle by triangle, produces |
| MeshLoader.EdgeTableLists | src/geometry/MeshLoader.cpp:84-86 | in the edge table the first pass builds, each edge's list is its sharers in triangle order |
| MeshLoader.TriangleTableLists | src/geometry/MeshLoader.cpp:88-90 | the triangle table holds exactly the processed triangle IDs, each mapped to its three keys in slot order |
| MeshLoader.FindSharingTriangles | src/geometry/MeshLoader.cpp:103-118 | filling the three slots of one triangle yields exactly that triangle's specified record |
| MeshLoader.CalculateTriangleNeighbours | src/geometry/MeshLoader.cpp:60-121 | the output has one record per triangle, record i has ID i, and the output equals the specified neighbour table |
| MeshLoader.BoundaryExactly | src/geometry/MeshLoader.cpp:105-111 | a slot is -1 exactly when the triangle has the edge in one slot only and no other triangle has it |
| MeshLoader.BoundaryIff | src/geometry/MeshLoader.cpp:105-111 | for a triangle with distinct indices, a slot is -1 exactly when no other triangle has the edge |
| MeshLoader.FirstOtherSharer | src/geometry/MeshLoader.cpp:113-117 | for a triangle with distinct indices, a stored neighbour is not the triangle itself, has the edge, and is the smallest-ID other triangle with it |
| MeshLoader.NeighbourSymmetric | src/geometry/MeshLoader.cpp:124-139 | on a manifold mesh, if triangle i names r in slot k, then r names i, and does so in its slot for the same edge as slot k |
| MeshLoader.TableSymmetric | src/geometry/MeshLoader.cpp:124-139 | the whole table passes the debug symmetry check on every manifold mesh |
| MeshLoader.TableSymmetricPerEdge | src/geometry/MeshLoader.cpp:124-139 | on every manifold mesh, each stored neighbour in the table names the triangle back across the same edge |
| MeshLoader.ReorderingKeepsTable | src/geometry/MeshLoader.cpp:76-82 | reordering the indices of any triangles leaves the neighbour table unchanged |
| MeshLoader.NonManifoldBreaksSymmetry | src/geometry/MeshLoader.cpp:112-117 | with three triangles on one edge, the third names the first, but the first does not name the third |
| MeshLoader.DegenerateBreaksSymmetry | src/geometry/MeshLoader.cpp:124-139 | with a repeated index and no edge on three triangles, the second triangle names the first, but the first does not name the second, so non-degeneracy is needed for symmetry |
| MeshLoader.DegenerateListsItself | src/geometry/MeshLoader.cpp:113-117 | a triangle with a repeated index names itself as its own neighbour |
| MeshLoader.ClothVertexRecords | src/geometry/MeshLoader.cpp:221-227 | one record per vertex, in index order, with vertex ID i and mass 1 |
| MeshLoader.FindTexture | src/geometry/MeshLoader.cpp:34-37 | the result is the first position whose path matches, or the length when none matches |
| MeshLoader.TextureCache.constructor | src/geometry/MeshLoader.cpp:14 | the cache starts empty |
| MeshLoader.TextureCache.LoadTextureFromFile | src/geometry/MeshLoader.cpp:33-55 | paths stay unique; a cached path returns the cached texture and leaves the cache unchanged; a new path is loaded once and appended |
| Meshes.FlipVertex | src/geometry/Mesh.cpp:57-59 | the normal is negated and every other vertex field is kept |
| Meshes.FlipWinding | src/geometry/Mesh.cpp:63-65 | entries 1 and 2 are swapped, entry 0 is kept, and the result is a reordering of the triangle |
| Meshes.FlipTwiceRestores | src/geometry/Mesh.cpp:55-66 | flipping twice restores every vertex and every triangle exactly |
| Meshes.FlipKeepsNeighbourTable | src/geometry/Mesh.cpp:55-66 | flipping the triangles' winding keeps the neighbour table |
| Meshes.Mesh.constructor | src/geometry/Mesh.cpp:6-20 | a new mesh holds the given arrays, is not uploaded, and has texture ID 0 for all three textures |
| Meshes.Mesh.NumVertices | src/geometry/Mesh.cpp:127-129 | the vertex count is the uploaded buffer's length after upload, and the host array's length before |
| Meshes.Mesh.NumEdges | src/geometry/Mesh.cpp:131-133 | the edge count is the uploaded buffer's length after upload, and the host array's length before |
| Meshes.Mesh.NumTriangles | src/geometry/Mesh.cpp:135-137 | the triangle count is the uploaded buffer's length after upload, and the host array's length before |
| Meshes.Mesh.FlipNormals | src/geometry/Mesh.cpp:55-66 | every normal is negated and every triangle rewound; nothing else changes |
| Meshes.Mesh.UploadHostData | src/geometry/Mesh.cpp:68-104 | the first call caches the lengths and copies the arrays into the buffers; later calls change nothing; the counts are unchanged either way |
| Meshes.Mesh.ClearHostData | src/geometry/Mesh.cpp:113-117 | the host arrays become empty; the flag and buffers are untouched; after upload, the counts survive |
| Meshes.Mesh.GetMemoryCL | src/geometry/Mesh.cpp:119-125 | the shared handles are vertex, edge and triangle, in that order |
| ClothMeshes.ZeroVectors | src/geometry/ClothMesh.cpp:53-55 | n vectors, all zero |
| ClothMeshes.ClothMesh.constructor | src/geometry/ClothMesh.cpp:6-22 | the mesh part holds the given arrays with dynamic usage and is not uploaded; the cloth data are stored exactly as passed |
| ClothMeshes.ClothMesh.FromMesh | src/geometry/ClothMesh.cpp:24-37 | the new cloth mesh copies the source mesh's arrays and three textures, starts not uploaded, and leaves the source mesh unchanged |
| ClothMeshes.ClothMesh.UploadHostData | src/geometry/ClothMesh.cpp:39-70 | does nothing once uploaded; otherwise it uploads the mesh part, copies one cloth record per vertex, and fills the velocity, predicted-position and correction buffers with one zero vector per vertex; the textures are never touched |
| ClothMeshes.ClothMesh.ClearHostData | src/geometry/ClothMesh.cpp:94-99 | the mesh arrays and the three cloth data lists become empty; buffers, textures and counts after upload survive |
| ClothMeshes.ClothMesh.GetMemoryCL | src/geometry/ClothMesh.cpp:101-106 | five distinct handles: the mesh's three, then predicted positions, then velocities |
| Scene.Recorded | src/ClothSimulationScene.cpp:95-98 | after one frame the window holds at most 11 times, the new one in front, followed by a prefix of the old window |
| Scene.WindowHoldsLatest | src/ClothSimulationScene.cpp:95-98 | after any sequence of frames, the window holds the latest at most 11 frame times, newest first |
| Scene.ClothSimulationScene.constructor | src/ClothSimulationScene.cpp:13-23 | the scene starts with an empty window, counter 0, rotation off and an unrotated camera |
| Scene.ClothSimulationScene.Reset | src/ClothSimulationScene.cpp:60-65 | the window becomes empty and the rest of the scene's state is kept |
| Scene.ClothSimulationScene.Update | src/ClothSimulationScene.cpp:67-105 | keys A and D turn the yaw and S and W the pitch, which is clamped to a quarter turn; the reference time is taken when the counter is 0; the counter rises by one and is zeroed once more than 2 s have passed; the window records one new time |
| Scene.ClothSimulationScene.MouseButtonEvent | src/ClothSimulationScene.cpp:122-129 | handled exactly for the left button, which sets the rotation flag; other buttons change nothing |
| Scene.ClothSimulationScene.MouseMotionEvent | src/ClothSimulationScene.cpp:131-143 | turns the camera only while rotating, keeps the pitch clamped, and reports whether it turned |
| Scene.UploadAndFreeHostData | src/ClothSimulationScene.cpp:175-177 | upload followed by clear leaves empty host data; the counts are the original sizes, the vertex, edge, triangle and cloth-record buffers hold the original contents, the three simulation buffers hold one zero vector per vertex, and the textures are unchanged |

Where the code and its comments or declarations disagree, the model
follows the code:

- The neighbour slots follow the code's key order (min,med), (med,max),
  (min,max). The comment on `ClothTriangleData` describes a different slot
  order.
- `Mesh.cpp` and `ClothMesh.cpp` take edge arrays, edge cloth data and a
  bump texture. `Mesh.hpp` declares none of them, nor the edge and edge
  cloth record types. The model follows the `.cpp` files and makes both
  record types type parameters.
- The frame counter is zeroed after more than 2 seconds, although the
  comment above it says twice each second.
- Ten entries are kept before each push, so the window holds up to 11
  times.

## Left out

- The position-based-dynamics solver, kernels and OpenCL queue work are left
  out: they are not part of the modelled sources.
- OpenGL and OpenCL calls are left out, except for their effect on buffer
  contents and flags. This covers vertex-array and attribute setup,
  `generateBuffersCL`, `render`, and acquire/release of shared objects.
  `GetMemoryCL` returns tags that name buffers, not handles.
- `LoadMesh` is left out, because it reads files through Assimp; the
  `convert*` helpers it uses go with it.
- SOIL texture loading is a function parameter of
  `TextureCache.LoadTextureFromFile`, because it is a foreign library.
- `LoadClothMesh` is modelled only through its parts:
  - the cloth-record loop (`ClothVertexRecords`);
  - `CalculateTriangleNeighbours`;
  - the constructors.

  The constructor it calls takes three arguments, and `ClothMesh.cpp` does
  not define it.
- The scene is simplified in these ways:
  - its GUI (`addGUI`, `updateTimeLabelsInGUI`) is left out;
  - shader and kernel loading, lights, `resizeEvent` and `keyboardEvent`
    are left out;
  - the clock, held keys and mouse deltas are parameters;
  - `reset` reloads the setup from a file, and that part is left out.
    `UploadAndFreeHostData` models what the setup does with the mesh it
    loads.
- JSON scene setups, simulation parameters, the grid, lights, mesh
  objects and `main` are left out: they are parsing, rendering and
  application plumbing.
- Fields the program leaves uninitialised start at fixed values in the
  model:
  - the scene's rotation flag, frame counter and reference time;
  - a mesh's cached counts before its first upload.

  No proof depends on those values.
- Scene.ClothSimulationScene.Update: angles and times are reals. Rounding in
  single precision (the 0.04 and 0.05 steps, pi / 2) and in double precision
  is not modelled. The pitch bound is the exact value of the
  single-precision pi, halved.
- Scene.ClothSimulationScene.Update: the frame counter is unbounded and its
  32-bit wrap-around is not modelled.
- Scene.ClothSimulationScene.Update and
  Scene.ClothSimulationScene.MouseMotionEvent: the program reads and
  writes the camera angles through the camera rotator's
  `getEulerAngles` and `setEulerAngles`, whose class is not part of this
  model. The model keeps the angles in a plain field of the scene, so it
  assumes that reading the angles back returns exactly what was last set.
  The contracts of both methods and the pitch bound in `Valid` rest on
  that assumption.
- MeshLoader.CalculateTriangleNeighbours: the model follows the release
  build and returns a table on every input. In a debug build the
  symmetry check after the second pass (`assert` at
  src/geometry/MeshLoader.cpp:124-139) aborts the program. It does so
  exactly when the conclusion of `TableSymmetric` fails for the table.
  The inputs of `NonManifoldBreaksSymmetry` and
  `DegenerateBreaksSymmetry` are such inputs. Vertex indices and
  triangle IDs are unbounded, and the conversion from unsigned IDs to the
  signed slot type (also in `NeighbourAt`) is not modelled.
- ClothMeshes.ClothMesh.UploadHostData: it requires at least as many cloth
  vertex records as vertices. The program reads that many records with no
  check.
- The texture cache is a global list in the program. The model makes it a
  class instance.
