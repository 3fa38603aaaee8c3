/**
 * The cloth simulation scene's own state: the window of recent frame times
 * (newest first), the frame counter and reference time behind the periodic
 * label refresh, the camera-rotation flag set by the left mouse button, and
 * the camera's Euler angles, with the pitch clamped to a quarter turn either
 * way.
 *
 * The clock, the pressed keys and the mouse deltas are parameters. The
 * camera angles live on a separate rotator object in the program; here they
 * are a field of the scene, read and written back exactly where the program
 * reads and writes the rotator's angles.
 */
module Scene {
  import opened MathUtil
  import opened Geometry
  import opened Meshes
  import opened ClothMeshes

  /** How many frame times are kept before the newest one is pushed. */
  const NUM_AVG_SIM_TIMES: nat := 10

  /** CL_M_PI_F, the single-precision value of pi, written out exactly. */
  const PiF: real := 3.1415927410125732421875

  /** The pitch bound. */
  const HalfPi: real := PiF / 2.0

  /** Key codes of the keys that rotate the camera. */
  const KEY_A: int := 65
  const KEY_D: int := 68
  const KEY_S: int := 83
  const KEY_W: int := 87

  const MOUSE_BUTTON_LEFT: int := 0

  /** Rotation per frame while a key is held, and per pixel of mouse motion. */
  const KeyStep: real := 0.04
  const MouseStep: real := 0.05

  /** The window after one frame: the oldest entries beyond the first ten dropped, then the new one in front. */
  function Recorded(times: seq<real>, sample: real): (r: seq<real>)
    ensures |r| == (if |times| > NUM_AVG_SIM_TIMES then NUM_AVG_SIM_TIMES else |times|) + 1
    ensures |r| <= NUM_AVG_SIM_TIMES + 1
    ensures r[0] == sample
    ensures r[1..] <= times
  {
    [sample] + times[..if |times| > NUM_AVG_SIM_TIMES then NUM_AVG_SIM_TIMES else |times|]
  }

  /** The window after recording every sample of `samples` in turn, starting empty. */
  function RecordAll(samples: seq<real>): seq<real>
  {
    if samples == [] then [] else Recorded(RecordAll(samples[..|samples| - 1]), samples[|samples| - 1])
  }

  /** A sequence in reverse order. */
  function Reverse(s: seq<real>): (r: seq<real>)
    ensures |r| == |s|
    ensures forall i :: 0 <= i < |s| ==> r[i] == s[|s| - 1 - i]
  {
    if s == [] then [] else [s[|s| - 1]] + Reverse(s[..|s| - 1])
  }

  /** The window holds the latest (at most eleven) samples, newest first. */
  lemma {:induction false} WindowHoldsLatest(samples: seq<real>)
    ensures RecordAll(samples) == Reverse(samples)[..if |samples| > NUM_AVG_SIM_TIMES + 1 then NUM_AVG_SIM_TIMES + 1 else |samples|]
  {
    if samples != [] {
      var n := |samples|;
      var front := samples[..n - 1];
      WindowHoldsLatest(front);
      var k := if n > NUM_AVG_SIM_TIMES + 1 then NUM_AVG_SIM_TIMES + 1 else n;
      var k' := if n - 1 > NUM_AVG_SIM_TIMES + 1 then NUM_AVG_SIM_TIMES + 1 else n - 1;
      var prev := Reverse(front)[..k'];
      assert RecordAll(samples) == Recorded(prev, samples[n - 1]);
      assert Reverse(samples) == [samples[n - 1]] + Reverse(front);
      assert Recorded(prev, samples[n - 1]) == [samples[n - 1]] + Reverse(front)[..k - 1];
    }
  }

  class ClothSimulationScene {
    var simulationTimes: seq<real>
    var timeOfLastUpdate: real
    var framesSinceLastUpdate: nat
    var isRotatingCamera: bool
    var eulerAngles: Vec3

    /** The window never holds more than eleven times, and the pitch stays within a quarter turn. */
    ghost predicate Valid()
      reads this
    {
      |simulationTimes| <= NUM_AVG_SIM_TIMES + 1
      && -HalfPi <= eulerAngles.x <= HalfPi
    }

    /**
     * The program does not initialise the flag, the counter or the reference
     * time; the model starts them at false, 0 and 0. The camera starts
     * unrotated.
     */
    constructor()
      ensures Valid()
      ensures simulationTimes == [] && framesSinceLastUpdate == 0 && !isRotatingCamera
      ensures eulerAngles == Vec3(0.0, 0.0, 0.0)
    {
      simulationTimes := [];
      timeOfLastUpdate := 0.0;
      framesSinceLastUpdate := 0;
      isRotatingCamera := false;
      eulerAngles := Vec3(0.0, 0.0, 0.0);
    }

    /** Empties the frame-time window from the back; nothing else of the scene's own state changes. */
    method Reset()
      requires Valid()
      modifies this
      ensures Valid()
      ensures simulationTimes == []
      ensures framesSinceLastUpdate == old(framesSinceLastUpdate) && timeOfLastUpdate == old(timeOfLastUpdate)
      ensures isRotatingCamera == old(isRotatingCamera) && eulerAngles == old(eulerAngles)
    {
      while simulationTimes != []
        invariant Valid()
        invariant framesSinceLastUpdate == old(framesSinceLastUpdate) && timeOfLastUpdate == old(timeOfLastUpdate)
        invariant isRotatingCamera == old(isRotatingCamera) && eulerAngles == old(eulerAngles)
        decreases |simulationTimes|
      {
        simulationTimes := simulationTimes[..|simulationTimes| - 1];
      }
    }

    /**
     * One frame: rotate the camera by the held keys and clamp the pitch,
     * capture the reference time if the counter is 0, count the frame,
     * record the frame time, and zero the counter once more than two seconds
     * have passed since the reference time.
     */
    method Update(keysDown: set<int>, timeBegin: real, timeEnd: real)
      requires Valid()
      modifies this
      ensures Valid()
      ensures eulerAngles.x == Clamp(old(eulerAngles.x) - (if KEY_S in keysDown then KeyStep else 0.0)
                                     + (if KEY_W in keysDown then KeyStep else 0.0), -HalfPi, HalfPi)
      ensures eulerAngles.y == old(eulerAngles.y) + (if KEY_A in keysDown then KeyStep else 0.0)
                                                  - (if KEY_D in keysDown then KeyStep else 0.0)
      ensures eulerAngles.z == old(eulerAngles.z)
      ensures timeOfLastUpdate == if old(framesSinceLastUpdate) == 0 then timeBegin else old(timeOfLastUpdate)
      ensures framesSinceLastUpdate == if timeEnd - timeOfLastUpdate > 2.0 then 0 else old(framesSinceLastUpdate) + 1
      ensures simulationTimes == Recorded(old(simulationTimes), timeEnd - timeBegin)
      ensures isRotatingCamera == old(isRotatingCamera)
    {
      var angles := eulerAngles;
      if KEY_A in keysDown { angles := angles.(y := angles.y + KeyStep); }
      if KEY_D in keysDown { angles := angles.(y := angles.y - KeyStep); }
      if KEY_S in keysDown { angles := angles.(x := angles.x - KeyStep); }
      if KEY_W in keysDown { angles := angles.(x := angles.x + KeyStep); }
      angles := angles.(x := Clamp(angles.x, -PiF / 2.0, PiF / 2.0));
      eulerAngles := angles;

      if framesSinceLastUpdate == 0 {
        timeOfLastUpdate := timeBegin;
      }

      framesSinceLastUpdate := framesSinceLastUpdate + 1;
      ghost var frames, reference := framesSinceLastUpdate, timeOfLastUpdate;

      while |simulationTimes| > NUM_AVG_SIM_TIMES
        invariant eulerAngles == angles && isRotatingCamera == old(isRotatingCamera)
        invariant framesSinceLastUpdate == frames && timeOfLastUpdate == reference
        invariant |simulationTimes| >= if |old(simulationTimes)| > NUM_AVG_SIM_TIMES then NUM_AVG_SIM_TIMES else |old(simulationTimes)|
        invariant simulationTimes == old(simulationTimes)[..|simulationTimes|]
        decreases |simulationTimes|
      {
        simulationTimes := simulationTimes[..|simulationTimes| - 1];
      }
      simulationTimes := [timeEnd - timeBegin] + simulationTimes;

      if timeEnd - timeOfLastUpdate > 2.0 {
        framesSinceLastUpdate := 0;
      }
    }

    /** The left button starts or stops camera rotation and is handled; any other button is not. */
    method MouseButtonEvent(button: int, down: bool) returns (handled: bool)
      modifies this
      ensures handled <==> button == MOUSE_BUTTON_LEFT
      ensures isRotatingCamera == if handled then down else old(isRotatingCamera)
      ensures simulationTimes == old(simulationTimes) && eulerAngles == old(eulerAngles)
      ensures framesSinceLastUpdate == old(framesSinceLastUpdate) && timeOfLastUpdate == old(timeOfLastUpdate)
    {
      if button == MOUSE_BUTTON_LEFT {
        isRotatingCamera := down;
        return true;
      }

      return false;
    }

    /**
     * While rotating, mouse motion turns the camera (vertical motion pitches,
     * horizontal motion yaws) and the pitch is clamped; otherwise nothing
     * changes. Reports whether the camera turned.
     */
    method MouseMotionEvent(relX: int, relY: int) returns (handled: bool)
      requires Valid()
      modifies this
      ensures Valid()
      ensures handled == old(isRotatingCamera)
      ensures handled ==> eulerAngles == Vec3(Clamp(old(eulerAngles.x) + MouseStep * relY as real, -HalfPi, HalfPi),
                                              old(eulerAngles.y) + MouseStep * relX as real,
                                              old(eulerAngles.z))
      ensures !handled ==> eulerAngles == old(eulerAngles)
      ensures isRotatingCamera == old(isRotatingCamera) && simulationTimes == old(simulationTimes)
      ensures framesSinceLastUpdate == old(framesSinceLastUpdate) && timeOfLastUpdate == old(timeOfLastUpdate)
    {
      if isRotatingCamera {
        var angles := eulerAngles;
        angles := angles.(x := angles.x + MouseStep * relY as real);
        angles := angles.(y := angles.y + MouseStep * relX as real);
        angles := angles.(x := Clamp(angles.x, -PiF / 2.0, PiF / 2.0));
        eulerAngles := angles;

        return true;
      }

      return false;
    }
  }

  /**
   * The ground mesh's lifecycle when a setup is loaded: upload, then free the
   * host arrays. The counts and the uploaded data outlive the host arrays.
   */
  method UploadAndFreeHostData<E, ED>(m: ClothMesh<E, ED>)
    requires m.Valid()
    requires !m.mesh.hasUploadedHostData
    requires |m.vertexClothData| >= |m.mesh.vertices|
    modifies m, m.mesh
    ensures m.Valid()
    ensures m.mesh.hasUploadedHostData
    ensures m.mesh.vertices == [] && m.mesh.edges == [] && m.mesh.triangles == []
    ensures m.vertexClothData == [] && m.edgeClothData == [] && m.triangleClothData == []
    ensures m.mesh.NumVertices() == |old(m.mesh.vertices)|
    ensures m.mesh.NumEdges() == |old(m.mesh.edges)|
    ensures m.mesh.NumTriangles() == |old(m.mesh.triangles)|
    ensures m.mesh.vertexBuffer == old(m.mesh.vertices) && m.mesh.edgeBuffer == old(m.mesh.edges)
    ensures m.mesh.triangleBuffer == old(m.mesh.triangles)
    ensures m.vertexClothBuffer == old(m.vertexClothData)[..|old(m.mesh.vertices)|]
    ensures |m.velocitiesBuffer| == |m.predictedPositionsBuffer| == |m.positionCorrectionsBuffer| == |old(m.mesh.vertices)|
    ensures forall i :: 0 <= i < |old(m.mesh.vertices)| ==>
              m.velocitiesBuffer[i] == Zero4 && m.predictedPositionsBuffer[i] == Zero4
              && m.positionCorrectionsBuffer[i] == Zero4
    ensures m.mesh.texDiffuse == old(m.mesh.texDiffuse) && m.mesh.texSpecular == old(m.mesh.texSpecular)
         && m.mesh.texBump == old(m.mesh.texBump)
  {
    m.UploadHostData();
    m.ClearHostData();
  }
}
