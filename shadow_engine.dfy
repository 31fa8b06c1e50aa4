/**
 * The headless shadow engine: it owns the list of building meshes that block
 * sunlight and answers "is this point in the sun?" by casting a ray toward the
 * sun and counting the meshes it hits. Mesh geometry and the ray/mesh
 * intersection test belong to the 3D engine and are given as an oracle.
 */
module Shadow {
  import opened JsValues
  import opened OsmParser
  import Seqs

  /** The ray starts at terrace table height above the venue. */
  const TableHeight: real := 0.75
  /** The raycaster's `far` bound. */
  const RayFar: real := 2000.0

  datatype Vec3 = Vec3(x: real, y: real, z: real)

  /** The extruded prism `createBuilding` makes from a footprint and a height. */
  datatype Mesh = Mesh(footprint: seq<PlanarPoint>, height: Number)

  /** A venue to check: its id and planar position. */
  datatype Position = Position(id: int, x: real, z: real)

  /** One entry of the batch result. */
  datatype SunCheck = SunCheck(x: real, z: real, id: int, isSunny: bool)

  /**
   * `hits(mesh, origin, direction, far)`: the ray from `origin` along
   * `direction` meets `mesh` within distance `far` (the engine's intersection test).
   */
  type HitTest = (Mesh, Vec3, Vec3, real) -> bool

  /** The ray's starting point above the venue at `(x, z)`. */
  function RayOrigin(x: real, z: real): Vec3
  {
    Vec3(x, TableHeight, z)
  }

  predicate Usable(b: Building)
  {
    |b.footprint| > 2
  }

  function CreateBuilding(b: Building): Mesh
  {
    Mesh(b.footprint, b.height)
  }

  /** The meshes `addBuildings` appends for `buildings`: one per building with more than two points, in order. */
  function MeshesFor(buildings: seq<Building>): seq<Mesh>
  {
    if buildings == [] then []
    else
      var meshes := MeshesFor(buildings[..|buildings| - 1]);
      var b := buildings[|buildings| - 1];
      if Usable(b) then meshes + [CreateBuilding(b)] else meshes
  }

  /**
   * The meshes made for a building list are exactly those of its usable
   * buildings, in the same order.
   */
  lemma {:induction false} MeshesForUsable(buildings: seq<Building>)
    ensures |MeshesFor(buildings)| == Seqs.Count(buildings, Usable)
    ensures forall k :: 0 <= k < |MeshesFor(buildings)| ==>
      MeshesFor(buildings)[k] == CreateBuilding(Seqs.Filter(buildings, Usable)[k])
  {
    if buildings != [] {
      var n := |buildings| - 1;
      MeshesForUsable(buildings[..n]);
      assert buildings == buildings[..n] + [buildings[n]];
      Seqs.FilterAppend(buildings[..n], [buildings[n]], Usable);
      Seqs.CountAppend(buildings[..n], [buildings[n]], Usable);
      assert Seqs.Filter([buildings[n]], Usable) == if Usable(buildings[n]) then [buildings[n]] else [];
    }
  }

  /** Every mesh has a footprint of at least three points. */
  lemma {:induction false} MeshesAreSolid(buildings: seq<Building>)
    ensures forall m :: m in MeshesFor(buildings) ==> |m.footprint| >= 3
  {
    if buildings != [] {
      MeshesAreSolid(buildings[..|buildings| - 1]);
    }
  }

  /**
   * The meshes the ray hits, in list order. `intersectObjects` reports one entry
   * per intersection point instead; only whether the list is empty is used.
   */
  function HitMeshes(meshes: seq<Mesh>, origin: Vec3, dir: Vec3, hits: HitTest): seq<Mesh>
  {
    if meshes == [] then []
    else
      var found := HitMeshes(meshes[..|meshes| - 1], origin, dir, hits);
      var m := meshes[|meshes| - 1];
      if hits(m, origin, dir, RayFar) then found + [m] else found
  }

  /** The venue at `(x, z)` is in the sun: no mesh blocks the ray toward `dir`. */
  predicate Sunlit(meshes: seq<Mesh>, x: real, z: real, dir: Vec3, hits: HitTest)
  {
    forall i :: 0 <= i < |meshes| ==> !hits(meshes[i], RayOrigin(x, z), dir, RayFar)
  }

  /** "No intersections" is "no mesh hit": the hit list is empty exactly when the venue is sunlit. */
  lemma {:induction false} NoHitsIffSunlit(meshes: seq<Mesh>, x: real, z: real, dir: Vec3, hits: HitTest)
    ensures |HitMeshes(meshes, RayOrigin(x, z), dir, hits)| == 0 <==> Sunlit(meshes, x, z, dir, hits)
  {
    if meshes != [] {
      var n := |meshes| - 1;
      NoHitsIffSunlit(meshes[..n], x, z, dir, hits);
      assert forall i :: 0 <= i < n ==> meshes[..n][i] == meshes[i];
    }
  }

  /** More buildings never bring more sun: the venue is lit by `a + b` iff it is lit by both. */
  lemma SunlitAppend(a: seq<Mesh>, b: seq<Mesh>, x: real, z: real, dir: Vec3, hits: HitTest)
    ensures Sunlit(a + b, x, z, dir, hits) <==> Sunlit(a, x, z, dir, hits) && Sunlit(b, x, z, dir, hits)
  {
    if Sunlit(a, x, z, dir, hits) && Sunlit(b, x, z, dir, hits) {
      forall i | 0 <= i < |a + b| ensures !hits((a + b)[i], RayOrigin(x, z), dir, RayFar) {
        if i >= |a| {
          assert (a + b)[i] == b[i - |a|];
        }
      }
    }
    if Sunlit(a + b, x, z, dir, hits) {
      forall i | 0 <= i < |a| ensures !hits(a[i], RayOrigin(x, z), dir, RayFar) {
        assert (a + b)[i] == a[i];
      }
      forall i | 0 <= i < |b| ensures !hits(b[i], RayOrigin(x, z), dir, RayFar) {
        assert (a + b)[|a| + i] == b[i];
      }
    }
  }

  class ShadowEngine {
    /** The meshes ray casts are tested against. */
    var buildingMeshes: seq<Mesh>

    constructor ()
      ensures buildingMeshes == []
    {
      buildingMeshes := [];
    }

    /** `addBuildings`: append one mesh per building with more than two points, keeping the old ones. */
    method AddBuildings(buildings: seq<Building>)
      modifies this
      ensures buildingMeshes == old(buildingMeshes) + MeshesFor(buildings)
    {
      var i := 0;
      while i < |buildings|
        invariant 0 <= i <= |buildings|
        invariant buildingMeshes == old(buildingMeshes) + MeshesFor(buildings[..i])
      {
        assert buildings[..i + 1][..i] == buildings[..i];
        var building := buildings[i];
        if |building.footprint| > 2 {
          var mesh := CreateBuilding(building);
          buildingMeshes := buildingMeshes + [mesh];
        }
        i := i + 1;
      }
      assert buildings[..|buildings|] == buildings;
    }

    /** `clearBuildings`: drop every mesh. */
    method ClearBuildings()
      modifies this
      ensures buildingMeshes == []
    {
      buildingMeshes := [];
    }

    /**
     * `checkSunAtPosition`: collect the meshes hit by the ray from table height
     * above `(x, z)` along `sunDirection`; the venue is sunny iff there are none.
     * No test of the sun's altitude is made here.
     */
    method CheckSunAtPosition(x: real, z: real, sunDirection: Vec3, hits: HitTest) returns (sunny: bool)
      ensures sunny <==> forall i :: 0 <= i < |buildingMeshes| ==>
        !hits(buildingMeshes[i], Vec3(x, 0.75, z), sunDirection, 2000.0)
    {
      var groundPoint := Vec3(x, TableHeight, z);
      var intersects: seq<Mesh> := [];
      var i := 0;
      while i < |buildingMeshes|
        invariant 0 <= i <= |buildingMeshes|
        invariant intersects == HitMeshes(buildingMeshes[..i], groundPoint, sunDirection, hits)
      {
        assert buildingMeshes[..i + 1][..i] == buildingMeshes[..i];
        if hits(buildingMeshes[i], groundPoint, sunDirection, RayFar) {
          intersects := intersects + [buildingMeshes[i]];
        }
        i := i + 1;
      }
      assert buildingMeshes[..|buildingMeshes|] == buildingMeshes;
      NoHitsIffSunlit(buildingMeshes, x, z, sunDirection, hits);
      sunny := |intersects| == 0;
    }

    /**
     * `checkSunAtPositions`: normalise the direction once, then check each
     * position, copying its id and coordinates into the result.
     */
    method CheckSunAtPositions(positions: seq<Position>, sunDirection: Vec3, normalize: Vec3 -> Vec3,
                               hits: HitTest) returns (results: seq<SunCheck>)
      ensures |results| == |positions|
      ensures forall i :: 0 <= i < |positions| ==>
        results[i].id == positions[i].id && results[i].x == positions[i].x && results[i].z == positions[i].z &&
        (results[i].isSunny <==> Sunlit(buildingMeshes, positions[i].x, positions[i].z, normalize(sunDirection), hits))
    {
      var sunDir := normalize(sunDirection);
      results := [];
      var i := 0;
      while i < |positions|
        invariant 0 <= i <= |positions|
        invariant |results| == i
        invariant forall j :: 0 <= j < i ==>
          results[j].id == positions[j].id && results[j].x == positions[j].x && results[j].z == positions[j].z &&
          (results[j].isSunny <==> Sunlit(buildingMeshes, positions[j].x, positions[j].z, sunDir, hits))
      {
        var pos := positions[i];
        var isSunny := CheckSunAtPosition(pos.x, pos.z, sunDir, hits);
        results := results + [SunCheck(pos.x, pos.z, pos.id, isSunny)];
        i := i + 1;
      }
    }
  }

  /** With no meshes loaded every position is sunny, whatever the sun's direction (even below the horizon). */
  lemma EmptyEngineIsSunny(x: real, z: real, dir: Vec3, hits: HitTest)
    ensures Sunlit([], x, z, dir, hits)
  {
  }
}
