/**
 * The values and the mutable mesh object of the ferris-wheel scene: homogeneous
 * positions, normals, texture coordinates and RGBA colours, and `GeometryObject`,
 * whose lists the OBJ loader appends to and whose colours the car selection repaints.
 */
module Geometry {

  datatype Vec2 = Vec2(u: real, v: real)
  datatype Vec3 = Vec3(x: real, y: real, z: real)
  datatype Vec4 = Vec4(x: real, y: real, z: real, w: real)

  /** An element read out of a JavaScript array: a value, or `undefined` when the index is outside it. */
  datatype Entry<T> = Defined(value: T) | Undefined

  /** Default colour of every parsed corner and of an unselected car. */
  const Red := Vec4(1.0, 0.0, 0.0, 1.0)
  /** Colour of the selected car. */
  const Blue := Vec4(0.0, 0.0, 1.0, 1.0)

  /** `pool[index - 1]` for a 1-based OBJ index: `undefined` for 0, negatives and indices past the end. */
  function Lookup<T>(pool: seq<T>, index: int): (e: Entry<T>)
    ensures e.Defined? <==> 1 <= index <= |pool|
    ensures e.Defined? ==> e.value == pool[index - 1]
  {
    if 1 <= index <= |pool| then Defined(pool[index - 1]) else Undefined
  }

  /** An entry read from a pool stays the same when the pool only grows. */
  lemma LookupStable<T>(pool: seq<T>, grown: seq<T>, index: int)
    requires pool <= grown
    requires Lookup(pool, index).Defined?
    ensures Lookup(grown, index) == Lookup(pool, index)
  {
  }

  /** The three per-corner lists of a mesh, as values. */
  datatype Mesh = Mesh(positions: seq<Entry<Vec4>>, normals: seq<Entry<Vec3>>, colors: seq<Vec4>)

  const EmptyMesh := Mesh([], [], [])

  /** `s` with every element replaced by `c`. */
  function Filled(s: seq<Vec4>, c: Vec4): (r: seq<Vec4>)
    ensures |r| == |s|
    ensures forall k :: 0 <= k < |r| ==> r[k] == c
  {
    seq(|s|, _ => c)
  }

  predicate AllColored(s: seq<Vec4>, c: Vec4)
  {
    forall k :: 0 <= k < |s| ==> s[k] == c
  }

  /**
   * One drawable mesh: per-corner positions, normals and colours, flattened so that
   * each triangle corner has its own entry, and the rotation angles (degrees) passed
   * to the shader, of which only the wheel skeleton's z angle ever changes.
   */
  class GeometryObject {
    var positions: seq<Entry<Vec4>>
    var normals: seq<Entry<Vec3>>
    var colors: seq<Vec4>
    var theta: seq<int>

    constructor ()
      ensures Contents() == EmptyMesh
      ensures theta == [0, 0, 0]
    {
      positions := [];
      normals := [];
      colors := [];
      theta := [0, 0, 0];
    }

    function Contents(): Mesh
      reads this
    {
      Mesh(positions, normals, colors)
    }
  }

  /** The meshes of a list of objects, in order. */
  function Meshes(objs: seq<GeometryObject>): (r: seq<Mesh>)
    reads objs
    ensures |r| == |objs|
    ensures forall k :: 0 <= k < |objs| ==> r[k] == objs[k].Contents()
  {
    seq(|objs|, k reads objs requires 0 <= k < |objs| => objs[k].Contents())
  }

  lemma MeshesSnoc(objs: seq<GeometryObject>, g: GeometryObject)
    ensures Meshes(objs + [g]) == Meshes(objs) + [g.Contents()]
  {
    assert forall k :: 0 <= k < |objs| ==> (objs + [g])[k] == objs[k];
  }
}
