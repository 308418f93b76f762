/**
 * The value types of the rendering library the scenes are built from:
 * points, materials, triangles, transforms, extrusion faces and the
 * scene tree. Coordinates are exact reals standing for the library's
 * float32 components.
 */
module Geometry {

  /** A point or a direction in the shared right-handed, Y-up space. */
  datatype Vec = Vec(x: real, y: real, z: real)

  const Zero: Vec := Vec(0.0, 0.0, 0.0)

  function Add(a: Vec, b: Vec): Vec {
    Vec(a.x + b.x, a.y + b.y, a.z + b.z)
  }

  function Sub(a: Vec, b: Vec): Vec {
    Vec(a.x - b.x, a.y - b.y, a.z - b.z)
  }

  function Scale(a: Vec, k: real): Vec {
    Vec(a.x * k, a.y * k, a.z * k)
  }

  /** A material is only ever passed along; it is an opaque tag here. */
  datatype Material = Material(name: string)

  datatype Triangle = Triangle(p0: Vec, p1: Vec, p2: Vec, material: Material)

  /** A face of an indexed mesh: three vertex indices. */
  datatype Face = Face(v0: int, v1: int, v2: int)

  /**
   * How a transform was built. `Mul(outer, inner)` is the matrix product
   * `outer.Mul(inner)`: applied to a point, `inner` acts first.
   */
  datatype Transform =
    | Translate(offset: Vec)
    | RotateY(quarterTurns: int)
    | Mul(outer: Transform, inner: Transform)

  /** The action of a rotation about the Y axis by a number of quarter turns. */
  type Rotation = (int, Vec) -> Vec

  /** The point a transform sends `p` to; rotations act through `rotate`. */
  function Apply(t: Transform, rotate: Rotation, p: Vec): Vec {
    match t
    case Translate(v) => Add(p, v)
    case RotateY(n) => rotate(n, p)
    case Mul(a, b) => Apply(a, rotate, Apply(b, rotate, p))
  }

  /** The input of an extrusion: front triangles, outer and inner boundary loops. */
  datatype ExtrusionFace = ExtrusionFace(
    front: seq<Triangle>,
    outer: seq<seq<Vec>>,
    inner: seq<seq<Vec>>,
    material: Material)

  /**
   * The triangles the extrusion library builds from a face and a depth
   * vector, as flattening finds them.
   */
  type Extrusion = (ExtrusionFace, Vec) -> seq<Triangle>

  /**
   * A node of the scene tree. `Solid` is the object the extrusion library
   * builds from a face and a depth vector; it is recorded by its inputs,
   * and its triangles are those an `Extrusion` gives. `Other` is any other
   * object the ray tracer knows (a cuboid, a sphere, ...), named by its kind.
   */
  datatype Object =
    | Tri(triangle: Triangle)
    | Complex(children: seq<Object>)
    | Shared(shared: Object, toWorld: Transform)
    | Solid(face: ExtrusionFace, depth: Vec)
    | Other(kind: string)
}
