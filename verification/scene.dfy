/**
 * Flattening a scene tree into its triangles, depth first and in order:
 * triangles stand for themselves, complex objects for the concatenation
 * of their children, shared objects for their object's triangles moved
 * to world space, and extruded solids for the triangles the extrusion
 * builds; objects of any other kind are skipped.
 */
module SceneTree {
  import opened Geometry

  /** A triangle with its three corners moved by `toWorld`; the material is kept. */
  function MoveTriangle(t: Triangle, toWorld: Transform, rotate: Rotation): Triangle {
    Triangle(Apply(toWorld, rotate, t.p0), Apply(toWorld, rotate, t.p1), Apply(toWorld, rotate, t.p2), t.material)
  }

  function MoveAll(ts: seq<Triangle>, toWorld: Transform, rotate: Rotation): seq<Triangle> {
    seq(|ts|, i requires 0 <= i < |ts| => MoveTriangle(ts[i], toWorld, rotate))
  }

  /**
   * The triangles of a list of objects, one object after the other: as
   * many as the objects have leaves.
   */
  function TrianglesFrom(os: seq<Object>, rotate: Rotation, extrude: Extrusion): (ts: seq<Triangle>)
    ensures |ts| == LeafCountAll(os, extrude)
    decreases os
  {
    if |os| == 0 then [] else NodeTriangles(os[0], rotate, extrude) + TrianglesFrom(os[1..], rotate, extrude)
  }

  /**
   * The triangles of one node: every triangle leaf yields exactly one
   * triangle, and every solid the triangles of its extrusion, whatever
   * groups and transforms they sit under; any other object yields none.
   */
  function NodeTriangles(o: Object, rotate: Rotation, extrude: Extrusion): (ts: seq<Triangle>)
    ensures |ts| == LeafCount(o, extrude)
    decreases o
  {
    match o
    case Tri(t) => [t]
    case Complex(cs) => TrianglesFrom(cs, rotate, extrude)
    case Shared(inner, toWorld) => MoveAll(NodeTriangles(inner, rotate, extrude), toWorld, rotate)
    case Solid(face, depth) => extrude(face, depth)
    case Other(_) => []
  }

  /**
   * The number of leaves of a node, counted through every kind of group:
   * one per triangle, and as many as its extrusion builds per solid.
   */
  function LeafCount(o: Object, extrude: Extrusion): nat
    decreases o
  {
    match o
    case Tri(_) => 1
    case Complex(cs) => LeafCountAll(cs, extrude)
    case Shared(inner, _) => LeafCount(inner, extrude)
    case Solid(face, depth) => |extrude(face, depth)|
    case Other(_) => 0
  }

  function LeafCountAll(os: seq<Object>, extrude: Extrusion): nat
    decreases os
  {
    if |os| == 0 then 0 else LeafCount(os[0], extrude) + LeafCountAll(os[1..], extrude)
  }

  /** Flattening a list distributes over concatenation: order is kept. */
  lemma {:induction false} TrianglesFromAppend(a: seq<Object>, b: seq<Object>, rotate: Rotation, extrude: Extrusion)
    ensures TrianglesFrom(a + b, rotate, extrude) == TrianglesFrom(a, rotate, extrude) + TrianglesFrom(b, rotate, extrude)
  {
    if |a| == 0 {
      assert a + b == b;
    } else {
      assert (a + b)[0] == a[0];
      assert (a + b)[1..] == a[1..] + b;
      TrianglesFromAppend(a[1..], b, rotate, extrude);
    }
  }

  /**
   * An object of a kind flattening does not know is skipped: wherever it
   * stands in a list, the list flattens as if it were not there.
   */
  lemma OtherSkipped(a: seq<Object>, kind: string, b: seq<Object>, rotate: Rotation, extrude: Extrusion)
    ensures TrianglesFrom(a + [Other(kind)] + b, rotate, extrude) == TrianglesFrom(a + b, rotate, extrude)
  {
    TrianglesFromAppend(a + [Other(kind)], b, rotate, extrude);
    TrianglesFromAppend(a, [Other(kind)], rotate, extrude);
    TrianglesFromAppend(a, b, rotate, extrude);
    assert TrianglesFrom([Other(kind)], rotate, extrude) == [];
  }

  /**
   * Child k of a complex object contributes its triangles between those of
   * the children before it and those of the children after it.
   */
  lemma ComplexChildInPlace(cs: seq<Object>, k: nat, rotate: Rotation, extrude: Extrusion)
    requires k < |cs|
    ensures NodeTriangles(Complex(cs), rotate, extrude)
         == TrianglesFrom(cs[..k], rotate, extrude) + NodeTriangles(cs[k], rotate, extrude) + TrianglesFrom(cs[k + 1..], rotate, extrude)
  {
    assert cs == cs[..k] + cs[k..];
    TrianglesFromAppend(cs[..k], cs[k..], rotate, extrude);
    assert cs[k..][1..] == cs[k + 1..];
  }

  /**
   * A shared object inside a shared object is the object under the product
   * of the two transforms: the inner transform acts first.
   */
  lemma SharedComposes(o: Object, inner: Transform, outer: Transform, rotate: Rotation, extrude: Extrusion)
    ensures NodeTriangles(Shared(Shared(o, inner), outer), rotate, extrude)
         == NodeTriangles(Shared(o, Mul(outer, inner)), rotate, extrude)
  {
  }

  /** Moving triangles keeps each one's material. */
  lemma SharedKeepsMaterials(o: Object, toWorld: Transform, rotate: Rotation, extrude: Extrusion)
    ensures |NodeTriangles(Shared(o, toWorld), rotate, extrude)| == |NodeTriangles(o, rotate, extrude)|
    ensures forall i :: 0 <= i < |NodeTriangles(o, rotate, extrude)| ==>
      NodeTriangles(Shared(o, toWorld), rotate, extrude)[i].material == NodeTriangles(o, rotate, extrude)[i].material
  {
  }

  /** The nodes standing for the triangles one by one. */
  function TriangleNodes(ts: seq<Triangle>): seq<Object> {
    seq(|ts|, i requires 0 <= i < |ts| => Tri(ts[i]))
  }

  /** A list of triangle nodes flattens back to the triangles. */
  lemma {:induction false} TriangleNodesFlatten(ts: seq<Triangle>, rotate: Rotation, extrude: Extrusion)
    ensures TrianglesFrom(TriangleNodes(ts), rotate, extrude) == ts
  {
    if |ts| > 0 {
      assert TriangleNodes(ts)[1..] == TriangleNodes(ts[1..]);
      TriangleNodesFlatten(ts[1..], rotate, extrude);
      assert ts == [ts[0]] + ts[1..];
    }
  }
}
