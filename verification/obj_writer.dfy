/**
 * Writing a scene as Wavefront OBJ text: every distinct triangle corner
 * becomes one `v` line, numbered from 1 in the order corners are first
 * met, and every triangle becomes one `f` line naming its three corners
 * by those numbers.
 */
module ObjWriter {
  import opened Geometry
  import opened Seqs
  import opened SceneTree
  import opened ObjText

  /** The corners of the triangles, three per triangle, in order. */
  function Corners(ts: seq<Triangle>): (cs: seq<Vec>)
    ensures |cs| == 3 * |ts|
    ensures forall i :: 0 <= i < |ts| ==> ts[i].p0 in cs && ts[i].p1 in cs && ts[i].p2 in cs
  {
    if |ts| == 0 then []
    else
      var init, t := ts[..|ts| - 1], ts[|ts| - 1];
      var cs := Corners(init) + [t.p0, t.p1, t.p2];
      assert forall i :: 0 <= i < |init| ==> init[i] == ts[i];
      cs
  }

  /** The distinct corners, each once, in the order they are first met. */
  function VertexList(ts: seq<Triangle>): (vs: seq<Vec>)
    ensures Distinct(vs)
    ensures forall v :: v in vs <==> v in Corners(ts)
    ensures forall i :: 0 <= i < |ts| ==> ts[i].p0 in vs && ts[i].p1 in vs && ts[i].p2 in vs
  {
    Dedup(Corners(ts))
  }

  /** The 1-based numbers of a triangle's corners in the vertex list `vs`. */
  function FaceOf(vs: seq<Vec>, t: Triangle): Face
    requires t.p0 in vs && t.p1 in vs && t.p2 in vs
  {
    Face(Position(vs, t.p0) + 1, Position(vs, t.p1) + 1, Position(vs, t.p2) + 1)
  }

  /** Whether `f` names, 1-based in `vs`, exactly the corners of `t`. */
  predicate Resolves(vs: seq<Vec>, f: Face, t: Triangle) {
    && 1 <= f.v0 <= |vs| && 1 <= f.v1 <= |vs| && 1 <= f.v2 <= |vs|
    && vs[f.v0 - 1] == t.p0 && vs[f.v1 - 1] == t.p1 && vs[f.v2 - 1] == t.p2
  }

  /** One face per triangle; each face resolves, through the vertex list, to its triangle's corners. */
  function FaceList(ts: seq<Triangle>): (fs: seq<Face>)
    ensures |fs| == |ts|
    ensures forall i :: 0 <= i < |ts| ==> Resolves(VertexList(ts), fs[i], ts[i])
  {
    var vs := VertexList(ts);
    seq(|ts|, i requires 0 <= i < |ts| => FaceOf(vs, ts[i]))
  }

  /** The `v` line of a vertex; `fmt` writes one coordinate. */
  function VertexLine(v: Vec, fmt: real -> string): string {
    Unwords(["v", fmt(v.x), fmt(v.y), fmt(v.z)])
  }

  /** The `f` line of a face. */
  function FaceLine(f: Face): string {
    Unwords(["f", FormatInt(f.v0), FormatInt(f.v1), FormatInt(f.v2)])
  }

  function VertexLines(vs: seq<Vec>, fmt: real -> string): seq<string> {
    seq(|vs|, i requires 0 <= i < |vs| => VertexLine(vs[i], fmt))
  }

  function FaceLines(fs: seq<Face>): seq<string> {
    seq(|fs|, i requires 0 <= i < |fs| => FaceLine(fs[i]))
  }

  /** The lines of the OBJ text: all vertex lines, then one face line per triangle. */
  function ObjLines(ts: seq<Triangle>, fmt: real -> string): seq<string> {
    VertexLines(VertexList(ts), fmt) + FaceLines(FaceList(ts))
  }

  /**
   * The OBJ text of the scene under `o`, each line ended by a newline: an
   * empty text exactly when the scene has no triangles.
   */
  function SaveObj(o: Object, rotate: Rotation, extrude: Extrusion, fmt: real -> string): (s: string)
    ensures |s| == 0 <==> |TrianglesFrom([o], rotate, extrude)| == 0
    ensures |s| > 0 ==> s[|s| - 1] == '\n'
  {
    var ts := TrianglesFrom([o], rotate, extrude);
    assert |ts| == 0 ==> Corners(ts) == [] && VertexList(ts) == [];
    Unlines(ObjLines(ts, fmt))
  }

  /** The map numbering the vertices of `vs` from 1, in order. */
  function MapOf(vs: seq<Vec>): map<Vec, int> {
    if |vs| == 0 then map[] else MapOf(vs[..|vs| - 1])[vs[|vs| - 1] := |vs|]
  }

  /** `m` is the vertex map of `vs`: it numbers each vertex of `vs` and holds nothing else. */
  predicate NumbersVertices(m: map<Vec, int>, vs: seq<Vec>) {
    m == MapOf(vs) && |m| == |vs|
  }

  /** Every vertex of `vs` is in the map, and its number leads back to it. */
  lemma {:induction false} MapOfLookup(vs: seq<Vec>, v: Vec)
    ensures v in MapOf(vs) <==> v in vs
    ensures v in MapOf(vs) ==> 1 <= MapOf(vs)[v] <= |vs| && vs[MapOf(vs)[v] - 1] == v
  {
    if |vs| > 0 {
      var init := vs[..|vs| - 1];
      assert vs == init + [vs[|vs| - 1]];
      MapOfLookup(init, v);
    }
  }

  /**
   * Looks a corner up in the vertex map; a corner not seen before gets the
   * number one past the map's size and is appended to the vertex list.
   */
  method Intern(vertices: seq<Vec>, vertexMap: map<Vec, int>, p: Vec)
    returns (vertices': seq<Vec>, vertexMap': map<Vec, int>, index: int)
    requires NumbersVertices(vertexMap, vertices)
    ensures vertices' == AddNew(vertices, p)
    ensures NumbersVertices(vertexMap', vertices')
    ensures 1 <= index <= |vertices'| && vertices'[index - 1] == p
  {
    MapOfLookup(vertices, p);
    if p in vertexMap {
      index := vertexMap[p];
      vertices', vertexMap' := vertices, vertexMap;
    } else {
      index := |vertexMap| + 1;
      vertexMap' := vertexMap[p := index];
      vertices' := vertices + [p];
      assert vertices'[..|vertices|] == vertices;
    }
  }

  /** Appending a new corner leaves every earlier number in place. */
  lemma AddNewKeeps(vs: seq<Vec>, x: Vec, k: int)
    requires 0 <= k < |vs|
    ensures k < |AddNew(vs, x)| && AddNew(vs, x)[k] == vs[k]
  {
  }

  /** Interns the three corners of a triangle in order and returns its face. */
  method InternTriangle(vertices: seq<Vec>, vertexMap: map<Vec, int>, t: Triangle)
    returns (vertices': seq<Vec>, vertexMap': map<Vec, int>, face: Face)
    requires NumbersVertices(vertexMap, vertices)
    ensures NumbersVertices(vertexMap', vertices')
    ensures vertices' == AddNew(AddNew(AddNew(vertices, t.p0), t.p1), t.p2)
    ensures Resolves(vertices', face, t)
  {
    var v0, v1, v2;
    vertices', vertexMap', v0 := Intern(vertices, vertexMap, t.p0);
    ghost var m1 := vertices';
    vertices', vertexMap', v1 := Intern(vertices', vertexMap', t.p1);
    ghost var m2 := vertices';
    vertices', vertexMap', v2 := Intern(vertices', vertexMap', t.p2);
    AddNewKeeps(m1, t.p1, v0 - 1);
    AddNewKeeps(m2, t.p2, v0 - 1);
    AddNewKeeps(m2, t.p2, v1 - 1);
    face := Face(v0, v1, v2);
  }

  /** The corners of one more triangle extend the deduplicated corner list one by one. */
  lemma DedupTriangleStep(ts: seq<Triangle>, i: nat)
    requires i < |ts|
    ensures Dedup(Corners(ts[..i + 1]))
         == AddNew(AddNew(AddNew(Dedup(Corners(ts[..i])), ts[i].p0), ts[i].p1), ts[i].p2)
  {
    var c, t := Corners(ts[..i]), ts[i];
    assert (ts[..i + 1])[..i] == ts[..i];
    assert Corners(ts[..i + 1]) == ((c + [t.p0]) + [t.p1]) + [t.p2];
    DedupSnoc(c, t.p0);
    DedupSnoc(c + [t.p0], t.p1);
    DedupSnoc(c + [t.p0] + [t.p1], t.p2);
  }

  /** Growing the vertex list at its end does not renumber the corners of a triangle. */
  lemma FaceOfStable(vs: seq<Vec>, extra: seq<Vec>, t: Triangle)
    requires t.p0 in vs && t.p1 in vs && t.p2 in vs
    ensures t.p0 in vs + extra && t.p1 in vs + extra && t.p2 in vs + extra
    ensures FaceOf(vs + extra, t) == FaceOf(vs, t)
  {
    PositionAppend(vs, extra, t.p0);
    PositionAppend(vs, extra, t.p1);
    PositionAppend(vs, extra, t.p2);
  }

  /** In a list without repetitions, a face that resolves to a triangle numbers its first occurrences. */
  lemma ResolvesIsFaceOf(vs: seq<Vec>, f: Face, t: Triangle)
    requires Distinct(vs) && Resolves(vs, f, t)
    ensures t.p0 in vs && t.p1 in vs && t.p2 in vs && f == FaceOf(vs, t)
  {
    PositionUnique(vs, t.p0, f.v0 - 1);
    PositionUnique(vs, t.p1, f.v1 - 1);
    PositionUnique(vs, t.p2, f.v2 - 1);
  }

  /** Interning a triangle's corners only appends to the vertex list. */
  lemma InternedPrefix(vs: seq<Vec>, t: Triangle)
    ensures var ws := AddNew(AddNew(AddNew(vs, t.p0), t.p1), t.p2);
      |vs| <= |ws| && ws[..|vs|] == vs
  {
    var w1 := AddNew(vs, t.p0);
    var w2 := AddNew(w1, t.p1);
    var w3 := AddNew(w2, t.p2);
    assert w3[..|w2|] == w2 && w2[..|w1|] == w1 && w1[..|vs|] == vs;
  }

  /** Faces that resolve in a vertex list still resolve in any extension of it. */
  lemma ResolvesExtend(vs: seq<Vec>, ws: seq<Vec>, fs: seq<Face>, ts: seq<Triangle>, n: nat)
    requires |vs| <= |ws| && ws[..|vs|] == vs
    requires n <= |fs| && n <= |ts|
    requires forall k :: 0 <= k < n ==> Resolves(vs, fs[k], ts[k])
    ensures forall k :: 0 <= k < n ==> Resolves(ws, fs[k], ts[k])
  {
    forall k | 0 <= k < n
      ensures Resolves(ws, fs[k], ts[k])
    {
      assert Resolves(vs, fs[k], ts[k]);
      assert ws[fs[k].v0 - 1] == vs[fs[k].v0 - 1];
      assert ws[fs[k].v1 - 1] == vs[fs[k].v1 - 1];
      assert ws[fs[k].v2 - 1] == vs[fs[k].v2 - 1];
    }
  }

  /** One more resolving face keeps the faces resolving. */
  lemma ResolvesSnoc(vs: seq<Vec>, fs: seq<Face>, f: Face, ts: seq<Triangle>, i: nat)
    requires |fs| == i < |ts|
    requires forall k :: 0 <= k < i ==> Resolves(vs, fs[k], ts[k])
    requires Resolves(vs, f, ts[i])
    ensures forall k :: 0 <= k < i + 1 ==> Resolves(vs, (fs + [f])[k], ts[k])
  {
  }

  /**
   * The numbering loop: each triangle's corners are looked up, or added,
   * in the vertex map, and the triangle's face records their numbers.
   */
  method IndexTriangles(ts: seq<Triangle>) returns (vertices: seq<Vec>, faces: seq<Face>)
    ensures vertices == VertexList(ts)
    ensures faces == FaceList(ts)
  {
    var vertexMap: map<Vec, int> := map[];
    vertices, faces := [], [];
    for i := 0 to |ts|
      invariant vertices == Dedup(Corners(ts[..i]))
      invariant NumbersVertices(vertexMap, vertices)
      invariant |faces| == i
      invariant forall k :: 0 <= k < i ==> Resolves(vertices, faces[k], ts[k])
    {
      DedupTriangleStep(ts, i);
      ghost var before := vertices;
      var face;
      vertices, vertexMap, face := InternTriangle(vertices, vertexMap, ts[i]);
      ResolvesAfterIntern(before, faces, face, ts, i);
      faces := faces + [face];
    }
    assert ts[..|ts|] == ts;
    ResolvingFacesAreFaceList(ts, faces);
  }

  /** The faces so far, and the new triangle's face, still resolve once the triangle's corners are interned. */
  lemma ResolvesAfterIntern(vs: seq<Vec>, fs: seq<Face>, f: Face, ts: seq<Triangle>, i: nat)
    requires |fs| == i < |ts|
    requires forall k :: 0 <= k < i ==> Resolves(vs, fs[k], ts[k])
    requires Resolves(AddNew(AddNew(AddNew(vs, ts[i].p0), ts[i].p1), ts[i].p2), f, ts[i])
    ensures forall k :: 0 <= k < i + 1 ==>
      Resolves(AddNew(AddNew(AddNew(vs, ts[i].p0), ts[i].p1), ts[i].p2), (fs + [f])[k], ts[k])
  {
    var ws := AddNew(AddNew(AddNew(vs, ts[i].p0), ts[i].p1), ts[i].p2);
    InternedPrefix(vs, ts[i]);
    ResolvesExtend(vs, ws, fs, ts, i);
    ResolvesSnoc(ws, fs, f, ts, i);
  }

  /** Faces that resolve, one per triangle, through the vertex list are the face list. */
  lemma ResolvingFacesAreFaceList(ts: seq<Triangle>, faces: seq<Face>)
    requires |faces| == |ts|
    requires forall k :: 0 <= k < |ts| ==> Resolves(VertexList(ts), faces[k], ts[k])
    ensures faces == FaceList(ts)
  {
    var vs := VertexList(ts);
    forall k | 0 <= k < |ts|
      ensures faces[k] == FaceList(ts)[k]
    {
      ResolvesIsFaceOf(vs, faces[k], ts[k]);
    }
  }

  /** Whether `v` is a corner of triangle `i`. */
  predicate IsCornerOf(ts: seq<Triangle>, i: int, v: Vec) {
    0 <= i < |ts| && (v == ts[i].p0 || v == ts[i].p1 || v == ts[i].p2)
  }

  /** Every element of the corner list comes from some triangle. */
  lemma {:induction false} CornerSource(ts: seq<Triangle>, v: Vec) returns (i: nat)
    requires v in Corners(ts)
    ensures IsCornerOf(ts, i, v)
  {
    var init := ts[..|ts| - 1];
    var t := ts[|ts| - 1];
    assert Corners(ts) == Corners(init) + [t.p0, t.p1, t.p2];
    if v in Corners(init) {
      i := CornerSource(init, v);
      assert init[i] == ts[i];
    } else {
      i := |ts| - 1;
    }
  }

  /** In a list without repetitions, equal elements sit at the same position. */
  lemma DistinctIndex(vs: seq<Vec>, a: int, b: int)
    requires Distinct(vs) && 0 <= a < |vs| && 0 <= b < |vs| && vs[a] == vs[b]
    ensures a == b
  {
  }

  /** A face resolving to a triangle numbers every position of a list without repetitions that holds one of its corners. */
  lemma ResolvedCornerNumbered(vs: seq<Vec>, f: Face, t: Triangle, j: nat)
    requires Distinct(vs) && Resolves(vs, f, t)
    requires j < |vs| && (vs[j] == t.p0 || vs[j] == t.p1 || vs[j] == t.p2)
    ensures j + 1 in [f.v0, f.v1, f.v2]
  {
    if vs[j] == t.p0 {
      DistinctIndex(vs, f.v0 - 1, j);
    } else if vs[j] == t.p1 {
      DistinctIndex(vs, f.v1 - 1, j);
    } else {
      DistinctIndex(vs, f.v2 - 1, j);
    }
  }

  /** Every vertex is the corner of some triangle, so the face numbers cover exactly 1 .. n. */
  lemma EveryVertexNumbered(ts: seq<Triangle>, j: nat)
    requires j < |VertexList(ts)|
    ensures exists i :: 0 <= i < |ts| && j + 1 in [FaceList(ts)[i].v0, FaceList(ts)[i].v1, FaceList(ts)[i].v2]
  {
    var vs, fs := VertexList(ts), FaceList(ts);
    assert vs[j] in Corners(ts);
    var i := CornerSource(ts, vs[j]);
    ResolvedCornerNumbered(vs, fs[i], ts[i], j);
  }

  /**
   * The vertex list holds every corner exactly once, nothing else, and in
   * the order the corners are first met.
   */
  lemma VertexListFirstOccurrence(ts: seq<Triangle>)
    ensures Distinct(VertexList(ts))
    ensures forall v :: v in VertexList(ts) <==> v in Corners(ts)
    ensures forall i, j :: 0 <= i < j < |VertexList(ts)| ==>
      Position(Corners(ts), VertexList(ts)[i]) < Position(Corners(ts), VertexList(ts)[j])
  {
    DedupFirstOccurrenceOrder(Corners(ts));
  }
}
