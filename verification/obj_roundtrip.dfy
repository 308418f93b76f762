/**
 * Writing a scene as OBJ text and reading the text back: the reader finds
 * the writer's vertices, as the float text reads them back, and the
 * writer's faces, made 0-based; with a float text that reads the scene's
 * coordinates back exactly, the mesh draws the scene's triangles in order.
 */
module ObjRoundTrip {
  import opened Wrappers
  import opened Geometry
  import opened Seqs
  import opened SceneTree
  import opened ObjText
  import opened ObjWriter
  import opened ObjReader

  /** The float text is always one word. */
  ghost predicate WritesTokens(fmt: real -> string) {
    forall x: real :: IsToken(fmt(x))
  }

  /** The float text of any number can be read. */
  ghost predicate ReadsBack(fmt: real -> string, parse: FloatParser) {
    forall x: real :: parse(fmt(x)).Some?
  }

  /**
   * The float text of every coordinate of the vertices `vs` reads back as
   * that coordinate. No text can do so for every real, so exactness is
   * asked only of the numbers a scene writes.
   */
  predicate ReadsBackExactlyOn(vs: seq<Vec>, fmt: real -> string, parse: FloatParser) {
    forall v :: v in vs ==>
      parse(fmt(v.x)) == Some(v.x) && parse(fmt(v.y)) == Some(v.y) && parse(fmt(v.z)) == Some(v.z)
  }

  /** A vertex as its written text reads back. */
  function Reread(v: Vec, fmt: real -> string, parse: FloatParser): Vec
    requires parse(fmt(v.x)).Some? && parse(fmt(v.y)).Some? && parse(fmt(v.z)).Some?
  {
    Vec(parse(fmt(v.x)).value, parse(fmt(v.y)).value, parse(fmt(v.z)).value)
  }

  /** Vertices as their written text reads back. */
  ghost function RereadAll(vs: seq<Vec>, fmt: real -> string, parse: FloatParser): (rs: seq<Vec>)
    requires ReadsBack(fmt, parse)
    ensures |rs| == |vs|
  {
    seq(|vs|, i requires 0 <= i < |vs| => Reread(vs[i], fmt, parse))
  }

  /** Faces with their 1-based numbers made 0-based. */
  function Lower(fs: seq<Face>): (gs: seq<Face>)
    ensures |gs| == |fs|
    ensures forall i :: 0 <= i < |fs| ==>
      gs[i].v0 + 1 == fs[i].v0 && gs[i].v1 + 1 == fs[i].v1 && gs[i].v2 + 1 == fs[i].v2
  {
    seq(|fs|, i requires 0 <= i < |fs| => Face(fs[i].v0 - 1, fs[i].v1 - 1, fs[i].v2 - 1))
  }

  /** Whether every number of every face is between 1 and `n`, and `n` fits in 64 bits. */
  predicate NumbersWithin(fs: seq<Face>, n: int) {
    && n <= Int64Max
    && forall i :: 0 <= i < |fs| ==>
         1 <= fs[i].v0 <= n && 1 <= fs[i].v1 <= n && 1 <= fs[i].v2 <= n
  }

  /** The fields of a vertex line. */
  lemma VertexLineFields(v: Vec, fmt: real -> string)
    requires WritesTokens(fmt)
    ensures Fields(VertexLine(v, fmt)) == ["v", fmt(v.x), fmt(v.y), fmt(v.z)]
    ensures IsPlainLine(VertexLine(v, fmt))
  {
    var ws := ["v", fmt(v.x), fmt(v.y), fmt(v.z)];
    assert IsToken(fmt(v.x)) && IsToken(fmt(v.y)) && IsToken(fmt(v.z));
    FieldsUnwords(ws);
    UnwordsPlain(ws);
  }

  /** The fields of a face line whose numbers fit in 64 bits. */
  lemma FaceLineFields(f: Face)
    requires Int64Min <= f.v0 <= Int64Max && Int64Min <= f.v1 <= Int64Max && Int64Min <= f.v2 <= Int64Max
    ensures Fields(FaceLine(f)) == ["f", FormatInt(f.v0), FormatInt(f.v1), FormatInt(f.v2)]
    ensures IsPlainLine(FaceLine(f))
    ensures ParseInt(FormatInt(f.v0)) == Some(f.v0)
    ensures ParseInt(FormatInt(f.v1)) == Some(f.v1)
    ensures ParseInt(FormatInt(f.v2)) == Some(f.v2)
  {
    ParseFormatInt(f.v0);
    ParseFormatInt(f.v1);
    ParseFormatInt(f.v2);
    var ws := ["f", FormatInt(f.v0), FormatInt(f.v1), FormatInt(f.v2)];
    FieldsUnwords(ws);
    UnwordsPlain(ws);
  }

  lemma VertexLinesCons(vs: seq<Vec>, fmt: real -> string)
    requires |vs| > 0
    ensures VertexLines(vs, fmt) == [VertexLine(vs[0], fmt)] + VertexLines(vs[1..], fmt)
  {
  }

  lemma RereadAllCons(vs: seq<Vec>, fmt: real -> string, parse: FloatParser)
    requires |vs| > 0 && ReadsBack(fmt, parse)
    ensures RereadAll(vs, fmt, parse) == [Reread(vs[0], fmt, parse)] + RereadAll(vs[1..], fmt, parse)
  {
  }

  lemma FaceLinesCons(fs: seq<Face>)
    requires |fs| > 0
    ensures FaceLines(fs) == [FaceLine(fs[0])] + FaceLines(fs[1..])
  {
  }

  lemma LowerCons(fs: seq<Face>)
    requires |fs| > 0
    ensures Lower(fs) == [Face(fs[0].v0 - 1, fs[0].v1 - 1, fs[0].v2 - 1)] + Lower(fs[1..])
  {
  }

  /** Bounded face numbers: the first face's, and the rest's. */
  lemma NumbersWithinCons(fs: seq<Face>, n: int)
    requires |fs| > 0 && NumbersWithin(fs, n)
    ensures 1 <= fs[0].v0 <= n && 1 <= fs[0].v1 <= n && 1 <= fs[0].v2 <= n
    ensures n <= Int64Max && NumbersWithin(fs[1..], n)
  {
    assert forall i :: 0 <= i < |fs| - 1 ==> fs[1..][i] == fs[i + 1];
  }

  /** Lowering the first face onto `prefix` and then the rest. */
  lemma LowerAfter(prefix: seq<Face>, fs: seq<Face>)
    requires |fs| > 0
    ensures prefix + Lower(fs) == (prefix + [Face(fs[0].v0 - 1, fs[0].v1 - 1, fs[0].v2 - 1)]) + Lower(fs[1..])
  {
    LowerCons(fs);
    AppendCons(prefix, Face(fs[0].v0 - 1, fs[0].v1 - 1, fs[0].v2 - 1), Lower(fs[1..]));
  }

  /** Reading the vertex lines appends the vertices, as their text reads back, in order. */
  lemma {:induction false} LoadVertexLines(l: Loaded, vs: seq<Vec>, fmt: real -> string, parse: FloatParser)
    requires WritesTokens(fmt) && ReadsBack(fmt, parse)
    ensures LoadLines(l, VertexLines(vs, fmt), parse)
         == Success(Loaded(l.vertices + RereadAll(vs, fmt, parse), l.faces))
    decreases |vs|
  {
    if |vs| == 0 {
      assert VertexLines(vs, fmt) == [];
      assert l.vertices + RereadAll(vs, fmt, parse) == l.vertices;
    } else {
      var v := vs[0];
      VertexLineFields(v, fmt);
      StepVertexLine(l, VertexLine(v, fmt), fmt(v.x), fmt(v.y), fmt(v.z), parse);
      var l' := Loaded(l.vertices + [Reread(v, fmt, parse)], l.faces);
      VertexLinesCons(vs, fmt);
      LoadLinesCons(l, VertexLine(v, fmt), VertexLines(vs[1..], fmt), parse);
      LoadVertexLines(l', vs[1..], fmt, parse);
      RereadAllCons(vs, fmt, parse);
      AppendCons(l.vertices, Reread(v, fmt, parse), RereadAll(vs[1..], fmt, parse));
    }
  }

  /** Reading one written face line over enough vertices. */
  lemma FaceLineStep(l: Loaded, f: Face, parse: FloatParser)
    requires |l.vertices| <= Int64Max
    requires 1 <= f.v0 <= |l.vertices| && 1 <= f.v1 <= |l.vertices| && 1 <= f.v2 <= |l.vertices|
    ensures Step(l, FaceLine(f), parse)
         == Success(Loaded(l.vertices, l.faces + [Face(f.v0 - 1, f.v1 - 1, f.v2 - 1)]))
  {
    FaceLineFields(f);
    StepFaceLine(l, FaceLine(f), FormatInt(f.v0), FormatInt(f.v1), FormatInt(f.v2), parse);
  }

  /** Reading the face lines, over vertices already read, appends the faces made 0-based. */
  lemma {:induction false} LoadFaceLines(l: Loaded, fs: seq<Face>, parse: FloatParser)
    requires NumbersWithin(fs, |l.vertices|)
    ensures LoadLines(l, FaceLines(fs), parse) == Success(Loaded(l.vertices, l.faces + Lower(fs)))
    decreases |fs|
  {
    if |fs| == 0 {
      assert FaceLines(fs) == [];
      assert l.faces + Lower(fs) == l.faces;
    } else {
      var f := fs[0];
      NumbersWithinCons(fs, |l.vertices|);
      FaceLineStep(l, f, parse);
      var g := Face(f.v0 - 1, f.v1 - 1, f.v2 - 1);
      var l' := Loaded(l.vertices, l.faces + [g]);
      FaceLinesCons(fs);
      LoadLinesCons(l, FaceLine(f), FaceLines(fs[1..]), parse);
      LoadFaceLines(l', fs[1..], parse);
      LowerAfter(l.faces, fs);
    }
  }

  /** The face numbers the writer emits are vertex numbers, so they fit in 64 bits when the vertex count does. */
  lemma FaceListNumbers(ts: seq<Triangle>)
    requires |VertexList(ts)| <= Int64Max
    ensures NumbersWithin(FaceList(ts), |VertexList(ts)|)
  {
    var vs, fs := VertexList(ts), FaceList(ts);
    forall i | 0 <= i < |fs|
      ensures 1 <= fs[i].v0 <= |vs| && 1 <= fs[i].v1 <= |vs| && 1 <= fs[i].v2 <= |vs|
    {
      assert Resolves(vs, fs[i], ts[i]);
    }
  }

  /**
   * The shape of an OBJ text of n vertices and faces `fs`: n `v` lines of
   * four fields, then one `f` line per face holding its three numbers;
   * every line plain.
   */
  predicate ObjShape(lines: seq<string>, n: nat, fs: seq<Face>) {
    && |lines| == n + |fs|
    && (forall i :: 0 <= i < |lines| ==> IsPlainLine(lines[i]))
    && (forall i :: 0 <= i < n ==> |Fields(lines[i])| == 4 && Fields(lines[i])[0] == "v")
    && (forall i :: n <= i < |lines| ==>
          Fields(lines[i]) == ["f", FormatInt(fs[i - n].v0), FormatInt(fs[i - n].v1), FormatInt(fs[i - n].v2)])
  }

  /** Vertex lines followed by face lines have the OBJ shape. */
  lemma LinesShape(vs: seq<Vec>, fs: seq<Face>, fmt: real -> string)
    requires WritesTokens(fmt) && NumbersWithin(fs, |vs|)
    ensures ObjShape(VertexLines(vs, fmt) + FaceLines(fs), |vs|, fs)
  {
    var lines := VertexLines(vs, fmt) + FaceLines(fs);
    forall i | 0 <= i < |vs|
      ensures IsPlainLine(lines[i]) && |Fields(lines[i])| == 4 && Fields(lines[i])[0] == "v"
    {
      assert lines[i] == VertexLine(vs[i], fmt);
      VertexLineFields(vs[i], fmt);
    }
    forall i | |vs| <= i < |lines|
      ensures IsPlainLine(lines[i])
      ensures Fields(lines[i]) == ["f", FormatInt(fs[i - |vs|].v0), FormatInt(fs[i - |vs|].v1), FormatInt(fs[i - |vs|].v2)]
    {
      assert lines[i] == FaceLine(fs[i - |vs|]);
      FaceLineFields(fs[i - |vs|]);
    }
  }

  /**
   * The written text has all its `v` lines, one per distinct vertex,
   * before any `f` line, and exactly one `f` line per triangle.
   */
  lemma ObjLinesShape(ts: seq<Triangle>, fmt: real -> string)
    requires WritesTokens(fmt) && |VertexList(ts)| <= Int64Max
    ensures ObjShape(ObjLines(ts, fmt), |VertexList(ts)|, FaceList(ts))
  {
    var vs, fs := VertexList(ts), FaceList(ts);
    FaceListNumbers(ts);
    LinesShape(vs, fs, fmt);
    assert ObjLines(ts, fmt) == VertexLines(vs, fmt) + FaceLines(fs);
  }

  /** The scanner gives back exactly the written lines. */
  lemma SaveObjLines(o: Object, rotate: Rotation, extrude: Extrusion, fmt: real -> string)
    requires WritesTokens(fmt) && |VertexList(TrianglesFrom([o], rotate, extrude))| <= Int64Max
    ensures ScanLines(SaveObj(o, rotate, extrude, fmt)) == ObjLines(TrianglesFrom([o], rotate, extrude), fmt)
  {
    ObjLinesShape(TrianglesFrom([o], rotate, extrude), fmt);
    ScanUnlines(ObjLines(TrianglesFrom([o], rotate, extrude), fmt));
  }

  /** Reading the written lines gives the vertices, as read back, and the faces, made 0-based. */
  lemma LoadObjLines(ts: seq<Triangle>, fmt: real -> string, parse: FloatParser)
    requires WritesTokens(fmt) && ReadsBack(fmt, parse) && |VertexList(ts)| <= Int64Max
    ensures LoadLines(Loaded([], []), ObjLines(ts, fmt), parse)
         == Success(Loaded(RereadAll(VertexList(ts), fmt, parse), Lower(FaceList(ts))))
  {
    var vs, fs := VertexList(ts), FaceList(ts);
    var l0 := Loaded([], []);
    var rs := RereadAll(vs, fmt, parse);
    LoadLinesAppend(l0, VertexLines(vs, fmt), FaceLines(fs), parse);
    LoadVertexLines(l0, vs, fmt, parse);
    assert l0.vertices + rs == rs;
    FaceListNumbers(ts);
    LoadFaceLines(Loaded(rs, []), fs, parse);
    assert [] + Lower(fs) == Lower(fs);
  }

  /**
   * Saving a scene and loading the text: an empty scene gives an error for
   * lack of faces; otherwise the mesh holds the written vertices, as their
   * text reads back, and one face per triangle, 0-based.
   */
  lemma SaveLoadRoundTrip(o: Object, rotate: Rotation, extrude: Extrusion, fmt: real -> string, parse: FloatParser, material: Material)
    requires WritesTokens(fmt) && ReadsBack(fmt, parse)
    requires |VertexList(TrianglesFrom([o], rotate, extrude))| <= Int64Max
    ensures var ts := TrianglesFrom([o], rotate, extrude);
      LoadObj(ScanLines(SaveObj(o, rotate, extrude, fmt)), parse, material)
        == if |ts| == 0 then Failure(ObjectListEmpty)
           else Success(Mesh(RereadAll(VertexList(ts), fmt, parse), Lower(FaceList(ts)), material))
  {
    SaveObjLines(o, rotate, extrude, fmt);
    LoadObjLines(TrianglesFrom([o], rotate, extrude), fmt, parse);
  }

  /** When the vertices' float text reads back exactly, the vertices read are the vertices written. */
  lemma RereadExact(vs: seq<Vec>, fmt: real -> string, parse: FloatParser)
    requires ReadsBack(fmt, parse) && ReadsBackExactlyOn(vs, fmt, parse)
    ensures RereadAll(vs, fmt, parse) == vs
  {
    forall i | 0 <= i < |vs|
      ensures RereadAll(vs, fmt, parse)[i] == vs[i]
    {
      assert vs[i] in vs;
      assert parse(fmt(vs[i].x)) == Some(vs[i].x);
      assert parse(fmt(vs[i].y)) == Some(vs[i].y);
      assert parse(fmt(vs[i].z)) == Some(vs[i].z);
    }
  }

  /** The triangles `ts`, each in `material`. */
  function InMaterial(ts: seq<Triangle>, material: Material): seq<Triangle> {
    seq(|ts|, i requires 0 <= i < |ts| => ts[i].(material := material))
  }

  /** Faces that resolve to the triangles draw those triangles once made 0-based. */
  lemma DrawsTriangles(vs: seq<Vec>, fs: seq<Face>, ts: seq<Triangle>, material: Material)
    requires |fs| == |ts|
    requires forall i :: 0 <= i < |ts| ==> Resolves(vs, fs[i], ts[i])
    ensures FacesWithin(Lower(fs), |vs|)
    ensures MeshTriangles(Mesh(vs, Lower(fs), material)) == InMaterial(ts, material)
  {
    var gs := Lower(fs);
    forall i | 0 <= i < |fs|
      ensures 0 <= gs[i].v0 < |vs| && 0 <= gs[i].v1 < |vs| && 0 <= gs[i].v2 < |vs|
      ensures vs[gs[i].v0] == ts[i].p0 && vs[gs[i].v1] == ts[i].p1 && vs[gs[i].v2] == ts[i].p2
    {
      assert Resolves(vs, fs[i], ts[i]);
    }
  }

  /**
   * With a float text that reads the scene's coordinates back exactly, the
   * loaded mesh draws the scene's triangles, in order, each in the loader's
   * material.
   */
  lemma SaveLoadTriangles(o: Object, rotate: Rotation, extrude: Extrusion, fmt: real -> string, parse: FloatParser, material: Material)
    requires WritesTokens(fmt) && ReadsBack(fmt, parse)
    requires ReadsBackExactlyOn(VertexList(TrianglesFrom([o], rotate, extrude)), fmt, parse)
    requires |VertexList(TrianglesFrom([o], rotate, extrude))| <= Int64Max
    requires |TrianglesFrom([o], rotate, extrude)| > 0
    ensures var r := LoadObj(ScanLines(SaveObj(o, rotate, extrude, fmt)), parse, material);
      && r.Success? && FacesWithin(r.value.faces, |r.value.vertices|)
      && MeshTriangles(r.value) == InMaterial(TrianglesFrom([o], rotate, extrude), material)
  {
    var ts := TrianglesFrom([o], rotate, extrude);
    var vs, fs := VertexList(ts), FaceList(ts);
    RereadExact(vs, fmt, parse);
    SaveLoadRoundTrip(o, rotate, extrude, fmt, parse, material);
    assert LoadObj(ScanLines(SaveObj(o, rotate, extrude, fmt)), parse, material) == Success(Mesh(vs, Lower(fs), material));
    DrawsTriangles(vs, fs, ts, material);
  }
}
