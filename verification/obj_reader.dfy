/**
 * Reading Wavefront OBJ text back into one triangle mesh: the text is
 * scanned line by line, each line split into white-space-separated fields;
 * `v` lines add a vertex, `f` lines add a face over the vertices read so
 * far, and the first malformed `v` or `f` line stops the reading with an
 * error.
 */
module ObjReader {
  import opened Wrappers
  import opened Geometry
  import opened ObjText

  /** Why reading failed. */
  datatype ObjError =
    | InvalidCoordinates(coordinates: seq<string>)
    | BadFloat(text: string)
    | InvalidIndices(indices: seq<string>)
    | BadInteger(text: string)
    | InvalidIndex(index: int, numVertices: int)
    | ObjectListEmpty

  /** Reading one decimal float; the text-to-float conversion itself is not modelled. */
  type FloatParser = string -> Option<real>

  /** What has been read so far; faces hold 0-based vertex numbers. */
  datatype Loaded = Loaded(vertices: seq<Vec>, faces: seq<Face>)

  /** A triangle mesh over shared vertices, all faces drawn in one material. */
  datatype Mesh = Mesh(vertices: seq<Vec>, faces: seq<Face>, material: Material)

  /** Whether every face names three of the `n` vertices, 0-based. */
  predicate FacesWithin(faces: seq<Face>, n: int) {
    forall i :: 0 <= i < |faces| ==>
      0 <= faces[i].v0 < n && 0 <= faces[i].v1 < n && 0 <= faces[i].v2 < n
  }

  /** Whether every face of what was read names a vertex that was read. */
  predicate Valid(l: Loaded) {
    FacesWithin(l.faces, |l.vertices|)
  }

  /**
   * The vertex of a `v` line's values: exactly three coordinates, each
   * read as a float, the first unreadable one being reported.
   */
  function ReadVertex(coordinates: seq<string>, parse: FloatParser): (r: Result<Vec, ObjError>)
    ensures r.Success? <==>
      |coordinates| == 3 && forall k :: 0 <= k < 3 ==> parse(coordinates[k]).Some?
    ensures r.Success? ==> r.value == Vec(parse(coordinates[0]).value,
                                          parse(coordinates[1]).value,
                                          parse(coordinates[2]).value)
    ensures |coordinates| != 3 ==> r == Failure(InvalidCoordinates(coordinates))
    ensures r.Failure? && |coordinates| == 3 ==>
      exists k :: 0 <= k < 3 && r.error == BadFloat(coordinates[k]) && parse(coordinates[k]).None?
                  && forall j :: 0 <= j < k ==> parse(coordinates[j]).Some?
  {
    if |coordinates| != 3 then Failure(InvalidCoordinates(coordinates))
    else
      match parse(coordinates[0])
      case None => Failure(BadFloat(coordinates[0]))
      case Some(x) =>
        match parse(coordinates[1])
        case None => Failure(BadFloat(coordinates[1]))
        case Some(y) =>
          match parse(coordinates[2])
          case None => Failure(BadFloat(coordinates[2]))
          case Some(z) => Success(Vec(x, y, z))
  }

  /** Whether `text` is a 1-based vertex number among `numVertices` vertices. */
  predicate IsIndexOf(text: string, numVertices: int) {
    ParseInt(text).Some? && 1 <= ParseInt(text).value <= numVertices
  }

  /** One index of an `f` line: a 64-bit integer from 1 to the number of vertices, made 0-based. */
  function ReadIndex(text: string, numVertices: int): (r: Result<int, ObjError>)
    ensures r.Success? <==> IsIndexOf(text, numVertices)
    ensures r.Success? ==> 0 <= r.value < numVertices && r.value == ParseInt(text).value - 1
    ensures ParseInt(text).None? ==> r == Failure(BadInteger(text))
    ensures ParseInt(text).Some? && r.Failure? ==>
      r == Failure(InvalidIndex(ParseInt(text).value, numVertices))
  {
    match ParseInt(text)
    case None => Failure(BadInteger(text))
    case Some(i) =>
      if i < 1 || numVertices < i then Failure(InvalidIndex(i, numVertices))
      else Success(i - 1)
  }

  /**
   * The face of an `f` line's values: exactly three indices, each checked
   * as soon as it is read, the first bad one being reported.
   */
  function ReadFace(indices: seq<string>, numVertices: int): (r: Result<Face, ObjError>)
    ensures r.Success? <==>
      |indices| == 3 && forall k :: 0 <= k < 3 ==> IsIndexOf(indices[k], numVertices)
    ensures r.Success? ==>
      && r.value.v0 == ParseInt(indices[0]).value - 1
      && r.value.v1 == ParseInt(indices[1]).value - 1
      && r.value.v2 == ParseInt(indices[2]).value - 1
      && FacesWithin([r.value], numVertices)
    ensures |indices| != 3 ==> r == Failure(InvalidIndices(indices))
    ensures r.Failure? && |indices| == 3 ==>
      exists k :: 0 <= k < 3 && !IsIndexOf(indices[k], numVertices)
                  && r.error == ReadIndex(indices[k], numVertices).error
                  && forall j :: 0 <= j < k ==> IsIndexOf(indices[j], numVertices)
  {
    if |indices| != 3 then Failure(InvalidIndices(indices))
    else
      match ReadIndex(indices[0], numVertices)
      case Failure(e) => Failure(e)
      case Success(i1) =>
        match ReadIndex(indices[1], numVertices)
        case Failure(e) => Failure(e)
        case Success(i2) =>
          match ReadIndex(indices[2], numVertices)
          case Failure(e) => Failure(e)
          case Success(i3) => Success(Face(i1, i2, i3))
  }

  /** Whether reading skips `line`: it is blank, a `#` comment, or has an unknown key. */
  predicate Ignored(line: string) {
    var fields := Fields(line);
    |fields| == 0 || (fields[0] != "v" && fields[0] != "f")
  }

  /** Reading one line. */
  function Step(l: Loaded, line: string, parse: FloatParser): (r: Result<Loaded, ObjError>)
    ensures Ignored(line) ==> r == Success(l)
    ensures r.Success? ==> |l.vertices| <= |r.value.vertices| && r.value.vertices[..|l.vertices|] == l.vertices
    ensures r.Success? ==> |l.faces| <= |r.value.faces| && r.value.faces[..|l.faces|] == l.faces
    ensures r.Success? && Valid(l) ==> Valid(r.value)
  {
    var fields := Fields(line);
    if |fields| == 0 then Success(l)
    else
      var key, values := fields[0], fields[1..];
      if key == "#" then Success(l)
      else if key == "v" then
        match ReadVertex(values, parse)
        case Failure(e) => Failure(e)
        case Success(v) => Success(l.(vertices := l.vertices + [v]))
      else if key == "f" then
        match ReadFace(values, |l.vertices|)
        case Failure(e) => Failure(e)
        case Success(f) => Success(l.(faces := l.faces + [f]))
      else Success(l)
  }

  /**
   * Reading lines in order, stopping at the first error. Reading keeps
   * what was read before, and every face read names a vertex read before
   * it.
   */
  function LoadLines(l: Loaded, lines: seq<string>, parse: FloatParser): (r: Result<Loaded, ObjError>)
    ensures r.Success? ==> |l.vertices| <= |r.value.vertices| && r.value.vertices[..|l.vertices|] == l.vertices
    ensures r.Success? ==> |l.faces| <= |r.value.faces| && r.value.faces[..|l.faces|] == l.faces
    ensures r.Success? && Valid(l) ==> Valid(r.value)
    decreases |lines|
  {
    if |lines| == 0 then Success(l)
    else
      match Step(l, lines[0], parse)
      case Failure(e) => Failure(e)
      case Success(l') =>
        var r := LoadLines(l', lines[1..], parse);
        assert r.Success? ==> r.value.vertices[..|l.vertices|] == r.value.vertices[..|l'.vertices|][..|l.vertices|];
        assert r.Success? ==> r.value.faces[..|l.faces|] == r.value.faces[..|l'.faces|][..|l.faces|];
        r
  }

  /** The mesh of what was read; a text without faces is an error. */
  function ToObject(l: Loaded, material: Material): (r: Result<Mesh, ObjError>)
    ensures r.Failure? <==> |l.faces| == 0
    ensures r.Failure? ==> r.error == ObjectListEmpty
    ensures r.Success? ==> r.value.vertices == l.vertices && r.value.faces == l.faces
                           && r.value.material == material
  {
    if |l.faces| == 0 then Failure(ObjectListEmpty)
    else Success(Mesh(l.vertices, l.faces, material))
  }

  /**
   * Reading the lines of a file into one mesh. Every mesh read has a face,
   * and every face names only vertices the text defines; a text of blank,
   * comment and unknown-key lines is refused for having no faces.
   */
  function LoadObj(lines: seq<string>, parse: FloatParser, material: Material): (r: Result<Mesh, ObjError>)
    ensures r.Success? ==> |r.value.faces| > 0 && FacesWithin(r.value.faces, |r.value.vertices|)
    ensures r.Success? ==> r.value.material == material
    ensures (forall i :: 0 <= i < |lines| ==> Ignored(lines[i])) ==> r == Failure(ObjectListEmpty)
  {
    SkipIgnoredAll(Loaded([], []), lines, parse);
    match LoadLines(Loaded([], []), lines, parse)
    case Failure(e) => Failure(e)
    case Success(l) => ToObject(l, material)
  }

  /** The triangles a mesh draws, one per face. */
  function MeshTriangles(m: Mesh): (ts: seq<Triangle>)
    requires FacesWithin(m.faces, |m.vertices|)
    ensures |ts| == |m.faces|
    ensures forall i :: 0 <= i < |ts| ==> ts[i].material == m.material
  {
    seq(|m.faces|, i requires 0 <= i < |m.faces| =>
      Triangle(m.vertices[m.faces[i].v0], m.vertices[m.faces[i].v1], m.vertices[m.faces[i].v2], m.material))
  }

  /** A well-formed `v` line appends its vertex and nothing else. */
  lemma StepVertexLine(l: Loaded, line: string, x: string, y: string, z: string, parse: FloatParser)
    requires Fields(line) == ["v", x, y, z]
    requires parse(x).Some? && parse(y).Some? && parse(z).Some?
    ensures Step(l, line, parse)
         == Success(Loaded(l.vertices + [Vec(parse(x).value, parse(y).value, parse(z).value)], l.faces))
  {
    assert Fields(line)[1..] == [x, y, z];
  }

  /** A well-formed `f` line over vertices already read appends its face, made 0-based. */
  lemma StepFaceLine(l: Loaded, line: string, a: string, b: string, c: string, parse: FloatParser)
    requires Fields(line) == ["f", a, b, c]
    requires IsIndexOf(a, |l.vertices|) && IsIndexOf(b, |l.vertices|) && IsIndexOf(c, |l.vertices|)
    ensures Step(l, line, parse)
         == Success(Loaded(l.vertices, l.faces + [Face(ParseInt(a).value - 1, ParseInt(b).value - 1,
                                                       ParseInt(c).value - 1)]))
  {
    assert Fields(line)[1..] == [a, b, c];
  }

  /** Reading a line that succeeds, then the rest. */
  lemma LoadLinesCons(l: Loaded, line: string, rest: seq<string>, parse: FloatParser)
    requires Step(l, line, parse).Success?
    ensures LoadLines(l, [line] + rest, parse) == LoadLines(Step(l, line, parse).value, rest, parse)
  {
    assert ([line] + rest)[1..] == rest;
  }

  /** Reading two pieces of text in turn is reading them as one. */
  lemma {:induction false} LoadLinesAppend(l: Loaded, a: seq<string>, b: seq<string>, parse: FloatParser)
    ensures LoadLines(l, a + b, parse) ==
      match LoadLines(l, a, parse)
      case Failure(e) => Failure(e)
      case Success(l') => LoadLines(l', b, parse)
    decreases |a|
  {
    if |a| > 0 {
      assert (a + b)[0] == a[0] && (a + b)[1..] == a[1..] + b;
      match Step(l, a[0], parse)
      case Failure(e) =>
      case Success(l') => LoadLinesAppend(l', a[1..], b, parse);
    } else {
      assert a + b == b;
    }
  }

  /** The first error ends the reading: nothing after the failing text is looked at. */
  lemma FirstErrorStops(l: Loaded, a: seq<string>, b: seq<string>, parse: FloatParser)
    requires LoadLines(l, a, parse).Failure?
    ensures LoadLines(l, a + b, parse) == LoadLines(l, a, parse)
  {
    LoadLinesAppend(l, a, b, parse);
  }

  /** A text of skipped lines reads as nothing. */
  lemma SkipIgnoredAll(l: Loaded, skipped: seq<string>, parse: FloatParser)
    ensures (forall i :: 0 <= i < |skipped| ==> Ignored(skipped[i])) ==> LoadLines(l, skipped, parse) == Success(l)
  {
    if forall i :: 0 <= i < |skipped| ==> Ignored(skipped[i]) {
      SkipIgnored(l, skipped, [], parse);
      assert skipped + [] == skipped;
    }
  }

  /** Lines that are skipped change nothing, wherever they stand. */
  lemma {:induction false} SkipIgnored(l: Loaded, skipped: seq<string>, rest: seq<string>, parse: FloatParser)
    requires forall i :: 0 <= i < |skipped| ==> Ignored(skipped[i])
    ensures LoadLines(l, skipped + rest, parse) == LoadLines(l, rest, parse)
  {
    if |skipped| > 0 {
      assert (skipped + rest)[0] == skipped[0] && (skipped + rest)[1..] == skipped[1..] + rest;
      SkipIgnored(l, skipped[1..], rest, parse);
    } else {
      assert skipped + rest == rest;
    }
  }

  /**
   * A face naming a vertex not yet read is rejected, even if that vertex
   * comes later; when the indices before it are good, the error names it.
   */
  lemma ForwardReferenceFails(l: Loaded, line: string, values: seq<string>, parse: FloatParser, k: nat)
    requires Fields(line) == ["f"] + values && |values| == 3
    requires k < 3 && ParseInt(values[k]).Some? && ParseInt(values[k]).value > |l.vertices|
    ensures Step(l, line, parse).Failure?
    ensures (forall j :: 0 <= j < k ==> IsIndexOf(values[j], |l.vertices|)) ==>
      Step(l, line, parse) == Failure(InvalidIndex(ParseInt(values[k]).value, |l.vertices|))
  {
    assert Fields(line)[1..] == values;
  }
}
