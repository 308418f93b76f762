/**
 * The two texts of the reader's example table: a file holding only a
 * comment, which has no faces and so is an error, and a comment, three
 * indented vertices and one face, which gives one triangle.
 */
module ObjExamples {
  import opened Wrappers
  import opened Geometry
  import opened ObjText
  import opened ObjReader

  /** A line whose first field is `#`. */
  lemma CommentIgnored(rest: string)
    requires |rest| == 0 || IsSpace(rest[0])
    ensures Ignored("#" + rest)
  {
    FieldsCons("#", rest);
  }

  const EmptyFileText: string := "#" + " empty file"

  lemma EmptyFileLines()
    ensures ScanLines(EmptyFileText) == [EmptyFileText]
  {
    assert IsPlainLine(EmptyFileText);
    ScanLinesOne(EmptyFileText);
  }

  /** A comment-only file is read, and then refused for having no faces. */
  lemma CommentOnlyFileIsEmpty(parse: FloatParser, material: Material)
    ensures LoadObj(ScanLines(EmptyFileText), parse, material) == Failure(ObjectListEmpty)
  {
    EmptyFileLines();
    CommentIgnored(" empty file");
    assert LoadLines(Loaded([], []), [EmptyFileText], parse) == Success(Loaded([], []));
  }

  const Tabs: string := "\t\t\t"
  const CommentText: string := "#" + " comment "
  const VertexText1: string := Tabs + Unwords(["v", "1.0", "-0.02", "2.1754370e-002"])
  const VertexText2: string := Tabs + Unwords(["v", "2", "3", "4"])
  const VertexText3: string := Tabs + Unwords(["v", "4", "5", "6.0"])
  const FaceText: string := Tabs + Unwords(["f", "1", "2", "3"])

  /** The example text: four newline-ended lines and a last line without a newline. */
  const ExampleText: string :=
    CommentText + "\n" + VertexText1 + "\n" + VertexText2 + "\n" + VertexText3 + "\n" + FaceText

  /** A float reader that reads the example's coordinates as written. */
  predicate ReadsExampleFloats(parse: FloatParser) {
    && parse("1.0") == Some(1.0) && parse("-0.02") == Some(-0.02) && parse("2.1754370e-002") == Some(0.021754370)
    && parse("2") == Some(2.0) && parse("3") == Some(3.0) && parse("4") == Some(4.0)
    && parse("5") == Some(5.0) && parse("6.0") == Some(6.0)
  }

  /** The fields of words after white space. */
  lemma SpacedFields(pre: string, ws: seq<string>)
    requires forall i :: 0 <= i < |pre| ==> IsSpace(pre[i])
    requires forall i :: 0 <= i < |ws| ==> IsToken(ws[i])
    ensures Fields(pre + Unwords(ws)) == ws
  {
    FieldsSkipSpace(pre, Unwords(ws));
    FieldsUnwords(ws);
  }

  lemma TabsAreSpace()
    ensures forall i :: 0 <= i < |Tabs| ==> IsSpace(Tabs[i])
  {
  }

  /** The fields of an indented line of words. */
  lemma IndentedFields(ws: seq<string>)
    requires forall i :: 0 <= i < |ws| ==> IsToken(ws[i])
    ensures Fields(Tabs + Unwords(ws)) == ws
  {
    TabsAreSpace();
    SpacedFields(Tabs, ws);
  }

  /** Four lines, each followed by a newline, then a fifth. */
  lemma UnlinesFour(a: string, b: string, c: string, d: string, e: string)
    ensures Unlines([a, b, c, d]) + e == a + "\n" + b + "\n" + c + "\n" + d + "\n" + e
  {
    var nl := "\n";
    assert [a, b, c, d][1..] == [b, c, d];
    assert [b, c, d][1..] == [c, d];
    assert [c, d][1..] == [d];
    assert Unlines([d]) == d + nl + "";
    assert d + nl + "" == d + nl;
    assert Unlines([c, d]) == c + nl + Unlines([d]);
    assert Unlines([b, c, d]) == b + nl + Unlines([c, d]);
    assert Unlines([a, b, c, d]) == a + nl + Unlines([b, c, d]);
    assert a + nl + (b + nl + (c + nl + (d + nl))) + e == a + nl + b + nl + c + nl + d + nl + e;
  }

  lemma PlainIndented(ws: seq<string>)
    requires |ws| > 0 && forall i :: 0 <= i < |ws| ==> IsToken(ws[i])
    ensures IsPlainLine(Tabs + Unwords(ws))
  {
    UnwordsPlain(ws);
    PlainAfter(Tabs, Unwords(ws));
  }

  lemma ExampleLines()
    ensures ScanLines(ExampleText) == [CommentText, VertexText1, VertexText2, VertexText3, FaceText]
  {
    assert IsPlainLine(CommentText);
    PlainIndented(["v", "1.0", "-0.02", "2.1754370e-002"]);
    PlainIndented(["v", "2", "3", "4"]);
    PlainIndented(["v", "4", "5", "6.0"]);
    PlainIndented(["f", "1", "2", "3"]);
    UnlinesFour(CommentText, VertexText1, VertexText2, VertexText3, FaceText);
    ScanUnlinesLast([CommentText, VertexText1, VertexText2, VertexText3], FaceText);
  }

  lemma ExampleFields()
    ensures Ignored(CommentText)
    ensures Fields(VertexText1) == ["v", "1.0", "-0.02", "2.1754370e-002"]
    ensures Fields(VertexText2) == ["v", "2", "3", "4"]
    ensures Fields(VertexText3) == ["v", "4", "5", "6.0"]
    ensures Fields(FaceText) == ["f", "1", "2", "3"]
  {
    CommentIgnored(" comment ");
    IndentedFields(["v", "1.0", "-0.02", "2.1754370e-002"]);
    IndentedFields(["v", "2", "3", "4"]);
    IndentedFields(["v", "4", "5", "6.0"]);
    IndentedFields(["f", "1", "2", "3"]);
  }

  /** The face numbers of the example read as written. */
  lemma SmallIndices()
    ensures ParseInt("1") == Some(1) && ParseInt("2") == Some(2) && ParseInt("3") == Some(3)
  {
    ParseFormatInt(1);
    ParseFormatInt(2);
    ParseFormatInt(3);
    assert FormatInt(1) == "1" && FormatInt(2) == "2" && FormatInt(3) == "3";
  }

  const V1: Vec := Vec(1.0, -0.02, 0.021754370)
  const V2: Vec := Vec(2.0, 3.0, 4.0)
  const V3: Vec := Vec(4.0, 5.0, 6.0)

  /** The lines of the example read one by one; the lines are named by their fields only. */
  lemma ExampleLoads(c: string, t1: string, t2: string, t3: string, f: string, parse: FloatParser)
    requires ReadsExampleFloats(parse)
    requires Ignored(c)
    requires Fields(t1) == ["v", "1.0", "-0.02", "2.1754370e-002"]
    requires Fields(t2) == ["v", "2", "3", "4"]
    requires Fields(t3) == ["v", "4", "5", "6.0"]
    requires Fields(f) == ["f", "1", "2", "3"]
    ensures LoadLines(Loaded([], []), [c, t1, t2, t3, f], parse) == Success(Loaded([V1, V2, V3], [Face(0, 1, 2)]))
  {
    SmallIndices();
    var l0 := Loaded([], []);
    var l1 := Loaded(l0.vertices + [V1], []);
    var l2 := Loaded(l1.vertices + [V2], []);
    var l3 := Loaded(l2.vertices + [V3], []);
    var l4 := Loaded(l3.vertices, [] + [Face(0, 1, 2)]);
    StepVertexLine(l0, t1, "1.0", "-0.02", "2.1754370e-002", parse);
    StepVertexLine(l1, t2, "2", "3", "4", parse);
    StepVertexLine(l2, t3, "4", "5", "6.0", parse);
    StepFaceLine(l3, f, "1", "2", "3", parse);
    assert Step(l0, c, parse) == Success(l0);
    assert Step(l0, t1, parse) == Success(l1);
    assert Step(l1, t2, parse) == Success(l2);
    assert Step(l2, t3, parse) == Success(l3);
    assert Step(l3, f, parse) == Success(l4);
    assert LoadLines(l3, [f], parse) == Success(l4);
    assert LoadLines(l2, [t3, f], parse) == LoadLines(l3, [f], parse);
    assert LoadLines(l1, [t2, t3, f], parse) == LoadLines(l2, [t3, f], parse);
    assert LoadLines(l0, [t1, t2, t3, f], parse) == LoadLines(l1, [t2, t3, f], parse);
    assert LoadLines(l0, [c, t1, t2, t3, f], parse) == LoadLines(l0, [t1, t2, t3, f], parse);
    assert l4 == Loaded([V1, V2, V3], [Face(0, 1, 2)]);
  }

  /** Three vertices and a face over them give exactly that one triangle. */
  lemma ExampleFileGivesOneTriangle(parse: FloatParser, material: Material)
    requires ReadsExampleFloats(parse)
    ensures LoadObj(ScanLines(ExampleText), parse, material) == Success(Mesh([V1, V2, V3], [Face(0, 1, 2)], material))
    ensures MeshTriangles(LoadObj(ScanLines(ExampleText), parse, material).value) == [Triangle(V1, V2, V3, material)]
  {
    ExampleLines();
    ExampleFields();
    ExampleLoads(CommentText, VertexText1, VertexText2, VertexText3, FaceText, parse);
    var loaded := Loaded([V1, V2, V3], [Face(0, 1, 2)]);
    assert LoadLines(Loaded([], []), ScanLines(ExampleText), parse) == Success(loaded);
    assert ToObject(loaded, material) == Success(Mesh([V1, V2, V3], [Face(0, 1, 2)], material));
  }
}
