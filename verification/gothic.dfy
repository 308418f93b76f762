/**
 * Gothic window tracery: pointed arches built from two circular arcs, a
 * wall with an arch window cut out of it, the empty tracery outline, the
 * tracery of a main arch with two sub-arches and a rosette, and the
 * rosette of foils in a ring.
 *
 * Everything drawn from circles (the arc samples) and every triangulation
 * the geometry library does is an input, gathered in a `Toolkit`. What is
 * modelled is how the code builds on them: which points go where, in what
 * order, and which pieces are composed.
 */
module Gothic {
  import opened Geometry
  import opened Seqs

  /** An arch: the points of the left arc, then those of the right arc, as drawn from left to right. */
  datatype Arch = Arch(left: seq<Vec>, right: seq<Vec>)

  /** The parameters of a rosette: its ring of width `width` on a circle of `radius` around `center`, and its foils. */
  datatype RosetteParams = RosetteParams(
    material: Material,
    center: Vec,
    radius: real,
    width: real,
    depth: real,
    numPoints: int,
    numFoils: nat)

  /**
   * The geometry library's services:
   * - `arcs(pL, pR, mL, mR, n)`: the upper-left arc about mL and the
   *   upper-right arc about mR, each sampled from its springing point up to
   *   where the two arcs meet (the right one from the meeting point down);
   * - `quad(a, b, c, d, m)`: a quadrilateral split into two triangles;
   * - `join(loops, m)`: the triangles joining closed outlines;
   * - `joinOpen(loops, m)`: the triangles joining open outlines;
   * - `circle(c, r, n)`: the samples of a whole circle;
   * - `foilArcs(p, k)`: the outer and inner arcs of foil k of a rosette.
   */
  datatype Toolkit = Toolkit(
    arcs: (Vec, Vec, Vec, Vec, int) -> (seq<Vec>, seq<Vec>),
    quad: (Vec, Vec, Vec, Vec, Material) -> (Triangle, Triangle),
    join: (seq<seq<Vec>>, Material) -> seq<Triangle>,
    joinOpen: (seq<seq<Vec>>, Material) -> seq<Triangle>,
    circle: (Vec, real, int) -> seq<Vec>,
    foilArcs: (RosetteParams, nat) -> (seq<Vec>, seq<Vec>))

  /**
   * An arch over pL and pR, its arcs centred on mL and mR: the left arc as
   * sampled, the right arc reversed so that it runs from the top down to pR.
   */
  function CreateArch(tk: Toolkit, pL: Vec, pR: Vec, mL: Vec, mR: Vec, numPoints: int): (a: Arch)
    ensures |a.right| == |tk.arcs(pL, pR, mL, mR, numPoints).1|
    ensures Reverse(a.right) == tk.arcs(pL, pR, mL, mR, numPoints).1
    ensures a.left == tk.arcs(pL, pR, mL, mR, numPoints).0
  {
    var (upperLeftArc, upperRightArc) := tk.arcs(pL, pR, mL, mR, numPoints);
    ReverseInvolution(upperRightArc);
    Arch(upperLeftArc, Reverse(upperRightArc))
  }

  /** The arch built with the reversing loop. */
  method BuildArch(tk: Toolkit, pL: Vec, pR: Vec, mL: Vec, mR: Vec, numPoints: int) returns (a: Arch)
    ensures a == CreateArch(tk, pL, pR, mL, mR, numPoints)
  {
    var (upperLeftArc, upperRightArc) := tk.arcs(pL, pR, mL, mR, numPoints);
    var rev := ReverseByIndex(upperRightArc);
    a := Arch(upperLeftArc, rev);
  }

  /** The centre of the arc through the left springing point: `excess` of the span from pL towards pR. */
  function LeftCentre(pL: Vec, pR: Vec, excess: real): Vec {
    Add(pL, Scale(Sub(pR, pL), excess))
  }

  /** The centre of the arc through the right springing point: `excess` of the span from pR towards pL. */
  function RightCentre(pL: Vec, pR: Vec, excess: real): Vec {
    Add(pR, Scale(Sub(pL, pR), excess))
  }

  /** The outline of an arch window: the lower box pR, bpR, bpL, pL, then up the left arc and down the right. */
  function WindowOutline(pR: Vec, bpR: Vec, bpL: Vec, pL: Vec, a: Arch): (outline: seq<Vec>)
    ensures |outline| == 4 + |a.left| + |a.right|
    ensures outline[..4] == [pR, bpR, bpL, pL]
    ensures outline[4..4 + |a.left|] == a.left && outline[4 + |a.left|..] == a.right
  {
    [pR, bpR, bpL, pL] + a.left + a.right
  }

  /** The fan of triangles from `apex` over consecutive points of `points`. */
  function Fan(apex: Vec, points: seq<Vec>, material: Material): (fan: seq<Triangle>)
    requires |points| > 0
    ensures |fan| == |points| - 1
    ensures forall i :: 0 <= i < |fan| ==>
      fan[i] == Triangle(apex, points[i], points[i + 1], material)
  {
    seq(|points| - 1, i requires 0 <= i < |points| - 1 => Triangle(apex, points[i], points[i + 1], material))
  }

  /** The fan-building loop: one triangle per point but the last, in order. */
  method BuildFan(apex: Vec, points: seq<Vec>, material: Material) returns (fan: seq<Triangle>)
    requires |points| > 0
    ensures fan == Fan(apex, points, material)
  {
    fan := [];
    for i := 0 to |points| - 1
      invariant |fan| == i
      invariant forall k :: 0 <= k < i ==> fan[k] == Triangle(apex, points[k], points[k + 1], material)
    {
      fan := fan + [Triangle(apex, points[i], points[i + 1], material)];
    }
  }

  /** Consecutive triangles of a fan share the edge from the apex to their common point: the fan has no gaps. */
  lemma FanIsConnected(apex: Vec, points: seq<Vec>, material: Material)
    requires |points| > 0
    ensures var fan := Fan(apex, points, material);
      forall i :: 0 <= i < |fan| - 1 ==> fan[i].p0 == fan[i + 1].p0 && fan[i].p2 == fan[i + 1].p1
  {
  }

  /** The parameters of a wall with an arch window. */
  datatype WallParams = WallParams(
    material: Material,
    // the wall's corners, counterclockwise from the lower left
    llhc: Vec, lrhc: Vec, urhc: Vec, ulhc: Vec,
    // the arcs' radius over the window's width; at least 0.5
    excess: real,
    xPadding: real,
    bottomPadding: real,
    depth: real,
    // the height of the springing points pL and pR
    pLpRY: real,
    numPoints: int)

  /** The named points of a wall's window, from its parameters. */
  datatype WallPoints = WallPoints(pL: Vec, pR: Vec, bpL: Vec, bpR: Vec, topMidpoint: Vec)

  function WallPointsOf(p: WallParams): WallPoints {
    var leftPadding, rightPadding := p.llhc.x + p.xPadding, p.lrhc.x - p.xPadding;
    WallPoints(
      Vec(leftPadding, p.pLpRY, 0.0), Vec(rightPadding, p.pLpRY, 0.0),
      Vec(leftPadding, p.bottomPadding, 0.0), Vec(rightPadding, p.bottomPadding, 0.0),
      Add(p.ulhc, Scale(Sub(p.urhc, p.ulhc), 0.5)))
  }

  /** The window's arch: its arcs centred `excess` of the span in from each springing point. */
  function WallArch(tk: Toolkit, p: WallParams): Arch {
    var w := WallPointsOf(p);
    CreateArch(tk, w.pL, w.pR, LeftCentre(w.pL, w.pR, p.excess), RightCentre(w.pL, w.pR, p.excess), p.numPoints)
  }

  /** The left fan's points: from the wall's left edge at springing height, up the left arc, to the top midpoint. */
  function LeftFanPoints(p: WallParams, a: Arch): seq<Vec> {
    [Vec(p.llhc.x, p.pLpRY, 0.0)] + a.left + [WallPointsOf(p).topMidpoint]
  }

  /** The right fan's points: from the top midpoint, down the right arc, to the wall's right edge at springing height. */
  function RightFanPoints(p: WallParams, a: Arch): seq<Vec> {
    [WallPointsOf(p).topMidpoint] + a.right + [Vec(p.lrhc.x, p.pLpRY, 0.0)]
  }

  /** The three boxes below and beside the window, two triangles each. */
  function WallBoxes(tk: Toolkit, p: WallParams): (boxes: seq<Triangle>)
    ensures |boxes| == 6
  {
    var w := WallPointsOf(p);
    var minX, maxX := p.llhc.x, p.lrhc.x;
    var (t1, t2) := tk.quad(p.llhc, p.lrhc, Vec(maxX, p.bottomPadding, 0.0), Vec(minX, p.bottomPadding, 0.0), p.material);
    var (t3, t4) := tk.quad(Vec(minX, p.bottomPadding, 0.0), w.bpL, w.pL, Vec(minX, p.pLpRY, 0.0), p.material);
    var (t5, t6) := tk.quad(w.bpR, Vec(maxX, p.bottomPadding, 0.0), Vec(maxX, p.pLpRY, 0.0), w.pR, p.material);
    [t1, t2, t3, t4, t5, t6]
  }

  /**
   * A rectangular wall with an arch window: the front face is the three
   * boxes, then a fan from the upper left corner over the left arc, then a
   * fan from the upper right corner over the right arc; the outer outline
   * is the wall's rectangle, the inner one the window's outline.
   */
  function ArchWindowWall(tk: Toolkit, p: WallParams): (o: Object)
    ensures var a := WallArch(tk, p);
      && o.Solid? && o.depth == Vec(0.0, 0.0, p.depth) && o.face.material == p.material
      && o.face.outer == [[p.llhc, p.lrhc, p.urhc, p.ulhc]]
      && |o.face.front| == 6 + (|a.left| + 1) + (|a.right| + 1)
      && |o.face.inner| == 1 && |o.face.inner[0]| == 4 + |a.left| + |a.right|
  {
    var w := WallPointsOf(p);
    var a := WallArch(tk, p);
    var front := WallBoxes(tk, p)
      + Fan(p.ulhc, LeftFanPoints(p, a), p.material)
      + Fan(p.urhc, RightFanPoints(p, a), p.material);
    var face := ExtrusionFace(front, [[p.llhc, p.lrhc, p.urhc, p.ulhc]], [WindowOutline(w.pR, w.bpR, w.bpL, w.pL, a)], p.material);
    Solid(face, Vec(0.0, 0.0, p.depth))
  }

  /**
   * Two fans after some leading triangles, the first fan's last point
   * being the second's first: the first fan's last triangle and the
   * second's first share that point, and each fan keeps its own apex.
   */
  lemma FansMeet(boxes: seq<Triangle>, apexL: Vec, left: seq<Vec>, apexR: Vec, right: seq<Vec>, material: Material)
    requires |left| > 1 && |right| > 1 && left[|left| - 1] == right[0]
    ensures var front := boxes + Fan(apexL, left, material) + Fan(apexR, right, material);
      var n := |boxes| + |left| - 1;
      && |front| == n + |right| - 1
      && front[n - 1].p2 == right[0] && front[n].p1 == right[0]
      && (forall i :: |boxes| <= i < n ==> front[i].p0 == apexL)
      && (forall i :: n <= i < |front| ==> front[i].p0 == apexR)
  {
    var lf, rf := Fan(apexL, left, material), Fan(apexR, right, material);
    var front := boxes + lf + rf;
    var n := |boxes| + |left| - 1;
    assert front[n - 1] == lf[|left| - 2];
    assert front[n] == rf[0];
    assert forall i :: |boxes| <= i < n ==> front[i] == lf[i - |boxes|];
    assert forall i :: n <= i < |front| ==> front[i] == rf[i - n];
  }

  /**
   * The wall's front face has 6 + (|left| + 1) + (|right| + 1) triangles;
   * the left fan ends and the right fan starts at the top midpoint, so the
   * two fans meet there; the window outline has 4 + |left| + |right| points.
   */
  lemma ArchWindowWallShape(tk: Toolkit, p: WallParams)
    ensures var a := WallArch(tk, p);
      var o := ArchWindowWall(tk, p);
      var front := o.face.front;
      var top := WallPointsOf(p).topMidpoint;
      && o.Solid? && o.depth == Vec(0.0, 0.0, p.depth)
      && |front| == 6 + (|a.left| + 1) + (|a.right| + 1)
      && front[6 + |a.left|].p2 == top && front[7 + |a.left|].p1 == top
      && (forall i :: 6 <= i < 7 + |a.left| ==> front[i].p0 == p.ulhc)
      && (forall i :: 7 + |a.left| <= i < |front| ==> front[i].p0 == p.urhc)
      && o.face.inner == [WindowOutline(WallPointsOf(p).pR, WallPointsOf(p).bpR, WallPointsOf(p).bpL, WallPointsOf(p).pL, a)]
      && |o.face.inner[0]| == 4 + |a.left| + |a.right|
  {
    var a := WallArch(tk, p);
    FansMeet(WallBoxes(tk, p), p.ulhc, LeftFanPoints(p, a), p.urhc, RightFanPoints(p, a), p.material);
  }

  /**
   * A wall with a rounded arch: the arcs' radius is half the span, so the
   * window's arch has both arcs centred on the springing line's midpoint.
   */
  function RoundedArchWindowWall(tk: Toolkit, p: WallParams): (o: Object)
    ensures var w := WallPointsOf(p);
      var mid := Add(w.pL, Scale(Sub(w.pR, w.pL), 0.5));
      o.Solid? && o.face.outer == [[p.llhc, p.lrhc, p.urhc, p.ulhc]]
      && o.face.inner == [WindowOutline(w.pR, w.bpR, w.bpL, w.pL, CreateArch(tk, w.pL, w.pR, mid, mid, p.numPoints))]
  {
    var w := WallPointsOf(p);
    PresetCentres(w.pL, w.pR);
    var q := p.(excess := 0.5);
    assert WallPointsOf(q) == w;
    ArchWindowWallShape(tk, q);
    ArchWindowWall(tk, q)
  }

  /**
   * A wall with an equilateral arch: the arcs' radius is the whole span, so
   * each arc of the window's arch is centred on the opposite springing point.
   */
  function EquilateralArchWindowWall(tk: Toolkit, p: WallParams): (o: Object)
    ensures var w := WallPointsOf(p);
      o.Solid? && o.face.outer == [[p.llhc, p.lrhc, p.urhc, p.ulhc]]
      && o.face.inner == [WindowOutline(w.pR, w.bpR, w.bpL, w.pL, CreateArch(tk, w.pL, w.pR, w.pR, w.pL, p.numPoints))]
  {
    var w := WallPointsOf(p);
    PresetCentres(w.pL, w.pR);
    var q := p.(excess := 1.0);
    assert WallPointsOf(q) == w;
    ArchWindowWallShape(tk, q);
    ArchWindowWall(tk, q)
  }

  /**
   * The presets decide the excess and nothing else: whatever excess the
   * caller gave is ignored, and every other parameter is passed through.
   */
  lemma PresetsIgnoreExcess(tk: Toolkit, p: WallParams, e: real)
    ensures RoundedArchWindowWall(tk, p.(excess := e)) == RoundedArchWindowWall(tk, p)
    ensures EquilateralArchWindowWall(tk, p.(excess := e)) == EquilateralArchWindowWall(tk, p)
    ensures p.excess == 0.5 ==> RoundedArchWindowWall(tk, p) == ArchWindowWall(tk, p)
    ensures p.excess == 1.0 ==> EquilateralArchWindowWall(tk, p) == ArchWindowWall(tk, p)
  {
    assert p.(excess := e).(excess := 0.5) == p.(excess := 0.5);
    assert p.(excess := e).(excess := 1.0) == p.(excess := 1.0);
  }

  /**
   * What the presets mean for the arcs: a rounded arch has both arcs
   * centred on the midpoint of the springing line (one semicircle); an
   * equilateral arch has each arc centred on the opposite springing point.
   */
  lemma PresetCentres(pL: Vec, pR: Vec)
    ensures LeftCentre(pL, pR, 0.5) == RightCentre(pL, pR, 0.5) == Add(pL, Scale(Sub(pR, pL), 0.5))
    ensures LeftCentre(pL, pR, 1.0) == pR && RightCentre(pL, pR, 1.0) == pL
  {
  }

  /** The parameters of an arch window's tracery outline. */
  datatype TraceryParams = TraceryParams(
    material: Material,
    excess: real,
    // the tracery's width, inwards from the window's outline
    offset: real,
    depth: real,
    pL: Vec, pR: Vec,
    bpL: Vec, bpR: Vec,
    numPoints: int)

  /** The outer outline of the tracery: the window's outline. */
  function OuterFrame(tk: Toolkit, p: TraceryParams): seq<Vec> {
    var a := CreateArch(tk, p.pL, p.pR, LeftCentre(p.pL, p.pR, p.excess), RightCentre(p.pL, p.pR, p.excess), p.numPoints);
    WindowOutline(p.pR, p.bpR, p.bpL, p.pL, a)
  }

  /**
   * The inner outline of the tracery: the window's points moved `offset`
   * inwards (and the bottom corners `offset` up), with an arch over the
   * moved springing points that keeps the outer arch's arc centres.
   */
  function InnerFrame(tk: Toolkit, p: TraceryParams): seq<Vec> {
    var mL, mR := LeftCentre(p.pL, p.pR, p.excess), RightCentre(p.pL, p.pR, p.excess);
    var ipL := Vec(p.pL.x + p.offset, p.pL.y, p.pL.z);
    var ipR := Vec(p.pR.x - p.offset, p.pR.y, p.pR.z);
    var ibpL := Vec(p.bpL.x + p.offset, p.bpL.y + p.offset, p.bpL.z);
    var ibpR := Vec(p.bpR.x - p.offset, p.bpR.y + p.offset, p.bpR.z);
    WindowOutline(ipR, ibpR, ibpL, ipL, CreateArch(tk, ipL, ipR, mL, mR, p.numPoints))
  }

  /**
   * The empty tracery: the band between the window's outline and the
   * outline moved inwards, joined into triangles. The outer boundary is
   * the outer outline reversed, the inner boundary the inner outline.
   */
  function EmptyArchWindowTracery(tk: Toolkit, p: TraceryParams): (o: Object)
    ensures o.Solid? && o.depth == Vec(0.0, 0.0, p.depth) && o.face.material == p.material
    ensures |o.face.outer| == 1 && Reverse(o.face.outer[0]) == OuterFrame(tk, p)
    ensures o.face.inner == [InnerFrame(tk, p)]
    ensures o.face.front == tk.join([Reverse(o.face.outer[0]), InnerFrame(tk, p)], p.material)
  {
    var outer, inner := OuterFrame(tk, p), InnerFrame(tk, p);
    ReverseInvolution(outer);
    var face := ExtrusionFace(tk.join([outer, inner], p.material), [Reverse(outer)], [inner], p.material);
    Solid(face, Vec(0.0, 0.0, p.depth))
  }

  /** The tracery outline built with the reversing loop. */
  method BuildEmptyArchWindowTracery(tk: Toolkit, p: TraceryParams) returns (o: Object)
    ensures o == EmptyArchWindowTracery(tk, p)
  {
    var mL, mR := LeftCentre(p.pL, p.pR, p.excess), RightCentre(p.pL, p.pR, p.excess);
    var outerArch := BuildArch(tk, p.pL, p.pR, mL, mR, p.numPoints);
    var outerFrame := [p.pR, p.bpR, p.bpL, p.pL] + outerArch.left + outerArch.right;
    var outerRev := ReverseByIndex(outerFrame);
    var innerFrame := InnerFrame(tk, p);
    var face := ExtrusionFace(tk.join([outerFrame, innerFrame], p.material), [outerRev], [innerFrame], p.material);
    o := Solid(face, Vec(0.0, 0.0, p.depth));
  }

  /**
   * The tracery's outer boundary runs the window's outline backwards: the
   * right arc as sampled (from pR up to the top), the left arc from the
   * top down to pL, then pL, bpL, bpR, pR. Reversed again it is the
   * outline itself.
   */
  lemma {:induction false} OuterBoundaryLayout(tk: Toolkit, p: TraceryParams)
    ensures var sampled := tk.arcs(p.pL, p.pR, LeftCentre(p.pL, p.pR, p.excess), RightCentre(p.pL, p.pR, p.excess), p.numPoints);
      var o := EmptyArchWindowTracery(tk, p);
      && o.face.outer == [sampled.1 + Reverse(sampled.0) + [p.pL, p.bpL, p.bpR, p.pR]]
      && Reverse(o.face.outer[0]) == OuterFrame(tk, p)
      && |o.face.outer[0]| == 4 + |sampled.0| + |sampled.1|
  {
    var mL, mR := LeftCentre(p.pL, p.pR, p.excess), RightCentre(p.pL, p.pR, p.excess);
    var sampled := tk.arcs(p.pL, p.pR, mL, mR, p.numPoints);
    var a := CreateArch(tk, p.pL, p.pR, mL, mR, p.numPoints);
    var box := [p.pR, p.bpR, p.bpL, p.pL];
    var outer := OuterFrame(tk, p);
    assert outer == box + a.left + a.right;
    ReverseAppendThree(box, a.left, a.right);
    assert Reverse(box) == [p.pL, p.bpL, p.bpR, p.pR];
    ReverseInvolution(outer);
  }

  /** The inner outline starts with the window's corner points moved `offset` inwards. */
  lemma InnerFrameCorners(tk: Toolkit, p: TraceryParams)
    ensures var inner := InnerFrame(tk, p);
      && |inner| >= 4
      && inner[3] == Vec(p.pL.x + p.offset, p.pL.y, p.pL.z)
      && inner[0] == Vec(p.pR.x - p.offset, p.pR.y, p.pR.z)
      && inner[2].x == p.bpL.x + p.offset && inner[2].y == p.bpL.y + p.offset
      && inner[1].x == p.bpR.x - p.offset && inner[1].y == p.bpR.y + p.offset
  {
  }

  /** The parameters of a full window tracery. */
  datatype WindowParams = WindowParams(
    material: Material,
    excess: real,
    // the width of the outermost arch's band and of the inner tracery's bands
    outerWidth: real,
    innerWidth: real,
    // how far below the main arch's springing points the sub-arches spring
    verticalOffset: real,
    depth: real,
    pL: Vec, pR: Vec,
    bpL: Vec, bpR: Vec,
    numPoints: int,
    numFoils: nat)

  /** The main arch's outline: the window's own points, `outerWidth` wide. */
  function MainParams(p: WindowParams): TraceryParams {
    TraceryParams(p.material, p.excess, p.outerWidth, p.depth, p.pL, p.pR, p.bpL, p.bpR, p.numPoints)
  }

  /** The middle of the springing line, lowered by the vertical offset. */
  function SplitPoint(p: WindowParams): Vec {
    Add(Add(p.pL, Scale(Sub(p.pR, p.pL), 0.5)), Vec(0.0, -p.verticalOffset, 0.0))
  }

  /** The middle of the window's bottom line. */
  function BottomSplitPoint(p: WindowParams): Vec {
    Add(p.bpL, Scale(Sub(p.bpR, p.bpL), 0.5))
  }

  /** The left sub-arch: from inside the main arch's left band to half an inner width left of the middle. */
  function LeftSubParams(p: WindowParams): TraceryParams {
    var innerOffset := Vec(p.outerWidth - p.innerWidth, 0.0, 0.0);
    var halfWidth := Scale(Vec(p.innerWidth, 0.0, 0.0), 0.5);
    TraceryParams(p.material, p.excess, p.innerWidth, p.depth,
      Add(Add(p.pL, Vec(0.0, -p.verticalOffset, 0.0)), innerOffset),
      Add(SplitPoint(p), halfWidth),
      Add(p.bpL, innerOffset),
      Add(BottomSplitPoint(p), halfWidth),
      p.numPoints)
  }

  /** The right sub-arch: from half an inner width right of the middle to inside the main arch's right band. */
  function RightSubParams(p: WindowParams): TraceryParams {
    var innerOffset := Vec(p.outerWidth - p.innerWidth, 0.0, 0.0);
    var halfWidth := Scale(Vec(p.innerWidth, 0.0, 0.0), 0.5);
    TraceryParams(p.material, p.excess, p.innerWidth, p.depth,
      Sub(SplitPoint(p), halfWidth),
      Sub(Add(p.pR, Vec(0.0, -p.verticalOffset, 0.0)), innerOffset),
      Sub(BottomSplitPoint(p), halfWidth),
      Sub(p.bpR, innerOffset),
      p.numPoints)
  }

  /** The rosette over the sub-arches; its centre and radius are placed by ellipse geometry and are inputs. */
  function RosetteParamsOf(p: WindowParams, center: Vec, radius: real): RosetteParams {
    RosetteParams(p.material, center, radius, p.innerWidth, p.depth, p.numPoints, p.numFoils)
  }

  /** The outlines of the main arch, the left sub-arch and the right sub-arch, in that order. */
  function TraceryParts(p: WindowParams): (parts: seq<TraceryParams>)
    ensures |parts| == 3
  {
    [MainParams(p), LeftSubParams(p), RightSubParams(p)]
  }

  /**
   * A window's tracery: the main arch, the left sub-arch, the right
   * sub-arch and the rosette, composed in that order (the rosette is laid
   * out before the right sub-arch, but the pieces do not depend on each
   * other).
   */
  function ArchWindowTracery(tk: Toolkit, p: WindowParams, center: Vec, radius: real): (o: Object)
    requires CirclesMatch(tk, RosetteParamsOf(p, center, radius))
    ensures o.Complex? && |o.children| == 4
    ensures forall k :: 0 <= k < 3 ==> o.children[k] == EmptyArchWindowTracery(tk, TraceryParts(p)[k])
    ensures o.children[3] == Rosette(tk, RosetteParamsOf(p, center, radius))
  {
    var parts := TraceryParts(p);
    Complex(seq(3, k requires 0 <= k < 3 => EmptyArchWindowTracery(tk, parts[k]))
      + [Rosette(tk, RosetteParamsOf(p, center, radius))])
  }

  /**
   * The sub-arches split the window about its middle: they are mirror
   * images in x about the split point, an inner width apart at the middle,
   * and each sits an inner band's width inside the main arch's band.
   */
  lemma SubArchesSplitWindow(p: WindowParams)
    ensures var l, r, m := LeftSubParams(p), RightSubParams(p), SplitPoint(p);
      && l.pR.x - m.x == m.x - r.pL.x == p.innerWidth / 2.0
      && l.pL.x - p.pL.x == p.pR.x - r.pR.x == p.outerWidth - p.innerWidth
      && l.pL.y == p.pL.y - p.verticalOffset && r.pR.y == p.pR.y - p.verticalOffset
      && l.offset == r.offset == p.innerWidth && MainParams(p).offset == p.outerWidth
  {
  }

  /**
   * What the rosette's reversing loop needs: it stores the inner circle's
   * sample i at index len(outer) - 1 - i of a slice as long as the inner
   * circle, so the circles must be sampled with the same number of points,
   * or the inner one with none.
   */
  predicate CirclesMatch(tk: Toolkit, p: RosetteParams) {
    var ip, op := tk.circle(p.center, p.radius, p.numPoints), tk.circle(p.center, p.radius + p.width, p.numPoints);
    |ip| == 0 || |ip| == |op|
  }

  /** The outline of a foil: its outer arc, then back along its inner arc. */
  function FoilOutline(outerArc: seq<Vec>, innerArc: seq<Vec>): (outline: seq<Vec>)
    ensures |outline| == |outerArc| + |innerArc|
    ensures outline[..|outerArc|] == outerArc
    ensures forall i :: |outerArc| <= i < |outline| ==> outline[i] == innerArc[|outerArc| + |innerArc| - 1 - i]
  {
    outerArc + Reverse(innerArc)
  }

  /** Read backwards, a foil's outline is its inner arc followed by its outer arc backwards: the outline is closed the same way from either end. */
  lemma FoilOutlineReversed(outerArc: seq<Vec>, innerArc: seq<Vec>)
    ensures Reverse(FoilOutline(outerArc, innerArc)) == innerArc + Reverse(outerArc)
  {
    ReverseAppend(outerArc, Reverse(innerArc));
    ReverseInvolution(innerArc);
  }

  /**
   * Foil k: the band between its two arcs, as one outline that is its own
   * boundary; its triangles are those joining the inner arc to the
   * outline, in reverse order.
   */
  function Foil(tk: Toolkit, p: RosetteParams, k: nat): (o: Object)
    ensures var (outerArc, innerArc) := tk.foilArcs(p, k);
      && o.Solid? && o.depth == Vec(0.0, 0.0, p.depth) && o.face.material == p.material
      && o.face.outer == [outerArc + Reverse(innerArc)] && o.face.inner == []
      && Reverse(o.face.front) == tk.joinOpen([innerArc, o.face.outer[0]], p.material)
  {
    var (outerArc, innerArc) := tk.foilArcs(p, k);
    var outline := FoilOutline(outerArc, innerArc);
    ReverseInvolution(tk.joinOpen([innerArc, outline], p.material));
    var face := ExtrusionFace(Reverse(tk.joinOpen([innerArc, outline], p.material)), [outline], [], p.material);
    Solid(face, Vec(0.0, 0.0, p.depth))
  }

  /**
   * The ring: the band between the two circles, its triangles in reverse
   * order. Its outer boundary is the outer circle; its inner boundary is
   * the inner circle read backwards, as long as the outer circle unless
   * the inner circle has no samples.
   */
  function Ring(tk: Toolkit, p: RosetteParams): (o: Object)
    requires CirclesMatch(tk, p)
    ensures var ip, op := tk.circle(p.center, p.radius, p.numPoints), tk.circle(p.center, p.radius + p.width, p.numPoints);
      && o.Solid? && o.depth == Vec(0.0, 0.0, p.depth) && o.face.material == p.material
      && o.face.outer == [op] && |o.face.inner| == 1
      && Reverse(o.face.inner[0]) == ip
      && (ip != [] ==> |o.face.inner[0]| == |op|)
      && Reverse(o.face.front) == tk.join([ip, op], p.material)
  {
    var ip := tk.circle(p.center, p.radius, p.numPoints);
    var op := tk.circle(p.center, p.radius + p.width, p.numPoints);
    ReverseInvolution(ip);
    ReverseInvolution(tk.join([ip, op], p.material));
    var face := ExtrusionFace(Reverse(tk.join([ip, op], p.material)), [op], [Reverse(ip)], p.material);
    Solid(face, Vec(0.0, 0.0, p.depth))
  }

  /** A rosette: its foils in order, then the ring. */
  function Rosette(tk: Toolkit, p: RosetteParams): (o: Object)
    requires CirclesMatch(tk, p)
    ensures o.Complex? && |o.children| == p.numFoils + 1
    ensures o.children[p.numFoils] == Ring(tk, p)
    ensures forall k :: 0 <= k < p.numFoils ==> o.children[k] == Foil(tk, p, k)
  {
    Complex(seq(p.numFoils, k requires 0 <= k < p.numFoils => Foil(tk, p, k)) + [Ring(tk, p)])
  }

  /** The rosette built with the code's loops: the ring's reversals, then one foil per pass. */
  method BuildRosette(tk: Toolkit, p: RosetteParams) returns (o: Object)
    requires CirclesMatch(tk, p)
    ensures o == Rosette(tk, p)
  {
    var ip := tk.circle(p.center, p.radius, p.numPoints);
    var op := tk.circle(p.center, p.radius + p.width, p.numPoints);
    // the code stores ip's element i at index len(op) - 1 - i; whenever ip has
    // an element the two circles are equally long, so that is the index
    // len(ip) - 1 - i at which ReverseByIndex stores it
    assert |ip| == 0 || |op| - 1 == |ip| - 1;
    var ipRev := ReverseByIndex(ip);
    var rface := ReverseByIndex(tk.join([ip, op], p.material));
    var circle := Solid(ExtrusionFace(rface, [op], [ipRev], p.material), Vec(0.0, 0.0, p.depth));
    var foils: seq<Object> := [];
    for n := 0 to p.numFoils
      invariant |foils| == n
      invariant forall k :: 0 <= k < n ==> foils[k] == Foil(tk, p, k)
    {
      var (outerArc, innerArc) := tk.foilArcs(p, n);
      var outline := AppendReversed(outerArc, innerArc);
      var triangles := ReverseByIndex(tk.joinOpen([innerArc, outline], p.material));
      foils := foils + [Solid(ExtrusionFace(triangles, [outline], [], p.material), Vec(0.0, 0.0, p.depth))];
    }
    assert circle == Ring(tk, p);
    RosetteOfParts(tk, p, foils, circle);
    o := Complex(foils + [circle]);
  }

  /** The foils in order, then the ring, make the rosette. */
  lemma RosetteOfParts(tk: Toolkit, p: RosetteParams, foils: seq<Object>, circle: Object)
    requires CirclesMatch(tk, p) && circle == Ring(tk, p)
    requires |foils| == p.numFoils && forall k :: 0 <= k < |foils| ==> foils[k] == Foil(tk, p, k)
    ensures Complex(foils + [circle]) == Rosette(tk, p)
  {
    var r := Rosette(tk, p);
    assert foils + [circle] == r.children;
  }
}
