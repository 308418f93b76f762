/**
 * A Zone Mortalis board: sixteen square tiles on a 4 x 4 grid, drawn from
 * eight tile designs, two copies of each. A tile is a 300 x 300 base slab
 * with 6 x 6 squares of 50 x 50 on top; each square holds a corner post,
 * a wall running along x, a wall turned a quarter turn, or a floor panel,
 * as a character grid describes.
 */
module ZoneMortalis {
  import opened Wrappers
  import opened Geometry
  import opened Seqs

  /** The pieces a board is built from. */
  datatype Parameters = Parameters(floor: Object, wall: Object, corner: Object, material: Material)

  /** The number of squares along each side of a tile. */
  const Side: nat := 6

  /** A tile design: 6 rows (z) of 6 characters (x). */
  predicate IsGrid(g: seq<string>) {
    |g| == Side && forall z :: 0 <= z < |g| ==> |g[z]| == Side
  }

  /** The characters a tile design may use: corner, wall along x, turned wall, floor. */
  predicate Recognised(c: char) {
    c == 'x' || c == '-' || c == '|' || c == ' '
  }

  /** Whether every square of the design is one of the recognised characters. */
  predicate AllRecognised(g: seq<string>)
    requires IsGrid(g)
  {
    forall z, x :: 0 <= z < Side && 0 <= x < Side ==> Recognised(g[z][x])
  }

  /** The corner of square (x, z) on the tile: 50 per square along x, rows counted down from z = 250, one up. */
  function CellOrigin(x: int, z: int): Vec {
    Vec((50 * x) as real, 1.0, 250.0 - (50 * z) as real)
  }

  /**
   * `base`, then moved by `pivot`, then turned by `n` quarter turns and
   * moved back: composed as `base * T(pivot) * (R(n) * T(-pivot))`, which
   * turns about the vertical line through `pivot` before placing by `base`.
   */
  function TurnedAbout(base: Transform, pivot: Vec, n: int): Transform {
    Mul(Mul(base, Translate(pivot)), Mul(RotateY(n), Translate(Scale(pivot, -1.0))))
  }

  /**
   * Turning about `pivot` keeps `pivot` where `base` alone puts it,
   * whenever the turn leaves the origin fixed.
   */
  lemma TurnedAboutKeepsPivot(base: Transform, pivot: Vec, n: int, rotate: Rotation)
    requires rotate(n, Zero) == Zero
    ensures Apply(TurnedAbout(base, pivot, n), rotate, pivot) == Apply(base, rotate, pivot)
  {
    var back := Apply(Translate(Scale(pivot, -1.0)), rotate, pivot);
    assert back == Zero;
    assert Apply(Mul(RotateY(n), Translate(Scale(pivot, -1.0))), rotate, pivot) == Zero;
    assert Apply(Translate(pivot), rotate, Zero) == pivot;
  }

  /** What a design character puts in square (x, z), and where; other characters put nothing. */
  function PlaceCell(c: char, x: int, z: int, p: Parameters): (r: Option<Object>)
    ensures r.Some? <==> Recognised(c)
    ensures r.Some? ==> r.value.Shared?
  {
    var o := CellOrigin(x, z);
    if c == 'x' then Some(Shared(p.corner, Translate(o)))
    else if c == '-' then Some(Shared(p.wall, Translate(o)))
    else if c == '|' then Some(Shared(p.wall, TurnedAbout(Translate(o), Vec(25.0, 0.0, 25.0), 1)))
    else if c == ' ' then Some(Shared(p.floor, Translate(Vec(0.5 + (50 * x) as real, 1.0, 0.5 + 250.0 - (50 * z) as real))))
    else None
  }

  /** Every object of `os` is a shared object. */
  predicate AllShared(os: seq<Object>) {
    forall i :: 0 <= i < |os| ==> os[i].Shared?
  }

  /** The piece a square places, if any, as a list of at most one. */
  function Placed(placed: Option<Object>): (os: seq<Object>)
    ensures |os| <= 1
  {
    match placed
    case None => []
    case Some(o) => [o]
  }

  /** The placed squares of the first `k` squares in row-major order (z outer, x inner). */
  function SquaresUpTo(g: seq<string>, p: Parameters, k: nat): seq<Object>
    requires IsGrid(g) && k <= Side * Side
  {
    if k == 0 then []
    else
      var z, x := (k - 1) / Side, (k - 1) % Side;
      var rest := SquaresUpTo(g, p, k - 1);
      match PlaceCell(g[z][x], x, z, p)
      case None => rest
      case Some(o) => rest + [o]
  }

  /** The first `k` squares place at most one piece each, every one a shared object. */
  lemma {:induction false} SquaresShared(g: seq<string>, p: Parameters, k: nat)
    requires IsGrid(g) && k <= Side * Side
    ensures |SquaresUpTo(g, p, k)| <= k && AllShared(SquaresUpTo(g, p, k))
  {
    if k > 0 {
      SquaresShared(g, p, k - 1);
    }
  }

  /** The extruded base slab: a 300 x 300 square face, two triangles, pushed one unit up. */
  function BaseTile(material: Material): Object {
    var t := [Vec(0.0, 0.0, 300.0), Vec(300.0, 0.0, 300.0), Vec(300.0, 0.0, 0.0), Vec(0.0, 0.0, 0.0)];
    var front := [Triangle(t[0], t[1], t[2], material), Triangle(t[0], t[2], t[3], material)];
    Solid(ExtrusionFace(front, [t], [], material), Vec(0.0, 1.0, 0.0))
  }

  /**
   * A tile: its squares, then the base slab last. Whatever the design, a
   * tile holds at most one piece per square, each a shared object, before
   * the slab.
   */
  function NewTile(g: seq<string>, p: Parameters): (o: Object)
    requires IsGrid(g)
    ensures o.Complex? && 1 <= |o.children| <= Side * Side + 1
    ensures o.children[|o.children| - 1] == BaseTile(p.material)
    ensures AllShared(o.children[..|o.children| - 1])
  {
    var squares := SquaresUpTo(g, p, Side * Side);
    SquaresShared(g, p, Side * Side);
    assert (squares + [BaseTile(p.material)])[..|squares|] == squares;
    Complex(squares + [BaseTile(p.material)])
  }

  /** Square (x, z) is square number 6z + x in row-major order. */
  lemma RowMajorIndex(z: nat, x: nat)
    requires x < Side
    ensures (Side * z + x) / Side == z && (Side * z + x) % Side == x
  {
  }

  /** The tile-building loops: rows outer, squares in a row inner. */
  method BuildTile(g: seq<string>, p: Parameters) returns (tile: Object)
    requires IsGrid(g)
    ensures tile == NewTile(g, p)
  {
    var squares: seq<Object> := [];
    for z := 0 to Side
      invariant squares == SquaresUpTo(g, p, Side * z)
    {
      squares := BuildRow(g, p, z, squares);
    }
    tile := Complex(squares + [BaseTile(p.material)]);
  }

  /** The inner loop: the squares of row z, after those of the rows above. */
  method BuildRow(g: seq<string>, p: Parameters, z: nat, above: seq<Object>) returns (squares: seq<Object>)
    requires IsGrid(g) && z < Side && above == SquaresUpTo(g, p, Side * z)
    ensures squares == SquaresUpTo(g, p, Side * (z + 1))
  {
    RowBounds(z);
    squares := above;
    for x := 0 to Side
      invariant squares == SquaresUpTo(g, p, Side * z + x)
    {
      SquaresNext(g, p, z, x);
      squares := squares + Placed(PlaceCell(g[z][x], x, z, p));
    }
  }

  /** Row z's squares end where row z + 1's begin, inside the tile. */
  lemma RowBounds(z: nat)
    requires z < Side
    ensures Side * (z + 1) == Side * z + Side <= Side * Side
  {
  }

  /** Square (x, z) adds its piece, if any, after the squares before it. */
  lemma SquaresNext(g: seq<string>, p: Parameters, z: nat, x: nat)
    requires IsGrid(g) && z < Side && x < Side
    ensures SquaresUpTo(g, p, Side * z + x + 1) == SquaresUpTo(g, p, Side * z + x) + Placed(PlaceCell(g[z][x], x, z, p))
  {
    RowMajorIndex(z, x);
  }

  /** In a design of recognised characters every square is placed, and square (x, z) is child 6z + x. */
  lemma {:induction false} SquaresRowMajor(g: seq<string>, p: Parameters, k: nat)
    requires IsGrid(g) && AllRecognised(g) && k <= Side * Side
    ensures |SquaresUpTo(g, p, k)| == k
    ensures forall i :: 0 <= i < k ==>
      SquaresUpTo(g, p, k)[i] == PlaceCell(g[i / Side][i % Side], i % Side, i / Side, p).value
  {
    if k > 0 {
      SquaresRowMajor(g, p, k - 1);
      var z, x := (k - 1) / Side, (k - 1) % Side;
      assert Recognised(g[z][x]);
    }
  }

  /**
   * A tile of a fully recognised design has 36 placed squares in row-major
   * order, then the base slab: 37 children.
   */
  lemma TileShape(g: seq<string>, p: Parameters)
    requires IsGrid(g) && AllRecognised(g)
    ensures NewTile(g, p).Complex?
    ensures |NewTile(g, p).children| == Side * Side + 1
    ensures NewTile(g, p).children[Side * Side] == BaseTile(p.material)
    ensures forall z, x :: 0 <= z < Side && 0 <= x < Side ==>
      NewTile(g, p).children[Side * z + x] == PlaceCell(g[z][x], x, z, p).value
  {
    SquaresRowMajor(g, p, Side * Side);
    forall z, x | 0 <= z < Side && 0 <= x < Side
      ensures NewTile(g, p).children[Side * z + x] == PlaceCell(g[z][x], x, z, p).value
    {
      assert (Side * z + x) / Side == z && (Side * z + x) % Side == x;
    }
  }

  /** A square's kind decides its piece: corner posts, walls and floor panels. */
  lemma PlaceCellPieces(c: char, x: int, z: int, p: Parameters)
    requires Recognised(c)
    ensures PlaceCell(c, x, z, p).value.shared
         == if c == 'x' then p.corner else if c == ' ' then p.floor else p.wall
  {
  }

  /**
   * Corner posts and walls along x are moved so that their local origin
   * lands on the square's corner; floor panels land half a unit further
   * in along x and z.
   */
  lemma PlaceCellOrigins(c: char, x: int, z: int, p: Parameters, rotate: Rotation)
    requires c == 'x' || c == '-' || c == ' '
    ensures var t := PlaceCell(c, x, z, p).value.toWorld;
      Apply(t, rotate, Zero) == if c == ' ' then Add(CellOrigin(x, z), Vec(0.5, 0.0, 0.5)) else CellOrigin(x, z)
  {
  }

  /**
   * A turned wall is turned about the centre of its square: if turning
   * leaves the origin fixed, the square's centre (25, 0, 25) lands where an
   * unturned wall's centre would.
   */
  lemma TurnedWallKeepsCentre(x: int, z: int, p: Parameters, rotate: Rotation)
    requires rotate(1, Zero) == Zero
    ensures var centre := Vec(25.0, 0.0, 25.0);
      Apply(PlaceCell('|', x, z, p).value.toWorld, rotate, centre)
        == Apply(PlaceCell('-', x, z, p).value.toWorld, rotate, centre)
  {
    var o := CellOrigin(x, z);
    TurnedAboutKeepsPivot(Translate(o), Vec(25.0, 0.0, 25.0), 1, rotate);
  }

  // The eight tile designs.
  const Alpha: seq<string> := ["      ", " x--x-", " |    ", " |    ", " x    ", " |    "]
  const Beta: seq<string> := ["    | ", " x--x ", " |    ", " |    ", " x--x ", "    | "]
  const Gamma: seq<string> := [" |  | ", " x  x-", " |    ", " |    ", " x  x-", " |  | "]
  const Delta: seq<string> := [" |  | ", "-x  x-", "      ", "      ", "-x  x-", " |  | "]
  const Epsilon: seq<string> := [" |    ", " x    ", " |    ", " |    ", " x  x-", "      "]
  const Zeta: seq<string> := ["      ", "    x ", "    | ", "    | ", "    x ", "    | "]
  const Eta: seq<string> := ["      ", " x    ", " |    ", " |    ", " x--x ", " |    "]
  const Theta: seq<string> := ["      ", "      ", "      ", "      ", "      ", "      "]

  /** The designs in board order. */
  const Designs: seq<seq<string>> := [Alpha, Beta, Gamma, Delta, Epsilon, Zeta, Eta, Theta]

  /** A row of a design uses only recognised characters. */
  predicate RowRecognised(row: string) {
    forall x :: 0 <= x < |row| ==> Recognised(row[x])
  }

  /** A design whose rows are all six recognised characters long. */
  lemma GridFromRows(g: seq<string>)
    requires |g| == Side
    requires forall z :: 0 <= z < Side ==> |g[z]| == Side && RowRecognised(g[z])
    ensures IsGrid(g) && AllRecognised(g)
  {
  }

  /** Every one of the eight designs is a 6 x 6 grid of recognised characters. */
  lemma DesignsRecognised()
    ensures |Designs| == 8
    ensures forall k :: 0 <= k < |Designs| ==> IsGrid(Designs[k]) && AllRecognised(Designs[k])
  {
    assert RowRecognised("      ") && RowRecognised(" x--x-") && RowRecognised(" |    ");
    assert RowRecognised(" x    ") && RowRecognised("    | ") && RowRecognised(" x--x ");
    assert RowRecognised(" |  | ") && RowRecognised(" x  x-") && RowRecognised("-x  x-");
    assert RowRecognised("    x ");
    forall k | 0 <= k < |Designs|
      ensures IsGrid(Designs[k]) && AllRecognised(Designs[k])
    {
      GridFromRows(Designs[k]);
    }
  }

  /** So every tile of the board has 36 squares and its base: 37 children. */
  lemma EveryTileHas37Children(k: nat, p: Parameters)
    requires k < 8
    ensures |NewTile(DesignGrid(k), p).children| == 37
  {
    DesignsRecognised();
    TileShape(DesignGrid(k), p);
  }

  /** The shuffled board: place i takes what the unshuffled board had at perm[i]. */
  method ShuffleBoard(board: seq<nat>, perm: seq<int>) returns (tiles: seq<nat>)
    requires IsPermutation(perm, |board|)
    ensures tiles == Permute(board, perm)
    ensures multiset(tiles) == multiset(board)
  {
    var a := new nat[|perm|];
    for i := 0 to |perm|
      invariant forall j :: 0 <= j < i ==> a[j] == board[perm[j]]
    {
      a[i] := board[perm[i]];
    }
    tiles := a[..];
    PermutePreservesMultiset(board, perm);
  }

  /** Two copies of each of designs 0 .. n - 1, in order. */
  function Pairs(n: nat): (board: seq<nat>)
    ensures |board| == 2 * n
    ensures forall i :: 0 <= i < |board| ==> board[i] < n
  {
    if n == 0 then [] else Pairs(n - 1) + [n - 1, n - 1]
  }

  /** Places 2k and 2k + 1 hold design k. */
  lemma {:induction false} PairsIndex(n: nat, k: nat)
    requires k < n
    ensures Pairs(n)[2 * k] == k && Pairs(n)[2 * k + 1] == k
  {
    if k < n - 1 {
      PairsIndex(n - 1, k);
      assert Pairs(n) == Pairs(n - 1) + [n - 1, n - 1];
    }
  }

  /** Two copies of each of 0 .. n - 1, as a multiset. */
  function Doubles(n: nat): multiset<nat> {
    if n == 0 then multiset{} else Doubles(n - 1) + multiset{n - 1, n - 1}
  }

  /** `Doubles(n)` counts each of 0 .. n - 1 twice and nothing else. */
  lemma {:induction false} DoublesCount(n: nat, k: int)
    ensures Doubles(n)[k] == if 0 <= k < n then 2 else 0
  {
    if n > 0 {
      DoublesCount(n - 1, k);
    }
  }

  /** The board's designs, taken as a multiset, are two copies of each. */
  lemma {:induction false} PairsDoubles(n: nat)
    ensures multiset(Pairs(n)) == Doubles(n)
  {
    if n == 0 {
      assert Pairs(n) == [];
    } else {
      var d: nat := n - 1;
      PairsDoubles(d);
      assert Pairs(n) == Pairs(d) + [d, d];
      assert Doubles(n) == Doubles(d) + multiset{d, d};
      MultisetSnocTwoOf(Pairs(d), d, Doubles(d));
    }
  }

  /** Each of designs 0 .. n - 1 stands in `Pairs(n)` exactly twice, and nothing else does. */
  lemma PairsCount(n: nat, k: int)
    ensures multiset(Pairs(n))[k] == if 0 <= k < n then 2 else 0
  {
    PairsDoubles(n);
    DoublesCount(n, k);
  }

  /** The unshuffled board: two copies of each of the eight designs, in order. */
  const Board: seq<nat> := Pairs(8)

  /** Each design stands on the unshuffled board exactly twice. */
  lemma BoardHoldsEachTwice()
    ensures |Board| == 16
    ensures forall k :: 0 <= k < 8 ==> multiset(Board)[k] == 2
    ensures forall i :: 0 <= i < |Board| ==> Board[i] < 8
  {
    forall k | 0 <= k < 8
      ensures multiset(Board)[k] == 2
    {
      PairsCount(8, k);
    }
  }

  /** After any shuffle, each design is still on the board exactly twice. */
  lemma ShuffledBoardHoldsEachTwice(perm: seq<int>)
    requires IsPermutation(perm, 16)
    ensures forall k :: 0 <= k < 8 ==> multiset(Permute(Board, perm))[k] == 2
  {
    BoardHoldsEachTwice();
    PermutePreservesMultiset(Board, perm);
  }

  /** Where place i of the 4 x 4 board goes, optionally turned by n quarter turns about the tile's centre. */
  function SlotTransform(i: nat, n: int): Transform {
    var offset := Translate(Vec((300 * (i % 4)) as real, 0.0, (300 * (i / 4)) as real));
    if n == 0 then offset else TurnedAbout(offset, Vec(150.0, 0.0, 150.0), n)
  }

  /** The board: place i holds the tile of design `tiles[i]`, moved into place. */
  function Slots(designs: seq<Object>, tiles: seq<nat>, turns: seq<int>): (slots: seq<Object>)
    requires |tiles| == |turns| && forall i :: 0 <= i < |tiles| ==> tiles[i] < |designs|
    ensures |slots| == |tiles|
    ensures forall i :: 0 <= i < |slots| ==> slots[i].Shared? && slots[i].shared == designs[tiles[i]]
  {
    seq(|tiles|, i requires 0 <= i < |tiles| => Shared(designs[tiles[i]], SlotTransform(i, turns[i])))
  }

  /** The placing loops: rows z outer, places x in a row inner, counting places with i. */
  method PlaceSlots(designs: seq<Object>, tiles: seq<nat>, turns: seq<int>) returns (slots: seq<Object>)
    requires |tiles| == 16 && |turns| == 16
    requires forall i :: 0 <= i < |tiles| ==> tiles[i] < |designs|
    ensures slots == Slots(designs, tiles, turns)
  {
    slots := [];
    var i := 0;
    for z := 0 to 4
      invariant i == 4 * z && |slots| == i
      invariant forall j :: 0 <= j < i ==> slots[j] == Shared(designs[tiles[j]], SlotTransform(j, turns[j]))
    {
      for x := 0 to 4
        invariant i == 4 * z + x && |slots| == i
        invariant forall j :: 0 <= j < i ==> slots[j] == Shared(designs[tiles[j]], SlotTransform(j, turns[j]))
      {
        var transform := Translate(Vec((x * 300) as real, 0.0, (z * 300) as real));
        if turns[i] != 0 {
          transform := TurnedAbout(transform, Vec(150.0, 0.0, 150.0), turns[i]);
        }
        assert i % 4 == x && i / 4 == z;
        slots := slots + [Shared(designs[tiles[i]], transform)];
        i := i + 1;
      }
    }
  }

  /**
   * The whole board: the eight tiles, shuffled by `perm`, each place turned
   * by `turns[i]` quarter turns. The shuffle and the turns are inputs; the
   * program draws them at random.
   */
  function NewZoneMortalis(p: Parameters, perm: seq<int>, turns: seq<int>): (o: Object)
    requires IsPermutation(perm, 16) && |turns| == 16
    ensures o.Complex? && |o.children| == 16
    ensures forall i :: 0 <= i < 16 ==>
      && o.children[i].Shared? && o.children[i].toWorld == SlotTransform(i, turns[i])
      && o.children[i].shared.Complex? && |o.children[i].shared.children| == 37
  {
    var designs := seq(8, k requires 0 <= k < 8 => NewTile(DesignGrid(k), p));
    assert forall k :: 0 <= k < 8 ==> |designs[k].children| == 37 by {
      forall k | 0 <= k < 8
        ensures |designs[k].children| == 37
      {
        EveryTileHas37Children(k, p);
      }
    }
    Complex(Slots(designs, Permute(Board, perm), turns))
  }

  /** Design k, known to be a grid. */
  function DesignGrid(k: nat): (g: seq<string>)
    requires k < 8
    ensures IsGrid(g) && AllRecognised(g)
  {
    DesignsRecognised();
    Designs[k]
  }

  /**
   * The board has sixteen places; place i holds a tile built from the
   * design the shuffle put there, and each design fills exactly two places.
   */
  lemma BoardLayout(p: Parameters, perm: seq<int>, turns: seq<int>)
    requires IsPermutation(perm, 16) && |turns| == 16
    ensures var b := NewZoneMortalis(p, perm, turns);
      && |b.children| == 16
      && (forall i :: 0 <= i < 16 ==>
            b.children[i] == Shared(NewTile(DesignGrid(Board[perm[i]]), p), SlotTransform(i, turns[i])))
      && (forall k :: 0 <= k < 8 ==> multiset(Permute(Board, perm))[k] == 2)
  {
    BoardHoldsEachTwice();
    ShuffledBoardHoldsEachTwice(perm);
  }

  /**
   * An unturned place moves its tile by (300 (i mod 4), 0, 300 (i div 4));
   * a turned one keeps the tile's centre (150, 0, 150) on that place's
   * centre whenever turning leaves the origin fixed.
   */
  lemma SlotPlacement(i: nat, n: int, rotate: Rotation, q: Vec)
    requires rotate(n, Zero) == Zero
    ensures var offset := Vec((300 * (i % 4)) as real, 0.0, (300 * (i / 4)) as real);
      && (n == 0 ==> Apply(SlotTransform(i, n), rotate, q) == Add(q, offset))
      && Apply(SlotTransform(i, n), rotate, Vec(150.0, 0.0, 150.0)) == Add(Vec(150.0, 0.0, 150.0), offset)
  {
    var offset := Translate(Vec((300 * (i % 4)) as real, 0.0, (300 * (i / 4)) as real));
    if n != 0 {
      TurnedAboutKeepsPivot(offset, Vec(150.0, 0.0, 150.0), n, rotate);
    }
  }
}
