/** Geometry of the snake game: the fixed 48 x 27 grid of cells, the five
    headings with their integer encoding and unit moves, and the
    wrap-around that brings a head that stepped off one edge back in at
    the opposite edge. */
module Grid {
  /** Number of cells along x. */
  const ROWS: int := 48
  /** Number of cells along y. */
  const COLS: int := 27

  function Abs(n: int): nat
  {
    if n < 0 then -n else n
  }

  /** A grid cell. Coordinates are unbounded integers: the game keeps them
      in [0, ROWS) x [0, COLS) except between a move and its wrap-around. */
  datatype Position = Position(x: int, y: int) {
    /** Coordinate-wise comparison, the equality operator of the program. */
    function Equals(other: Position): (r: bool)
      ensures r <==> this == other
    {
      x == other.x && y == other.y
    }

    /** Translates this cell by an offset, as applyTransform does in place. */
    function Apply(offset: Position): (r: Position)
      ensures r.x - x == offset.x && r.y - y == offset.y
    {
      Position(x + offset.x, y + offset.y)
    }
  }

  predicate InBounds(p: Position)
  {
    0 <= p.x < ROWS && 0 <= p.y < COLS
  }

  /** The cells one unit move can reach from inside the grid: at most one
      coordinate is out of range, and that one by a single cell. */
  predicate NearGrid(p: Position)
  {
    -1 <= p.x <= ROWS && -1 <= p.y <= COLS && (0 <= p.x < ROWS || 0 <= p.y < COLS)
  }

  datatype Direction = Up | Down | Left | Right | None

  /** The enumeration's integer values: Up = 1, Down = -1, Left = 2,
      Right = -2, None = 0. */
  function Code(d: Direction): (r: int)
    ensures r == 0 <==> d == None
    ensures -2 <= r <= 2
  {
    match d
    case Up => 1
    case Down => -1
    case Left => 2
    case Right => -2
    case None => 0
  }

  /** The reverse heading; None has no reverse and maps to itself. This is
      the reference the integer trick of the key handler is checked against. */
  function Opposite(d: Direction): (r: Direction)
    ensures r == None <==> d == None
    ensures d != None ==> r != d
  {
    match d
    case Up => Down
    case Down => Up
    case Left => Right
    case Right => Left
    case None => None
  }

  /** The displacement of the head for one tick in each heading. */
  function Unit(d: Direction): (r: Position)
    ensures d == None <==> r == Position(0, 0)
    ensures d != None ==> Abs(r.x) + Abs(r.y) == 1
  {
    match d
    case Up => Position(0, -1)
    case Left => Position(-1, 0)
    case Down => Position(0, 1)
    case Right => Position(1, 0)
    case None => Position(0, 0)
  }

  /** The sum of two codes is zero exactly when the second heading is the
      reverse of the first (for a real heading; None never sums to zero
      with one). */
  lemma CodeSumZeroIffOpposite(a: Direction, b: Direction)
    requires b != None
    ensures Code(a) + Code(b) == 0 <==> b == Opposite(a)
  {
  }

  /** A move followed by a move in the reverse heading returns to the start
      cell: why reversing puts the head on the segment behind it. */
  lemma OppositeUndoesMove(p: Position, d: Direction)
    ensures p.Apply(Unit(d)).Apply(Unit(Opposite(d))) == p
  {
  }

  /** The bound check of a tick: an if/else-if chain that corrects at most
      one coordinate, sending a coordinate below the range to the last cell
      and one above it to the first. */
  function Wrap(p: Position): (r: Position)
    ensures InBounds(p) ==> r == p
    ensures NearGrid(p) ==> InBounds(r)
    ensures r.x == p.x || r.y == p.y
  {
    if p.x < 0 then p.(x := ROWS - 1)
    else if p.y < 0 then p.(y := COLS - 1)
    else if p.y >= COLS then p.(y := 0)
    else if p.x >= ROWS then p.(x := 0)
    else p
  }

  /** A unit move from a cell of the grid lands where Wrap can correct it. */
  lemma UnitMoveStaysNear(p: Position, d: Direction)
    requires InBounds(p)
    ensures NearGrid(p.Apply(Unit(d)))
    ensures InBounds(Wrap(p.Apply(Unit(d))))
  {
  }

  /** A cell off two edges at once (which no unit move produces) keeps one
      coordinate out of range: only the first matching branch applies. */
  lemma WrapCorrectsOneCoordinateOnly()
    ensures Wrap(Position(-1, -1)) == Position(ROWS - 1, -1)
    ensures !InBounds(Wrap(Position(-1, -1)))
  {
  }
}
