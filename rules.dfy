/** The rules of the game as functions on a snapshot of the whole game
    state: what moveSnake, checkDeath, checkApple, the bound check, Tick,
    the tick gate of the main loop and keyPressed do to it. The class in
    module SnakeGame performs these same updates in place and is proved
    against these functions. */
module Rules {
  import opened Grid

  /** The keys the game reacts to; every other key is Other. */
  datatype Key = W | ArrowUp | A | ArrowLeft | S | ArrowDown | D | ArrowRight | Other

  /** Everything a tick or a key press reads or writes: the snake's fields,
      the game-over flag and the apple. */
  datatype State = State(
    head: Position,
    body: seq<Position>,
    direction: Direction,
    queue: seq<Direction>,
    moved: bool,
    gameOver: bool,
    apple: Position)

  /** Head, apple and every body segment lie on the grid. */
  predicate WellFormed(s: State)
  {
    InBounds(s.head) && InBounds(s.apple) &&
    forall i :: 0 <= i < |s.body| ==> InBounds(s.body[i])
  }

  /** The state main starts from: the snake at (ROWS / 4, COLS / 2) with no
      heading and no body, the apple at (ROWS / 2, COLS / 2). */
  function Initial(): (s: State)
    ensures WellFormed(s) && s.head != s.apple
    ensures s.body == [] && s.queue == [] && s.direction == None
    ensures !s.moved && !s.gameOver
  {
    State(Position(ROWS / 4, COLS / 2), [], None, [], false, false, Position(ROWS / 2, COLS / 2))
  }

  /** The heading the next tick uses: the oldest queued turn if there is one,
      otherwise the current direction. */
  function NextDirection(s: State): Direction
  {
    if s.queue == [] then s.direction else s.queue[0]
  }

  /** The body after every segment has stepped into the place of the one
      ahead of it, the first into the old head's place. */
  function Shifted(head: Position, body: seq<Position>): (r: seq<Position>)
    ensures |r| == |body|
    ensures r != [] ==> r[0] == head
    ensures forall i :: 0 < i < |r| ==> r[i] == body[i - 1]
  {
    if body == [] then [] else [head] + body[..|body| - 1]
  }

  /** moveSnake: clears moved, takes the heading (popping the queue when it
      comes from there), shifts the body and moves the head one unit. */
  function Move(s: State): (r: State)
    ensures r.head == s.head.Apply(Unit(NextDirection(s)))
    ensures r.body == Shifted(s.head, s.body)
    ensures |r.queue| == if s.queue == [] then 0 else |s.queue| - 1
    ensures forall i :: 0 <= i < |r.queue| ==> r.queue[i] == s.queue[i + 1]
    ensures !r.moved
    ensures r.direction == s.direction && r.gameOver == s.gameOver && r.apple == s.apple
  {
    s.(head := s.head.Apply(Unit(NextDirection(s))),
       body := Shifted(s.head, s.body),
       queue := if s.queue == [] then [] else s.queue[1..],
       moved := false)
  }

  /** checkDeath: raises the game-over flag when the head shares a cell with
      a body segment, and never lowers it. */
  function Death(s: State): (r: State)
    ensures r.gameOver <==> s.gameOver || exists i :: 0 <= i < |s.body| && s.body[i] == s.head
    ensures r.(gameOver := s.gameOver) == s
  {
    s.(gameOver := s.gameOver || s.head in s.body)
  }

  /** The cell checkApple copies for the new segment: the front of the body,
      or the head itself when there is no body. */
  function GrownSegment(s: State): Position
  {
    if s.body == [] then s.head else s.body[0]
  }

  /** checkApple: when the head is on the apple, appends a copy of the
      front segment and moves the apple to the cell the generator rolled. */
  function Eat(s: State, roll: Position): (r: State)
    ensures s.head == s.apple ==> r.body == s.body + [GrownSegment(s)] && r.apple == roll
    ensures s.head != s.apple ==> r == s
    ensures r.(body := s.body, apple := s.apple) == s
  {
    if s.head.x == s.apple.x && s.head.y == s.apple.y then
      s.(body := s.body + [GrownSegment(s)], apple := roll)
    else
      s
  }

  /** The bound check at the end of Tick, applied to the head. */
  function WrapHead(s: State): (r: State)
    ensures r.head == Wrap(s.head) && r.(head := s.head) == s
  {
    s.(head := Wrap(s.head))
  }

  /** Where the head is after the move of a tick and before its
      wrap-around: the cell the death and apple checks look at. */
  function PreWrapHead(s: State): Position
  {
    s.head.Apply(Unit(NextDirection(s)))
  }

  /** Tick: move, check death, check the apple, wrap the head. */
  function Tick(s: State, roll: Position): (r: State)
    ensures r.head == Wrap(PreWrapHead(s))
    ensures InBounds(s.head) ==> InBounds(r.head)
    ensures r.direction == s.direction && !r.moved
    ensures r.queue == if s.queue == [] then [] else s.queue[1..]
    ensures |r.body| == |s.body| + (if PreWrapHead(s) == s.apple then 1 else 0)
    ensures r.body[..|s.body|] == Shifted(s.head, s.body)
    ensures PreWrapHead(s) == s.apple ==>
      r.apple == roll && r.body[|s.body|] == (if s.body == [] then PreWrapHead(s) else s.head)
    ensures PreWrapHead(s) != s.apple ==> r.apple == s.apple && r.body == Shifted(s.head, s.body)
    ensures r.gameOver <==> s.gameOver || PreWrapHead(s) in Shifted(s.head, s.body)
    ensures WellFormed(s) && InBounds(roll) ==> WellFormed(r)
  {
    WrapHead(Eat(Death(Move(s)), roll))
  }

  /** The gate of the main loop: a tick runs only while the game is not over. */
  function Step(s: State, roll: Position): (r: State)
    ensures s.gameOver ==> r == s
    ensures !s.gameOver ==> r == Tick(s, roll)
  {
    if !s.gameOver then Tick(s, roll) else s
  }

  /** The heading a key asks for; None for a key the game ignores. Each
      heading has exactly two keys, a letter and an arrow. */
  function KeyDirection(k: Key): (r: Direction)
    ensures r == Up <==> k == W || k == ArrowUp
    ensures r == Left <==> k == A || k == ArrowLeft
    ensures r == Down <==> k == S || k == ArrowDown
    ensures r == Right <==> k == D || k == ArrowRight
    ensures r == None <==> k == Other
  {
    match k
    case W => Up
    case ArrowUp => Up
    case A => Left
    case ArrowLeft => Left
    case S => Down
    case ArrowDown => Down
    case D => Right
    case ArrowRight => Right
    case Other => None
  }

  /** The switch of keyPressed: a key's heading is taken unless its code
      and the current direction's code sum to zero. */
  function Candidate(current: Direction, k: Key): (r: Direction)
    ensures r == None || r == KeyDirection(k)
    ensures r != None <==> KeyDirection(k) != None && KeyDirection(k) != Opposite(current)
  {
    match k
    case W => if Code(current) + Code(Up) != 0 then Up else None
    case ArrowUp => if Code(current) + Code(Up) != 0 then Up else None
    case A => if Code(current) + Code(Left) != 0 then Left else None
    case ArrowLeft => if Code(current) + Code(Left) != 0 then Left else None
    case S => if Code(current) + Code(Down) != 0 then Down else None
    case ArrowDown => if Code(current) + Code(Down) != 0 then Down else None
    case D => if Code(current) + Code(Right) != 0 then Right else None
    case ArrowRight => if Code(current) + Code(Right) != 0 then Right else None
    case Other => None
  }

  /** keyPressed: an accepted heading becomes the direction; the old
      direction is queued first when a turn is already pending or the snake
      already turned since the last tick. */
  function Press(s: State, k: Key): (r: State)
    ensures Candidate(s.direction, k) == None ==> r == s
    ensures Candidate(s.direction, k) != None ==>
      r.direction == Candidate(s.direction, k) && r.moved &&
      (|r.queue| == |s.queue| + 1 <==> s.queue != [] || s.moved)
    ensures |s.queue| <= |r.queue| <= |s.queue| + 1 && r.queue[..|s.queue|] == s.queue
    ensures |r.queue| == |s.queue| + 1 ==> r.queue[|s.queue|] == s.direction
    ensures r.head == s.head && r.body == s.body && r.apple == s.apple && r.gameOver == s.gameOver
  {
    var dir := Candidate(s.direction, k);
    if dir == None then
      s
    else
      s.(queue := if s.queue != [] || s.moved then s.queue + [s.direction] else s.queue,
         direction := dir,
         moved := true)
  }
}
