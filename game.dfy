/** The game as the program holds it: one object whose fields the tick and
    the key handler update in place. Each method is proved to leave the
    object in the state the matching function of module Rules describes. */
module SnakeGame {
  import opened Grid
  import opened Rules

  class Game {
    var head: Position
    /** Segments nearest the head first. */
    var body: seq<Position>
    var direction: Direction
    /** Pending turns, oldest first. */
    var queue: seq<Direction>
    /** A key was accepted since the last tick. */
    var moved: bool
    var gameOver: bool
    var apple: Position

    function Snapshot(): State
      reads this
    {
      State(head, body, direction, queue, moved, gameOver, apple)
    }

    /** A snake at a start cell with a start heading, no body and nothing
        queued, beside an apple. */
    constructor (start: Position, startDirection: Direction, firstApple: Position)
      ensures Snapshot() == State(start, [], startDirection, [], false, false, firstApple)
    {
      head := start;
      body := [];
      direction := startDirection;
      queue := [];
      moved := false;
      gameOver := false;
      apple := firstApple;
    }

    /** The setup of main. */
    static method NewGame() returns (g: Game)
      ensures fresh(g) && g.Snapshot() == Initial()
    {
      g := new Game(Position(ROWS / 4, COLS / 2), None, Position(ROWS / 2, COLS / 2));
    }

    /** moveSnake: resolves the heading, shifts the body one segment towards
        the head with a downward loop, then moves the head. */
    method MoveSnake()
      modifies this
      ensures body == Shifted(old(head), old(body))
      ensures head == old(head).Apply(Unit(NextDirection(old(Snapshot()))))
      ensures Snapshot() == Move(old(Snapshot()))
    {
      moved := false;
      var dir: Direction;
      if queue == [] {
        dir := direction;
      } else {
        dir := queue[0];
        queue := queue[1..];
      }
      var transform := Unit(dir);

      ghost var popped := Snapshot();
      var i := |body| - 1;
      while i > 0
        invariant |body| == |old(body)|
        invariant 0 <= i < |body| || (|body| == 0 && i == -1)
        invariant forall k :: 0 <= k <= i ==> body[k] == old(body)[k]
        invariant forall k :: 0 < k < |body| && i < k ==> body[k] == old(body)[k - 1]
        invariant Snapshot().(body := popped.body) == popped
        decreases i
      {
        body := body[i := body[i - 1]];
        i := i - 1;
      }
      if body != [] {
        body := body[0 := head];
      }

      head := head.Apply(transform);
    }

    /** checkDeath: walks the body and raises the flag on a segment that
        shares the head's cell. */
    method CheckDeath()
      modifies this
      ensures gameOver == (old(gameOver) || head in body)
      ensures Snapshot() == Death(old(Snapshot()))
    {
      var i := 0;
      while i < |body|
        invariant 0 <= i <= |body|
        invariant gameOver == (old(gameOver) || head in body[..i])
        invariant Snapshot().(gameOver := old(gameOver)) == old(Snapshot())
      {
        assert body[..i + 1] == body[..i] + [body[i]];
        if body[i].Equals(head) {
          gameOver := true;
        }
        i := i + 1;
      }
      assert body[..i] == body;
    }

    /** checkApple: on the apple, appends a copy of the front segment (the
        head when there is none) and moves the apple to the rolled cell,
        which the generator draws from the grid. */
    method CheckApple(roll: Position)
      requires InBounds(roll)
      modifies this
      ensures Snapshot() == Eat(old(Snapshot()), roll)
    {
      if head.x == apple.x && head.y == apple.y {
        var last: Position;
        if body != [] {
          last := body[0];
        } else {
          last := head;
        }
        body := body + [last];
        apple := roll;
      }
    }

    /** Tick: moves, checks death and the apple, then wraps the head,
        rewriting one coordinate in place. */
    method Tick(roll: Position)
      requires InBounds(roll)
      modifies this
      ensures Snapshot() == Rules.Tick(old(Snapshot()), roll)
      ensures old(WellFormed(Snapshot())) ==> WellFormed(Snapshot())
    {
      MoveSnake();
      CheckDeath();
      CheckApple(roll);

      if head.x < 0 {
        head := head.(x := ROWS - 1);
      } else if head.y < 0 {
        head := head.(y := COLS - 1);
      } else if head.y >= COLS {
        head := head.(y := 0);
      } else if head.x >= ROWS {
        head := head.(x := 0);
      }
    }

    /** keyPressed: picks the key's heading unless it reverses the current
        direction, queues the old direction when a turn is pending or one
        was already taken, then adopts the new heading. */
    method KeyPressed(k: Key)
      modifies this
      ensures Snapshot() == Press(old(Snapshot()), k)
      ensures |old(queue)| <= |queue| <= |old(queue)| + 1
    {
      var dir := None;
      match k {
        case W =>
          if Code(direction) + Code(Up) != 0 { dir := Up; }
        case ArrowUp =>
          if Code(direction) + Code(Up) != 0 { dir := Up; }
        case A =>
          if Code(direction) + Code(Left) != 0 { dir := Left; }
        case ArrowLeft =>
          if Code(direction) + Code(Left) != 0 { dir := Left; }
        case S =>
          if Code(direction) + Code(Down) != 0 { dir := Down; }
        case ArrowDown =>
          if Code(direction) + Code(Down) != 0 { dir := Down; }
        case D =>
          if Code(direction) + Code(Right) != 0 { dir := Right; }
        case ArrowRight =>
          if Code(direction) + Code(Right) != 0 { dir := Right; }
        case Other =>
      }
      assert dir == Candidate(direction, k);

      if dir == None {
        return;
      }

      if queue != [] || moved {
        queue := queue + [direction];
      }
      direction := dir;
      moved := true;
    }

    /** The main loop's gate: a tick whose interval elapsed runs only while
        the game is not over. */
    method Step(roll: Position)
      requires InBounds(roll)
      modifies this
      ensures Snapshot() == Rules.Step(old(Snapshot()), roll)
      ensures old(gameOver) ==> Snapshot() == old(Snapshot())
    {
      if !gameOver {
        Tick(roll);
      }
    }
  }
}
