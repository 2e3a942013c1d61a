/** Two behaviours of the program as written that work against the game's
    own rules (a snake never reverses into its neck; what the head reaches
    is what it hits or eats), each shown on a concrete state, with a
    corrected rule and that property proved about it.

    1. A pending turn is lost. moveSnake clears moved on every tick, also
       when the heading it used came from the queue. The direction field then
       holds a turn that no tick has made yet, but a later key press sees an
       empty queue and moved false, overwrites that direction without queuing
       it, and can so reverse the snake into its own neck. The correction
       keeps moved set when the tick took its heading from the queue.

    2. The death and apple checks look at the head before its wrap-around.
       A head that crosses an edge onto the apple does not eat it, and one
       that crosses onto its own body does not die. The correction wraps the
       head first. */
module Findings {
  import opened Grid
  import opened Rules
  import opened Session

  // ---------------------------------------------------------------------
  // 1. The lost turn
  // ---------------------------------------------------------------------

  /** b immediately undoes a: the moves of the pair cancel. */
  predicate Reverses(a: Direction, b: Direction)
  {
    a != None && b == Opposite(a)
  }

  /** No heading in the sequence is immediately followed by its reverse. */
  predicate NoReversal(ds: seq<Direction>)
  {
    forall i :: 0 < i < |ds| ==> !Reverses(ds[i - 1], ds[i])
  }

  /** A snake moving Right with two segments behind it, just after a tick. */
  function MovingRight(): State
  {
    State(Position(10, 10), [Position(9, 10), Position(8, 10)], Right, [], false, false, Position(40, 20))
  }

  /** Up and Left pressed between two ticks, then Down after the first of
      them: each key turns by a right angle from the one before. */
  function TurnKeys(roll: Position): seq<Event>
  {
    [Pressed(ArrowUp), Pressed(ArrowLeft), Elapsed(roll), Pressed(ArrowDown), Elapsed(roll)]
  }

  /** The state after the first tick of TurnKeys, as written: the queued
      Up is made, the queue is empty and moved is already cleared while Left
      has not been made yet. */
  function AfterFirstTurn(): State
  {
    State(Position(10, 9), [Position(10, 10), Position(9, 10)], Left, [], false, false, Position(40, 20))
  }

  lemma LostTurnFirstTick(roll: Position)
    ensures Press(Press(MovingRight(), ArrowUp), ArrowLeft) == MovingRight().(direction := Left, queue := [Up], moved := true)
    ensures Step(MovingRight().(direction := Left, queue := [Up], moved := true), roll) == AfterFirstTurn()
  {
  }

  lemma LostTurnSecondTick(roll: Position)
    ensures Press(AfterFirstTurn(), ArrowDown) == AfterFirstTurn().(direction := Down, moved := true)
    ensures Step(AfterFirstTurn().(direction := Down, moved := true), roll).gameOver
  {
    var s := AfterFirstTurn().(direction := Down, moved := true);
    assert PreWrapHead(s) == Position(10, 10);
    assert Shifted(s.head, s.body)[1] == Position(10, 10);
  }

  /** As written, the queued Left is dropped: the snake moves Up and then
      straight back Down onto the segment behind its head, and the game ends. */
  lemma LostTurnReversesSnake(roll: Position)
    ensures Executed(MovingRight(), TurnKeys(roll)) == [Up, Down]
    ensures Reverses(Up, Down)
    ensures Run(MovingRight(), TurnKeys(roll)).gameOver
  {
    var e4: seq<Event> := [Elapsed(roll)];
    var e3 := [Pressed(ArrowDown)] + e4;
    var e2 := [Elapsed(roll)] + e3;
    var e1 := [Pressed(ArrowLeft)] + e2;
    assert TurnKeys(roll) == [Pressed(ArrowUp)] + e1;
    LostTurnFirstTick(roll);
    LostTurnSecondTick(roll);
    var s2 := MovingRight().(direction := Left, queue := [Up], moved := true);
    var s4 := AfterFirstTurn().(direction := Down, moved := true);
    var s5 := Step(s4, roll);
    RunCons(s4, Elapsed(roll), []);
    assert Run(s4, e4) == s5 && Executed(s4, e4) == [Down];
    RunCons(AfterFirstTurn(), Pressed(ArrowDown), e4);
    RunCons(s2, Elapsed(roll), e3);
    assert Executed(s2, e2) == [Up] + [Down];
    RunCons(Press(MovingRight(), ArrowUp), Pressed(ArrowLeft), e2);
    RunCons(MovingRight(), Pressed(ArrowUp), e1);
  }

  /** moveSnake with the correction: moved is cleared only when the tick
      took its heading from the direction field. */
  function MoveKeepingTurn(s: State): (r: State)
    ensures r.(moved := false) == Move(s)
    ensures s.moved && r.direction != NextDirection(s) ==> r.moved
  {
    Move(s).(moved := if s.queue == [] then false else s.moved)
  }

  /** Tick built on the corrected move: the same new state, except that a
      heading no tick has made yet keeps moved set. */
  function TickKeepingTurn(s: State, roll: Position): (r: State)
    ensures r.(moved := false) == Tick(s, roll)
    ensures s.moved && r.direction != NextDirection(s) ==> r.moved
  {
    WrapHead(Eat(Death(MoveKeepingTurn(s)), roll))
  }

  function HandleKeepingTurn(s: State, e: Event): State
  {
    match e
    case Pressed(k) => Press(s, k)
    case Elapsed(roll) => if !s.gameOver then TickKeepingTurn(s, roll) else s
  }

  function RunKeepingTurn(s: State, evs: seq<Event>): State
    decreases |evs|
  {
    if evs == [] then s else RunKeepingTurn(HandleKeepingTurn(s, evs[0]), evs[1..])
  }

  lemma RunKeepingTurnCons(s: State, e: Event, evs: seq<Event>)
    ensures RunKeepingTurn(s, [e] + evs) == RunKeepingTurn(HandleKeepingTurn(s, e), evs)
    ensures ExecutedKeepingTurn(s, [e] + evs) ==
      (if e.Elapsed? && !s.gameOver then [NextDirection(s)] else []) +
      ExecutedKeepingTurn(HandleKeepingTurn(s, e), evs)
  {
    assert ([e] + evs)[1..] == evs;
  }

  function ExecutedKeepingTurn(s: State, evs: seq<Event>): seq<Direction>
    decreases |evs|
  {
    if evs == [] then []
    else
      (if evs[0].Elapsed? && !s.gameOver then [NextDirection(s)] else []) +
      ExecutedKeepingTurn(HandleKeepingTurn(s, evs[0]), evs[1..])
  }

  /** What the turn buffer promises, relative to the heading last moved in:
      that heading, the queued turns and the direction form a chain without
      reversals; a pending turn implies moved; and without moved the
      direction is the heading last moved in. */
  predicate TurnChain(s: State, last: Direction)
  {
    NoReversal([last] + s.queue + [s.direction]) &&
    (s.queue != [] ==> s.moved) &&
    (!s.moved ==> s.direction == last)
  }

  lemma InitialTurnChain()
    ensures TurnChain(Initial(), None)
  {
  }

  lemma NoReversalSnoc(ds: seq<Direction>, d: Direction)
    requires ds != [] && NoReversal(ds) && !Reverses(ds[|ds| - 1], d)
    ensures NoReversal(ds + [d])
  {
    var es := ds + [d];
    forall i | 0 < i < |es| ensures !Reverses(es[i - 1], es[i]) {
      if i < |ds| {
        assert es[i - 1] == ds[i - 1] && es[i] == ds[i];
      }
    }
  }

  lemma PressKeepsTurnChain(s: State, last: Direction, k: Key)
    requires TurnChain(s, last)
    ensures TurnChain(Press(s, k), last)
  {
    var d := Candidate(s.direction, k);
    if d != None {
      var r := Press(s, k);
      var before := [last] + s.queue + [s.direction];
      assert !Reverses(s.direction, d);
      if s.queue != [] || s.moved {
        assert r.queue == s.queue + [s.direction] && r.direction == d;
        assert [last] + r.queue + [r.direction] == before + [d];
        NoReversalSnoc(before, d);
      } else {
        assert r.queue == [] && r.direction == d && s.direction == last;
        assert [last] + r.queue + [r.direction] == [last, d];
      }
    }
  }

  lemma TickKeepsTurnChain(s: State, last: Direction, roll: Position)
    requires TurnChain(s, last)
    ensures TurnChain(TickKeepingTurn(s, roll), NextDirection(s))
    ensures !Reverses(last, NextDirection(s))
  {
    var r := TickKeepingTurn(s, roll);
    var before := [last] + s.queue + [s.direction];
    assert before[0] == last && before[1] == NextDirection(s);
    assert !Reverses(before[0], before[1]);
    if s.queue != [] {
      assert r.queue == s.queue[1..];
      assert [NextDirection(s)] + r.queue + [r.direction] == before[1..];
    }
  }

  lemma NoReversalCons(a: Direction, b: Direction, rest: seq<Direction>)
    requires !Reverses(a, b) && NoReversal([b] + rest)
    ensures NoReversal([a] + ([b] + rest))
  {
    var ds := [a] + ([b] + rest);
    forall i | 0 < i < |ds| ensures !Reverses(ds[i - 1], ds[i]) {
      if i > 1 {
        assert ds[i - 1] == ([b] + rest)[i - 2] && ds[i] == ([b] + rest)[i - 1];
      }
    }
  }

  /** With the correction, no tick ever moves in the reverse of the heading
      the tick before it moved in, whatever keys are pressed in between. */
  lemma {:induction false} CorrectedTurnsNeverReverse(s: State, last: Direction, evs: seq<Event>)
    requires TurnChain(s, last)
    ensures NoReversal([last] + ExecutedKeepingTurn(s, evs))
    decreases |evs|
  {
    if evs != [] {
      var rest := ExecutedKeepingTurn(HandleKeepingTurn(s, evs[0]), evs[1..]);
      match evs[0]
      case Pressed(k) =>
        PressKeepsTurnChain(s, last, k);
        CorrectedTurnsNeverReverse(Press(s, k), last, evs[1..]);
        assert ExecutedKeepingTurn(s, evs) == rest;
      case Elapsed(roll) =>
        if s.gameOver {
          CorrectedTurnsNeverReverse(s, last, evs[1..]);
          assert ExecutedKeepingTurn(s, evs) == rest;
        } else {
          TickKeepsTurnChain(s, last, roll);
          CorrectedTurnsNeverReverse(TickKeepingTurn(s, roll), NextDirection(s), evs[1..]);
          NoReversalCons(last, NextDirection(s), rest);
          assert ExecutedKeepingTurn(s, evs) == [NextDirection(s)] + rest;
        }
    } else {
      assert [last] + ExecutedKeepingTurn(s, evs) == [last];
    }
  }

  /** The state after the first corrected tick of TurnKeys: Up is made and
      moved stays set, because Left is still pending. */
  function AfterFirstTurnKept(): State
  {
    AfterFirstTurn().(moved := true)
  }

  lemma KeptTurnFirstTick(roll: Position)
    ensures HandleKeepingTurn(MovingRight().(direction := Left, queue := [Up], moved := true), Elapsed(roll))
      == AfterFirstTurnKept()
  {
  }

  lemma KeptTurnSecondTick(roll: Position)
    ensures Press(AfterFirstTurnKept(), ArrowDown) == AfterFirstTurnKept().(direction := Down, queue := [Left])
    ensures !HandleKeepingTurn(AfterFirstTurnKept().(direction := Down, queue := [Left]), Elapsed(roll)).gameOver
  {
    var s := AfterFirstTurnKept().(direction := Down, queue := [Left]);
    assert PreWrapHead(s) == Position(9, 9);
    assert Shifted(s.head, s.body) == [Position(10, 9), Position(10, 10)];
  }

  /** The same keys under the correction: Up, then the queued Left, and the
      snake lives. */
  lemma CorrectedKeepsQueuedTurn(roll: Position)
    ensures ExecutedKeepingTurn(MovingRight(), TurnKeys(roll)) == [Up, Left]
    ensures !RunKeepingTurn(MovingRight(), TurnKeys(roll)).gameOver
  {
    var e4: seq<Event> := [Elapsed(roll)];
    var e3 := [Pressed(ArrowDown)] + e4;
    var e2 := [Elapsed(roll)] + e3;
    var e1 := [Pressed(ArrowLeft)] + e2;
    assert TurnKeys(roll) == [Pressed(ArrowUp)] + e1;
    LostTurnFirstTick(roll);
    KeptTurnFirstTick(roll);
    KeptTurnSecondTick(roll);
    var s2 := MovingRight().(direction := Left, queue := [Up], moved := true);
    var s4 := AfterFirstTurnKept().(direction := Down, queue := [Left]);
    var s5 := HandleKeepingTurn(s4, Elapsed(roll));
    RunKeepingTurnCons(s4, Elapsed(roll), []);
    assert RunKeepingTurn(s4, e4) == s5 && ExecutedKeepingTurn(s4, e4) == [Left];
    RunKeepingTurnCons(AfterFirstTurnKept(), Pressed(ArrowDown), e4);
    RunKeepingTurnCons(s2, Elapsed(roll), e3);
    assert ExecutedKeepingTurn(s2, e2) == [Up] + [Left];
    RunKeepingTurnCons(Press(MovingRight(), ArrowUp), Pressed(ArrowLeft), e2);
    RunKeepingTurnCons(MovingRight(), Pressed(ArrowUp), e1);
  }

  // ---------------------------------------------------------------------
  // 2. Checks before the wrap-around
  // ---------------------------------------------------------------------

  /** Tick with the wrap-around moved in front of the death and apple checks. */
  function TickWrapFirst(s: State, roll: Position): (r: State)
    ensures r.head == Wrap(PreWrapHead(s))
    ensures |r.body| == |s.body| + (if r.head == s.apple then 1 else 0)
    ensures r.head != s.apple ==> r.apple == s.apple
    ensures r.head == s.apple ==> r.apple == roll
    ensures r.body[..|s.body|] == Shifted(s.head, s.body)
    ensures r.gameOver <==> s.gameOver || r.head in Shifted(s.head, s.body)
    ensures WellFormed(s) && InBounds(roll) ==> WellFormed(r)
  {
    Eat(Death(WrapHead(Move(s))), roll)
  }

  /** A bodiless snake at the left edge heading Left, the apple on the cell
      across the edge. */
  function AppleAcrossEdge(): State
  {
    State(Position(0, 5), [], Left, [], false, false, Position(ROWS - 1, 5))
  }

  /** As written, the head ends the tick on the apple without eating it, and
      the next tick leaves the apple behind. */
  lemma WrappedArrivalMissesApple(roll: Position, roll2: Position)
    ensures Tick(AppleAcrossEdge(), roll).head == AppleAcrossEdge().apple
    ensures Tick(AppleAcrossEdge(), roll).body == []
    ensures Tick(AppleAcrossEdge(), roll).apple == AppleAcrossEdge().apple
    ensures Tick(Tick(AppleAcrossEdge(), roll), roll2).body == []
    ensures TickWrapFirst(AppleAcrossEdge(), roll).body == [AppleAcrossEdge().apple]
  {
  }

  /** A snake whose head at the left edge heads Left while its tail runs
      along the cells across that edge. */
  function BodyAcrossEdge(): State
  {
    State(Position(0, 5),
          [Position(1, 5), Position(1, 6), Position(0, 6), Position(ROWS - 1, 6),
           Position(ROWS - 1, 5), Position(ROWS - 1, 4)],
          Left, [], false, false, Position(20, 20))
  }

  /** As written, the head wraps onto a body segment and the game goes on;
      with the wrap first, the game ends. */
  lemma WrappedArrivalMissesCollision(roll: Position)
    ensures Tick(BodyAcrossEdge(), roll).head in Tick(BodyAcrossEdge(), roll).body
    ensures !Tick(BodyAcrossEdge(), roll).gameOver
    ensures TickWrapFirst(BodyAcrossEdge(), roll).gameOver
  {
    var s := BodyAcrossEdge();
    var shifted := Shifted(s.head, s.body);
    assert shifted[5] == Position(ROWS - 1, 5);
    assert Position(-1, 5) !in shifted;
  }
}
