/** The main loop as a sequence of events: each polled key press goes to
    keyPressed, and each elapsed tick interval runs the gated tick. What
    holds along every such run: the grid bounds, the finality of game over,
    a body that never shrinks, and directions that are never None once a
    key has been accepted. */
module Session {
  import opened Grid
  import opened Rules

  /** A key press, or the end of a tick interval together with the cell the
      generator would roll if the apple were eaten on that tick. */
  datatype Event = Pressed(key: Key) | Elapsed(roll: Position)

  /** One pass of the main loop: a polled press goes to keyPressed, an
      elapsed interval runs the gated tick. */
  function Handle(s: State, e: Event): (r: State)
    ensures e.Pressed? ==> r == Press(s, e.key)
    ensures e.Elapsed? ==> r == Step(s, e.roll)
  {
    match e
    case Pressed(k) => Press(s, k)
    case Elapsed(roll) => Step(s, roll)
  }

  /** The state after handling the events in order. Game over is never
      cleared and the body never loses a segment. */
  function Run(s: State, evs: seq<Event>): (r: State)
    ensures s.gameOver ==> r.gameOver
    ensures |r.body| >= |s.body|
    decreases |evs|
  {
    if evs == [] then s else Run(Handle(s, evs[0]), evs[1..])
  }

  /** The headings of the ticks that actually move the snake, in order. */
  function Executed(s: State, evs: seq<Event>): seq<Direction>
    decreases |evs|
  {
    if evs == [] then []
    else
      (if evs[0].Elapsed? && !s.gameOver then [NextDirection(s)] else []) +
      Executed(Handle(s, evs[0]), evs[1..])
  }

  /** One event, then the rest of the run. */
  lemma RunCons(s: State, e: Event, evs: seq<Event>)
    ensures Run(s, [e] + evs) == Run(Handle(s, e), evs)
    ensures Executed(s, [e] + evs) ==
      (if e.Elapsed? && !s.gameOver then [NextDirection(s)] else []) + Executed(Handle(s, e), evs)
  {
    assert ([e] + evs)[1..] == evs;
  }

  /** The generator only ever yields cells of the grid. */
  predicate RollsInBounds(evs: seq<Event>)
  {
    forall i :: 0 <= i < |evs| ==> evs[i].Elapsed? ==> InBounds(evs[i].roll)
  }

  /** Every run from a well-formed state, with rolls from the grid, keeps the
      head, the apple and every segment on the grid. */
  lemma {:induction false} RunKeepsWellFormed(s: State, evs: seq<Event>)
    requires WellFormed(s) && RollsInBounds(evs)
    ensures WellFormed(Run(s, evs))
    decreases |evs|
  {
    if evs != [] {
      assert RollsInBounds(evs[1..]) by {
        forall i | 0 <= i < |evs[1..]|
          ensures evs[1..][i].Elapsed? ==> InBounds(evs[1..][i].roll)
        {
          assert evs[1..][i] == evs[i + 1];
        }
      }
      assert evs[0].Elapsed? ==> InBounds(evs[0].roll);
      RunKeepsWellFormed(Handle(s, evs[0]), evs[1..]);
    }
  }

  /** Once the game is over it stays over, no further tick moves the snake,
      and head, body and apple keep their cells whatever keys are pressed. */
  lemma {:induction false} GameOverIsFinal(s: State, evs: seq<Event>)
    requires s.gameOver
    ensures Run(s, evs).gameOver
    ensures Run(s, evs).head == s.head && Run(s, evs).body == s.body && Run(s, evs).apple == s.apple
    ensures Executed(s, evs) == []
    decreases |evs|
  {
    if evs != [] {
      GameOverIsFinal(Handle(s, evs[0]), evs[1..]);
    }
  }

  /** The body grows only on ticks: a run of key presses alone leaves
      everything but direction, queue and moved as it was. */
  lemma {:induction false} PressesOnlySteer(s: State, evs: seq<Event>)
    requires forall i :: 0 <= i < |evs| ==> evs[i].Pressed?
    ensures Run(s, evs).head == s.head && Run(s, evs).body == s.body
    ensures Run(s, evs).apple == s.apple && Run(s, evs).gameOver == s.gameOver
    ensures Executed(s, evs) == []
    decreases |evs|
  {
    if evs != [] {
      assert forall i :: 0 <= i < |evs[1..]| ==> evs[1..][i] == evs[i + 1];
      PressesOnlySteer(Handle(s, evs[0]), evs[1..]);
    }
  }

  predicate NoneFree(q: seq<Direction>)
  {
    forall i :: 0 <= i < |q| ==> q[i] != None
  }

  /** The queue never holds None, and the direction is a real heading as
      soon as a turn is pending or one was taken since the last tick. */
  predicate Clean(s: State)
  {
    NoneFree(s.queue) && (s.moved || s.queue != [] ==> s.direction != None)
  }

  /** Neither the direction nor any queued turn is None. */
  predicate Settled(s: State)
  {
    NoneFree(s.queue) && s.direction != None
  }

  lemma HandleKeepsClean(s: State, e: Event)
    requires Clean(s)
    ensures Clean(Handle(s, e))
  {
    if e.Elapsed? && !s.gameOver {
      var r := Handle(s, e);
      assert forall i :: 0 <= i < |r.queue| ==> r.queue[i] == s.queue[i + 1];
    }
  }

  /** The start state is clean. */
  lemma InitialClean()
    ensures Clean(Initial())
  {
  }

  /** Every run keeps the queue free of None. */
  lemma {:induction false} RunKeepsClean(s: State, evs: seq<Event>)
    requires Clean(s)
    ensures Clean(Run(s, evs))
    decreases |evs|
  {
    if evs != [] {
      HandleKeepsClean(s, evs[0]);
      RunKeepsClean(Handle(s, evs[0]), evs[1..]);
    }
  }

  /** Accepting a key in a clean state settles it. */
  lemma AcceptedKeySettles(s: State, k: Key)
    requires Clean(s) && Candidate(s.direction, k) != None
    ensures Settled(Press(s, k))
  {
    var r := Press(s, k);
    if s.queue != [] || s.moved {
      assert r.queue == s.queue + [s.direction];
    }
  }

  lemma HandleKeepsSettled(s: State, e: Event)
    requires Settled(s)
    ensures Settled(Handle(s, e))
  {
    var r := Handle(s, e);
    if e.Elapsed? && !s.gameOver {
      assert forall i :: 0 <= i < |r.queue| ==> r.queue[i] == s.queue[i + 1];
    } else if e.Pressed? && Candidate(s.direction, e.key) != None && (s.queue != [] || s.moved) {
      assert r.queue == s.queue + [s.direction];
    }
  }

  /** Once settled, a state stays settled along every run, so every tick
      from then on moves the head by a unit step. */
  lemma {:induction false} SettledIsFinal(s: State, evs: seq<Event>)
    requires Settled(s)
    ensures Settled(Run(s, evs))
    ensures NoneFree(Executed(s, evs))
    decreases |evs|
  {
    if evs != [] {
      HandleKeepsSettled(s, evs[0]);
      SettledIsFinal(Handle(s, evs[0]), evs[1..]);
      var head := if evs[0].Elapsed? && !s.gameOver then [NextDirection(s)] else [];
      assert Executed(s, evs) == head + Executed(Handle(s, evs[0]), evs[1..]);
    }
  }

  /** Two turns pressed between ticks are taken one per tick, oldest first,
      while the newest stays the direction. */
  lemma QueuedTurnsAreTakenInOrder(s: State, r1: Position, r2: Position)
    requires s.queue == [] && !s.moved && s.direction != Down
    ensures var p := Press(Press(s, ArrowUp), ArrowLeft);
      var t1 := Tick(p, r1);
      NextDirection(p) == Up && t1.direction == Left && NextDirection(t1) == Left &&
      t1.head == Wrap(s.head.Apply(Unit(Up))) &&
      Tick(t1, r2).head == Wrap(t1.head.Apply(Unit(Left))) &&
      Tick(t1, r2).queue == []
  {
  }

  /** Up then Down between two ticks: the reversal is refused and the next
      tick still moves Up. */
  lemma ReversalIsRefused(s: State, r: Position)
    requires s.queue == [] && !s.moved && s.direction != Down
    ensures var p := Press(Press(s, ArrowUp), ArrowDown);
      p.direction == Up && p.queue == [] && NextDirection(p) == Up &&
      Tick(p, r).head == Wrap(s.head.Apply(Unit(Up)))
  {
  }

  /** The segment appended on eating is dropped by the next shift: the
      body after it does not depend on the copied cell. */
  lemma GrownSegmentIsOverwritten(h: Position, b: seq<Position>, x: Position)
    ensures Shifted(h, b + [x]) == [h] + b
  {
    assert (b + [x])[..|b|] == b;
  }
}
