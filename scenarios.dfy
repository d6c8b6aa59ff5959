/**
  The demonstration configurations of the program, as facts about the rule
  set and as runs of the engine. Each configuration is a small set of cells;
  the lemmas compute its next generation in full, and the methods build a
  fresh game, advance it and read back what the demonstration looks at.
*/
module Scenarios {
  import opened Coordinates
  import opened LifeRules
  import opened GameOfLife

  const Origin := Coordinate(0, 0)

  /** A dead plane has no live neighbours anywhere. */
  lemma CountInEmpty(c: Coordinate)
    ensures LiveNeighbourCount({}, c) == 0
  {
    assert LiveNeighbours({}, c) == {};
  }

  /** The count at `c` over two distinct cells is the number of them adjacent to `c`. */
  lemma CountOfTwo(a: Coordinate, b: Coordinate, c: Coordinate)
    requires a != b
    ensures LiveNeighbourCount({a, b}, c)
      == (if Adjacent(c, a) then 1 else 0) + (if Adjacent(c, b) then 1 else 0)
  {
    CountInEmpty(c);
    CountInsert({}, a, c);
    assert {} + {a} == {a};
    CountInsert({a}, b, c);
    assert {a} + {b} == {a, b};
  }

  /** The count at `c` over three distinct cells is the number of them adjacent to `c`. */
  lemma CountOfThree(a: Coordinate, b: Coordinate, d: Coordinate, c: Coordinate)
    requires a != b && a != d && b != d
    ensures LiveNeighbourCount({a, b, d}, c)
      == (if Adjacent(c, a) then 1 else 0) + (if Adjacent(c, b) then 1 else 0)
       + (if Adjacent(c, d) then 1 else 0)
  {
    CountOfTwo(a, b, c);
    CountInsert({a, b}, d, c);
    assert {a, b} + {d} == {a, b, d};
  }

  /** The empty game stays empty after one generation. */
  lemma EmptyGame()
    ensures Next({}) == {}
  {
    EmptyStaysEmpty(1);
  }

  const Pair := {Origin, Coordinate(1, 1)}

  /** Two diagonal cells: each has a single neighbour, so both die and nothing is born. */
  lemma SingleNeighbourDies()
    ensures Origin !in Next(Pair)
    ensures Next(Pair) == {}
  {
    forall c ensures c in {} <==> LiveNext(Pair, c) {
      CountOfTwo(Origin, Coordinate(1, 1), c);
    }
    NextByCells(Pair, {});
  }

  const Cross := {Origin, Coordinate(1, 1), Coordinate(1, -1), Coordinate(-1, 1), Coordinate(-1, -1)}

  const Diamond := {Coordinate(0, 1), Coordinate(1, 0), Coordinate(0, -1), Coordinate(-1, 0)}

  /**
    The origin with its four diagonal neighbours: the origin is over-crowded
    and the corners are isolated, so all five die, while the four cells
    between two corners and the origin are born.
  */
  lemma OvercrowdedDies()
    ensures Origin !in Next(Cross)
    ensures Next(Cross) == Diamond
  {
    var corners := {Coordinate(1, 1), Coordinate(1, -1), Coordinate(-1, 1)};
    forall c ensures c in Diamond <==> LiveNext(Cross, c) {
      CountOfThree(Coordinate(1, 1), Coordinate(1, -1), Coordinate(-1, 1), c);
      CountInsert(corners, Coordinate(-1, -1), c);
      assert corners + {Coordinate(-1, -1)} + {Origin} == Cross;
      CountInsert(corners + {Coordinate(-1, -1)}, Origin, c);
    }
    NextByCells(Cross, Diamond);
  }

  const Corner := {Origin, Coordinate(1, 1), Coordinate(1, 0)}

  const Block := {Origin, Coordinate(1, 1), Coordinate(1, 0), Coordinate(0, 1)}

  /** Three cells of a square: all three have two neighbours and survive, and the fourth corner is born. */
  lemma TwoNeighboursSurvives()
    ensures Origin in Next(Corner)
    ensures Next(Corner) == Block
  {
    forall c ensures c in Block <==> LiveNext(Corner, c) {
      CountOfThree(Origin, Coordinate(1, 1), Coordinate(1, 0), c);
    }
    NextByCells(Corner, Block);
  }

  const Tee := {Coordinate(1, 0), Coordinate(-1, 0), Coordinate(0, 1)}

  /** A dead origin with three live neighbours is born; of the three, only the one next to both others survives. */
  lemma ThreeNeighboursBirth()
    ensures Origin in Next(Tee)
    ensures Next(Tee) == {Origin, Coordinate(0, 1)}
  {
    forall c ensures c in {Origin, Coordinate(0, 1)} <==> LiveNext(Tee, c) {
      CountOfThree(Coordinate(1, 0), Coordinate(-1, 0), Coordinate(0, 1), c);
    }
    NextByCells(Tee, {Origin, Coordinate(0, 1)});
  }

  const Horizontal := {Coordinate(-1, 0), Origin, Coordinate(1, 0)}

  const Vertical := {Coordinate(0, -1), Origin, Coordinate(0, 1)}

  /** The blinker: a horizontal line of three becomes a vertical one. */
  lemma BlinkerTurns()
    ensures Next(Horizontal) == Vertical
  {
    forall c ensures c in Vertical <==> LiveNext(Horizontal, c) {
      CountOfThree(Coordinate(-1, 0), Origin, Coordinate(1, 0), c);
    }
    NextByCells(Horizontal, Vertical);
  }

  /** The vertical line turns back into the horizontal one. */
  lemma BlinkerTurnsBack()
    ensures Next(Vertical) == Horizontal
  {
    forall c ensures c in Horizontal <==> LiveNext(Vertical, c) {
      CountOfThree(Coordinate(0, -1), Origin, Coordinate(0, 1), c);
    }
    NextByCells(Vertical, Horizontal);
  }

  /** The blinker has period two. */
  lemma BlinkerPeriodTwo()
    ensures Iterate(Horizontal, 1) == Vertical
    ensures Iterate(Horizontal, 2) == Horizontal
  {
    IterateStep(Horizontal, 0);
    IterateStep(Horizontal, 1);
    BlinkerTurns();
    BlinkerTurnsBack();
  }

  /** A new game on `initial` advanced once: its generation and live cells. */
  method RunOnce(initial: set<Coordinate>) returns (g: nat, after: set<Coordinate>)
    ensures g == 1
    ensures after == Next(initial)
  {
    var game := new Life(initial);
    game.AdvanceOne();
    g := game.Gen();
    after := game.liveCells;
  }

  /** The empty game is still empty at generation 1. */
  method EmptyScenario() returns (g: nat, count: nat)
    ensures g == 1 && count == 0
  {
    var after;
    g, after := RunOnce({});
    EmptyGame();
    count := |after|;
  }

  /** The game with two diagonal cells: the origin is dead at generation 1. */
  method SingleNeighbourScenario() returns (g: nat, originLive: bool)
    ensures g == 1 && !originLive
  {
    var after;
    g, after := RunOnce(Pair);
    SingleNeighbourDies();
    originLive := Origin in after;
  }

  /** The game with the origin and its four diagonals: the origin is dead at generation 1. */
  method OvercrowdedScenario() returns (g: nat, originLive: bool)
    ensures g == 1 && !originLive
  {
    var after;
    g, after := RunOnce(Cross);
    OvercrowdedDies();
    originLive := Origin in after;
  }

  /** The game with three cells of a square: the origin is live at generation 1. */
  method SurvivalScenario() returns (g: nat, originLive: bool)
    ensures g == 1 && originLive
  {
    var after;
    g, after := RunOnce(Corner);
    TwoNeighboursSurvives();
    originLive := Origin in after;
  }

  /** The game with three cells around a dead origin: the origin is live at generation 1. */
  method BirthScenario() returns (g: nat, originLive: bool)
    ensures g == 1 && originLive
  {
    var after;
    g, after := RunOnce(Tee);
    ThreeNeighboursBirth();
    originLive := Origin in after;
  }

  /** The blinker advanced twice: vertical at generation 1, horizontal again at generation 2. */
  method BlinkerScenario() returns (first: set<Coordinate>, second: set<Coordinate>, g: nat)
    ensures first == Vertical && second == Horizontal && g == 2
  {
    var game := new Life(Horizontal);
    game.AdvanceOne();
    first := game.liveCells;
    game.AdvanceOne();
    second := game.liveCells;
    g := game.Gen();
    BlinkerTurns();
    BlinkerTurnsBack();
  }
}
