/**
  The rule set B3/S2,3 over a sparse set of live cells, as pure functions:
  the Moore neighbourhood, the dead cells next to a live one, births,
  survivors, one generation and many. The class in life.dfy is proved
  against these definitions.
*/
module LifeRules {
  import opened Coordinates

  /** `d` is one of the eight cells surrounding `c`. */
  predicate Adjacent(c: Coordinate, d: Coordinate)
  {
    d != c && -1 <= d.x - c.x <= 1 && -1 <= d.y - c.y <= 1
  }

  /** `Life::Neighbours`: the eight surrounding cells, listed in lexicographic order. */
  function Neighbours(c: Coordinate): (r: set<Coordinate>)
    ensures c !in r
    ensures |r| == 8
  {
    var sw, w, nw := Coordinate(c.x - 1, c.y - 1), Coordinate(c.x - 1, c.y), Coordinate(c.x - 1, c.y + 1);
    var s, n := Coordinate(c.x, c.y - 1), Coordinate(c.x, c.y + 1);
    var se, e, ne := Coordinate(c.x + 1, c.y - 1), Coordinate(c.x + 1, c.y), Coordinate(c.x + 1, c.y + 1);
    {sw, w, nw, s, n, se, e, ne}
  }

  /** The neighbourhood holds exactly the adjacent cells: all eight, and never the centre. */
  lemma NeighboursMeaning(c: Coordinate, d: Coordinate)
    ensures d in Neighbours(c) <==> Adjacent(c, d)
  {
    if Adjacent(c, d) {
      assert d == Coordinate(d.x, d.y);
    }
  }

  /** Adjacency is symmetric: `c` neighbours `d` exactly when `d` neighbours `c`. */
  lemma NeighboursSymmetric(c: Coordinate, d: Coordinate)
    ensures d in Neighbours(c) <==> c in Neighbours(d)
  {
    NeighboursMeaning(c, d);
    NeighboursMeaning(d, c);
  }

  /** The eight displacements from a cell to its neighbours. */
  const Offsets: set<(int, int)> := {(-1, -1), (-1, 0), (-1, 1), (0, -1), (0, 1), (1, -1), (1, 0), (1, 1)}

  function Shift(c: Coordinate, o: (int, int)): Coordinate
  {
    Coordinate(c.x + o.0, c.y + o.1)
  }

  /** Every cell next to some cell of `cells`, built from displacements rather than from `Neighbours`. */
  function NeighbourhoodUnion(cells: set<Coordinate>): set<Coordinate>
  {
    set l <- cells, o <- Offsets :: Shift(l, o)
  }

  lemma NeighbourhoodUnionMeaning(cells: set<Coordinate>, d: Coordinate)
    ensures d in NeighbourhoodUnion(cells) <==> exists l :: l in cells && Adjacent(l, d)
  {
    if d in NeighbourhoodUnion(cells) {
      var l, o :| l in cells && o in Offsets && d == Shift(l, o);
      assert Adjacent(l, d);
    }
    if exists l :: l in cells && Adjacent(l, d) {
      var l :| l in cells && Adjacent(l, d);
      var o := (d.x - l.x, d.y - l.y);
      assert o in Offsets;
      assert d == Shift(l, o);
    }
  }

  /** The dead cells next to at least one live cell: what `Life::AllDeadNeighbours` returns. */
  function DeadCandidates(live: set<Coordinate>): set<Coordinate>
  {
    NeighbourhoodUnion(live) - live
  }

  /** The dead candidates are disjoint from the live set and are exactly the dead cells next to a live one. */
  lemma DeadCandidatesMeaning(live: set<Coordinate>, c: Coordinate)
    ensures DeadCandidates(live) * live == {}
    ensures c in DeadCandidates(live) <==> c !in live && exists l :: l in live && Adjacent(l, c)
  {
    NeighbourhoodUnionMeaning(live, c);
  }

  /** The live cells adjacent to `c`. */
  function LiveNeighbours(live: set<Coordinate>, c: Coordinate): set<Coordinate>
  {
    set d | d in live && Adjacent(c, d)
  }

  /** The number of live cells among the eight neighbours of `c`. */
  function LiveNeighbourCount(live: set<Coordinate>, c: Coordinate): nat
  {
    |LiveNeighbours(live, c)|
  }

  /**
    The engine counts by intersecting the neighbourhood with the live set;
    that intersection is the set of live neighbours, so it has at most eight
    elements and its size is the count.
  */
  lemma IntersectionIsLiveNeighbours(live: set<Coordinate>, c: Coordinate)
    ensures Neighbours(c) * live == LiveNeighbours(live, c)
    ensures |Neighbours(c) * live| == LiveNeighbourCount(live, c) <= 8
  {
    forall d ensures d in Neighbours(c) * live <==> d in LiveNeighbours(live, c) {
      NeighboursMeaning(c, d);
    }
    SubsetCard(Neighbours(c) * live, Neighbours(c));
  }

  lemma SubsetCard<T>(a: set<T>, b: set<T>)
    requires a <= b
    ensures |a| <= |b|
  {
    assert b == a + (b - a);
  }

  /** `Life::Birth` as a value: dead candidates with exactly three live neighbours. */
  function Births(live: set<Coordinate>): set<Coordinate>
  {
    set c | c in DeadCandidates(live) && LiveNeighbourCount(live, c) == 3
  }

  /** `Life::SurvivalAndDeath` as a value: live cells with two or three live neighbours. */
  function Survivors(live: set<Coordinate>): set<Coordinate>
  {
    set c | c in live && (LiveNeighbourCount(live, c) == 2 || LiveNeighbourCount(live, c) == 3)
  }

  /** The live set of the next generation. */
  function Next(live: set<Coordinate>): set<Coordinate>
  {
    Births(live) + Survivors(live)
  }

  /** The rule B3/S2,3 for one cell: a live cell with two or three live neighbours stays, a dead one with three is born. */
  predicate LiveNext(live: set<Coordinate>, c: Coordinate)
  {
    (c in live && (LiveNeighbourCount(live, c) == 2 || LiveNeighbourCount(live, c) == 3))
    || (c !in live && LiveNeighbourCount(live, c) == 3)
  }

  /** The rule cell by cell: the sparse candidate search loses no birth. */
  lemma NextMembership(live: set<Coordinate>, c: Coordinate)
    ensures c in Next(live) <==> LiveNext(live, c)
  {
    if c !in live && LiveNeighbourCount(live, c) == 3 {
      var l :| l in LiveNeighbours(live, c);
      assert Adjacent(l, c);
      DeadCandidatesMeaning(live, c);
    }
  }

  /** A set that agrees with the rule on every cell is the next generation. */
  lemma NextByCells(live: set<Coordinate>, target: set<Coordinate>)
    requires forall c :: c in target <==> LiveNext(live, c)
    ensures Next(live) == target
  {
    forall c ensures c in Next(live) <==> c in target {
      NextMembership(live, c);
    }
  }

  /** Births and survivors never overlap, so no precedence between the two rules is needed. */
  lemma BirthsSurvivorsDisjoint(live: set<Coordinate>)
    ensures Births(live) * Survivors(live) == {}
    ensures Survivors(live) <= live && Births(live) * live == {}
  {
  }

  /** Every cell of the next generation is live now or next to a live cell. */
  lemma NextIsLocal(live: set<Coordinate>)
    ensures Next(live) <= live + DeadCandidates(live)
  {
  }

  /** `f` applied `k` times to `x`. */
  function Repeat<T>(f: T -> T, x: T, k: nat): T
  {
    if k == 0 then x else f(Repeat(f, x, k - 1))
  }

  /** Applying `f` `a` times and then `b` times is applying it `a + b` times. */
  lemma {:induction false} RepeatAdd<T>(f: T -> T, x: T, a: nat, b: nat)
    ensures Repeat(f, Repeat(f, x, a), b) == Repeat(f, x, a + b)
  {
    if b > 0 {
      RepeatAdd(f, x, a, b - 1);
    }
  }

  /** The live set after `k` generations. */
  function Iterate(live: set<Coordinate>, k: nat): set<Coordinate>
  {
    Repeat(Next, live, k)
  }

  /** One more generation is one more application of `Next`. */
  lemma IterateStep(live: set<Coordinate>, k: nat)
    ensures Iterate(live, k + 1) == Next(Iterate(live, k))
  {
  }

  /** Advancing `a` generations and then `b` is advancing `a + b`. */
  lemma {:induction false} IterateAdd(live: set<Coordinate>, a: nat, b: nat)
    ensures Iterate(Iterate(live, a), b) == Iterate(live, a + b)
  {
    RepeatAdd(Next, live, a, b);
  }

  /** A dead plane has no births and no survivors, for any number of generations. */
  lemma {:induction false} EmptyStaysEmpty(k: nat)
    ensures Iterate({}, k) == {}
  {
    if k > 0 {
      EmptyStaysEmpty(k - 1);
      NextIsLocal({});
    }
  }

  /** Adding one cell `x` to the live set raises the count at `c` by one exactly when `x` neighbours `c`. */
  lemma CountInsert(live: set<Coordinate>, x: Coordinate, c: Coordinate)
    requires x !in live
    ensures LiveNeighbourCount(live + {x}, c)
      == LiveNeighbourCount(live, c) + (if Adjacent(c, x) then 1 else 0)
  {
    var before := LiveNeighbours(live, c);
    if Adjacent(c, x) {
      assert LiveNeighbours(live + {x}, c) == before + {x};
    } else {
      assert LiveNeighbours(live + {x}, c) == before;
    }
  }
}
