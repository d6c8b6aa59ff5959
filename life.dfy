/**
  The engine: a class holding the live cells of the current generation, the
  generation counter and the scratch set in which the next generation is
  assembled. Every method is proved against the functions of `LifeRules`.
*/
module GameOfLife {
  import opened Coordinates
  import opened LifeRules

  class Life {
    /** The live cells of the current generation. */
    var liveCells: set<Coordinate>
    /** The current generation; a new game starts at 0. */
    var gen: nat
    /** Scratch set for the next generation, filled by `Birth` and `SurvivalAndDeath`. */
    var liveCellsNextGen: set<Coordinate>

    /** Between two calls the scratch set is empty. */
    ghost predicate Valid()
      reads this
    {
      liveCellsNextGen == {}
    }

    /** A new game at generation 0 whose live cells are the given set. */
    constructor (initial: set<Coordinate>)
      ensures Valid()
      ensures liveCells == initial && gen == 0
    {
      liveCells := initial;
      gen := 0;
      liveCellsNextGen := {};
    }

    /** Replaces the live cells by the next generation and counts one generation more. */
    method AdvanceOne()
      requires Valid()
      modifies this
      ensures Valid()
      ensures liveCells == Next(old(liveCells))
      ensures gen == old(gen) + 1
    {
      Birth();
      SurvivalAndDeath();
      liveCells := liveCellsNextGen;
      liveCellsNextGen := {};
      gen := gen + 1;
    }

    /** Advances one generation at a time until generation `n`; does nothing when `n` is not ahead. */
    method AdvanceTo(n: nat)
      requires Valid()
      modifies this
      ensures Valid()
      ensures gen == if n <= old(gen) then old(gen) else n
      ensures liveCells == Iterate(old(liveCells), gen - old(gen))
      ensures n <= old(gen) ==> liveCells == old(liveCells)
    {
      ghost var k: nat := 0;
      while gen < n
        invariant Valid()
        invariant gen == old(gen) + k
        invariant gen <= if n <= old(gen) then old(gen) else n
        invariant liveCells == Iterate(old(liveCells), k)
        decreases n - gen
      {
        AdvanceOne();
        IterateStep(old(liveCells), k);
        k := k + 1;
      }
    }

    /** The current generation. */
    method Gen() returns (g: nat)
      ensures g == gen
    {
      g := gen;
    }

    /** The number of live cells in the current generation. */
    method CardLiveCells() returns (count: nat)
      ensures count == |liveCells|
    {
      count := |liveCells|;
    }

    /** Gathers the neighbourhoods of all live cells, then removes the live cells. */
    method AllDeadNeighbours() returns (deadnbrs: set<Coordinate>)
      ensures deadnbrs == DeadCandidates(liveCells)
    {
      var dn: set<Coordinate> := {};
      var todo := liveCells;
      while todo != {}
        invariant todo <= liveCells
        invariant dn == NeighbourhoodUnion(liveCells - todo)
        decreases todo
      {
        var c :| c in todo;
        UnionGrows(liveCells - todo, c);
        dn := dn + Neighbours(c);
        todo := todo - {c};
        assert liveCells - todo == (liveCells - (todo + {c})) + {c};
      }
      deadnbrs := dn - liveCells;
    }

    /** Adds to the scratch set every dead candidate with exactly three live neighbours. */
    method Birth()
      modifies this`liveCellsNextGen
      ensures liveCellsNextGen == old(liveCellsNextGen) + Births(liveCells)
    {
      var count: set<Coordinate> := {};
      var deadCells := AllDeadNeighbours();
      var todo := deadCells;
      while todo != {}
        invariant todo <= deadCells
        invariant count == {}
        invariant liveCellsNextGen == old(liveCellsNextGen) + Births(liveCells) * (deadCells - todo)
        decreases todo
      {
        var c :| c in todo;
        var nbrs := Neighbours(c);
        count := count + nbrs * liveCells;
        IntersectionIsLiveNeighbours(liveCells, c);
        if |count| == 3 {
          liveCellsNextGen := liveCellsNextGen + {c};
        }
        count := {};
        todo := todo - {c};
      }
    }

    /** Adds to the scratch set every live cell with two or three live neighbours. */
    method SurvivalAndDeath()
      modifies this`liveCellsNextGen
      ensures liveCellsNextGen == old(liveCellsNextGen) + Survivors(liveCells)
    {
      var count: set<Coordinate> := {};
      var todo := liveCells;
      while todo != {}
        invariant todo <= liveCells
        invariant count == {}
        invariant liveCellsNextGen == old(liveCellsNextGen) + Survivors(liveCells) * (liveCells - todo)
        decreases todo
      {
        var c :| c in todo;
        var nbrs := Neighbours(c);
        count := count + nbrs * liveCells;
        IntersectionIsLiveNeighbours(liveCells, c);
        if |count| == 2 || |count| == 3 {
          liveCellsNextGen := liveCellsNextGen + {c};
        }
        count := {};
        todo := todo - {c};
      }
    }
  }

  /** Adding one cell to a set adds its neighbourhood to the union of neighbourhoods. */
  lemma UnionGrows(cells: set<Coordinate>, c: Coordinate)
    ensures NeighbourhoodUnion(cells + {c}) == NeighbourhoodUnion(cells) + Neighbours(c)
  {
    forall d ensures d in NeighbourhoodUnion(cells + {c}) <==> d in NeighbourhoodUnion(cells) + Neighbours(c) {
      NeighbourhoodUnionMeaning(cells + {c}, d);
      NeighbourhoodUnionMeaning(cells, d);
      NeighboursMeaning(c, d);
    }
  }
}
