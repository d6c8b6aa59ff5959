# Sparse Game of Life in Dafny

This project models a sparse engine for Conway's Game of Life, written in C++ in `Source.cpp`. Only the live cells are stored: they form an ordered set of integer coordinates. One generation is computed in two passes over sets:

- **Birth** looks at every dead cell next to a live one. A dead cell whose neighbourhood meets the live set in exactly three cells enters the next generation.
- **SurvivalAndDeath** looks at every live cell. A live cell whose neighbourhood meets the live set in two or three cells stays.

Then the next generation replaces the current one, the scratch set is emptied and the generation counter goes up by one.

The model has four modules:

- `Coordinates` (`coordinate.dfy`): the `Coordinate` value type, its component-wise equality and its lexicographic order. It also proves that the order is a strict total order whose equivalence is equality, which is why an ordered set keyed by it holds exactly Dafny's `set<Coordinate>`.
- `LifeRules` (`rules.dfy`): the rule set B3/S2,3 as pure functions. These are the Moore neighbourhood, the dead candidates, births, survivors, one generation (`Next`) and `k` generations (`Iterate`), with lemmas about each.
- `GameOfLife` (`life.dfy`): the class `Life`. It holds the fields `liveCells`, `gen` and `liveCellsNextGen`. Its loops run over a shrinking copy of a set, and every method that computes a generation is proved against the functions of `LifeRules`. The class invariant `Valid()` says that the scratch set `liveCellsNextGen` is empty between calls. The C++ class keeps that set private and always erases it at the end of `AdvanceOne`.
- `Scenarios` (`scenarios.dfy`): the program's demonstration configurations. Each one is proved twice: as a lemma that computes the full next generation, and as a method that builds a fresh `Life`, advances it and reads back what the demonstration looks at.

## Model

| member | source | states |
|---|---|---|
| Coordinates.Equal | Source.cpp:51-55 | two coordinates are equal exactly when both components agree, i.e. exactly when they are the same value |
| Coordinates.Less | Source.cpp:61-66 | compares `x` first and uses `y` only when the `x` values are equal; its meaning is given by LessIsLexicographic and the order lemmas |
| Coordinates.LessIsLexicographic | Source.cpp:61-66 | `Less(a, b)` holds exactly when `[a.x, a.y]` is lexicographically smaller than `[b.x, b.y]`, using an independent recursive definition of lexicographic order |
| Coordinates.LessIrreflexive | Source.cpp:61-66 | no coordinate is less than itself |
| Coordinates.LessTransitive | Source.cpp:61-66 | the order is transitive |
| Coordinates.LessTrichotomous | Source.cpp:61-66 | for any two coordinates exactly one of a < b, a == b, b < a holds |
| Coordinates.LessEquivalenceIsEquality | Source.cpp:61-66 | two coordinates that are not less than each other are equal, so the C++ ordered set identifies no distinct cells |
| LifeRules.Neighbours | Source.cpp:194-208 | the neighbourhood has exactly eight cells and never contains its centre |
| LifeRules.NeighboursMeaning | Source.cpp:194-208 | a cell is in the neighbourhood of `c` exactly when it differs from `c` and each of its coordinates is within one of `c`'s |
| LifeRules.NeighboursSymmetric | Source.cpp:194-208 | `d` neighbours `c` exactly when `c` neighbours `d` |
| LifeRules.NeighbourhoodUnionMeaning | Source.cpp:227-231 | the union of the neighbourhoods of a set of cells holds exactly the cells adjacent to some member of the set |
| LifeRules.DeadCandidatesMeaning | Source.cpp:222-237 | the dead candidates are disjoint from the live set, and a cell is a candidate exactly when it is dead and adjacent to at least one live cell |
| LifeRules.IntersectionIsLiveNeighbours | Source.cpp:259-261 | the intersection of a neighbourhood with the live set is the set of live neighbours, and its size is the live-neighbour count, at most eight |
| LifeRules.CountInsert | Source.cpp:259-261 | adding a dead cell `x` to the live set raises the count at `c` by one when `x` neighbours `c`, and leaves it unchanged otherwise |
| LifeRules.NextMembership | Source.cpp:131-140 | a cell is live in the next generation exactly when it is live with two or three live neighbours, or dead with exactly three; so searching only the dead candidates misses no birth |
| LifeRules.NextByCells | Source.cpp:131-140 | any set that agrees with the rule on every cell is the next generation |
| LifeRules.BirthsSurvivorsDisjoint | Source.cpp:134-135 | births and survivors never overlap; survivors are live now and births are dead now |
| LifeRules.NextIsLocal | Source.cpp:134-135 | every cell of the next generation is live now or adjacent to a live cell |
| LifeRules.RepeatAdd | Source.cpp:146-149 | applying a step `a` times and then `b` times is applying it `a + b` times |
| LifeRules.IterateStep | Source.cpp:146-149 | one more generation is one more application of `Next` |
| LifeRules.IterateAdd | Source.cpp:146-149 | advancing `a` generations and then `b` is advancing `a + b`, so successive calls to `AdvanceTo` compose |
| LifeRules.EmptyStaysEmpty | Source.cpp:353-359 | a game with no live cells has none after any number of generations |
| GameOfLife.Life.constructor | Source.cpp:112-116 | a new game holds the given live cells, is at generation 0 and has an empty scratch set |
| GameOfLife.Life.AdvanceOne | Source.cpp:131-140 | the live cells become `Next` of the old live cells, the scratch set is left empty and the generation goes up by exactly one |
| GameOfLife.Life.AdvanceTo | Source.cpp:146-149 | the generation becomes the larger of the old generation and `n`; the live cells are the old ones advanced by the number of generations gained; when `n` is not ahead nothing changes |
| GameOfLife.Life.Gen | Source.cpp:156-159 | returns the current generation |
| GameOfLife.Life.CardLiveCells | Source.cpp:165-168 | returns the number of live cells |
| GameOfLife.Life.AllDeadNeighbours | Source.cpp:222-237 | returns exactly the dead candidates of the current live set, and changes nothing |
| GameOfLife.Life.Birth | Source.cpp:250-267 | the scratch set gains exactly the dead candidates with three live neighbours; nothing is removed from it and no other field changes |
| GameOfLife.Life.SurvivalAndDeath | Source.cpp:278-296 | the scratch set gains exactly the live cells with two or three live neighbours; nothing is removed from it and no other field changes |
| GameOfLife.UnionGrows | Source.cpp:227-231 | adding a cell to a set adds that cell's neighbourhood to the union of neighbourhoods, which is what one iteration of the collecting loop does |
| Scenarios.EmptyGame | Source.cpp:353-359 | the empty game is empty one generation later |
| Scenarios.SingleNeighbourDies | Source.cpp:365-371 | with `(0,0)` and `(1,1)` live, the origin dies, and so does every other cell |
| Scenarios.OvercrowdedDies | Source.cpp:377-383 | with the origin and its four diagonal neighbours live, the origin dies; the next generation is exactly the four orthogonal neighbours of the origin |
| Scenarios.TwoNeighboursSurvives | Source.cpp:389-395 | with `(0,0)`, `(1,1)` and `(1,0)` live, the origin survives; the next generation is the 2x2 block |
| Scenarios.ThreeNeighboursBirth | Source.cpp:401-407 | with `(1,0)`, `(-1,0)` and `(0,1)` live, the dead origin is born; the next generation is exactly `(0,0)` and `(0,1)` |
| Scenarios.BlinkerTurns | Source.cpp:418-426 | the horizontal blinker becomes the vertical one |
| Scenarios.BlinkerTurnsBack | Source.cpp:418-426 | the vertical blinker becomes the horizontal one |
| Scenarios.BlinkerPeriodTwo | Source.cpp:418-426 | after one generation the blinker is vertical, and after two it is horizontal again |
| Scenarios.RunOnce | Source.cpp:112-140 | a fresh game advanced once is at generation 1 and holds `Next` of its initial cells |
| Scenarios.EmptyScenario | Source.cpp:353-359 | the empty game run once is at generation 1 with no live cells |
| Scenarios.SingleNeighbourScenario | Source.cpp:365-371 | that game run once is at generation 1 with the origin dead |
| Scenarios.OvercrowdedScenario | Source.cpp:377-383 | that game run once is at generation 1 with the origin dead |
| Scenarios.SurvivalScenario | Source.cpp:389-395 | that game run once is at generation 1 with the origin live |
| Scenarios.BirthScenario | Source.cpp:401-407 | that game run once is at generation 1 with the origin live |
| Scenarios.BlinkerScenario | Source.cpp:418-426 | the blinker game advanced twice is vertical after the first step and horizontal after the second, at generation 2 |

## Left out

- Printing: the stream operators for `Coordinate` (Source.cpp:77-81) and for `Life` (Source.cpp:302-320) are output only, so they are not modelled.
- `Centre` (Source.cpp:335-340) only pads console headers, so it is not modelled.
- `Scenario0` to `Scenario6` and `main` (Source.cpp:353-449): each scenario builds a game, advances it and prints it, and `main` calls them in turn between printed headers. Only their configurations are modelled, as the lemmas and methods of `Scenarios`; the printing is not.
- The default constructor `Coordinate()` (Source.cpp:42) is not modelled. Its comment promises `(0,0)`, but it declares two new locals that shadow the fields and leaves `X` and `Y` uninitialised, and nothing in the engine uses it.
- The comment at Source.cpp:183 speaks of nine neighbouring cells. The code builds eight, and the model follows the code.
- Coordinates are unbounded integers. The C++ `int` arithmetic `X ± 1` in `Neighbours` (Source.cpp:197-204) can overflow at the edge of the `int` range, and the model does not represent that.
- `GameOfLife.Life.AdvanceOne`: the generation counter is a `nat`. The C++ `unsigned` wrap-around of `gen += 1` (Source.cpp:139) is not modelled.
- `GameOfLife.Life.CardLiveCells`: returns the exact size. The conversion of `size()` to `unsigned` (Source.cpp:167) could truncate on sets past 2^32 cells, and the model does not represent that.
- Iteration order: the C++ loops visit cells in ascending lexicographic order. The model picks an arbitrary remaining cell each time. No result depends on the order, because each step only inserts into a set.
- Calls modelled as assignments: `set_intersection` into the cleared `count` set, `set_difference` at the end of `AllDeadNeighbours`, and the range insert of `dn.insert` are set operations here. Their iterator mechanics are not modelled.
