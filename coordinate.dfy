/**
  The coordinate value type: a pair of integers naming one cell of the
  unbounded grid, with component-wise equality and the lexicographic order
  that makes it usable as the key of an ordered set.
*/
module Coordinates {

  /** A cell position. The C++ struct stores two machine `int`s; here they are unbounded. */
  datatype Coordinate = Coordinate(x: int, y: int)

  /** `operator==`: true exactly when both components agree. */
  predicate Equal(a: Coordinate, b: Coordinate)
    ensures Equal(a, b) <==> a == b
  {
    a.x == b.x && a.y == b.y
  }

  /** `operator<`: compares `x` first and falls back to `y` when the `x`s agree. */
  predicate Less(a: Coordinate, b: Coordinate)
  {
    a.x < b.x || (a.x == b.x && a.y < b.y)
  }

  /** Lexicographic order on integer sequences, an independent reference for `Less`. */
  predicate SeqLess(s: seq<int>, t: seq<int>)
  {
    if s == [] then t != []
    else if t == [] then false
    else s[0] < t[0] || (s[0] == t[0] && SeqLess(s[1..], t[1..]))
  }

  /** `Less` is the lexicographic order on the component list `[x, y]`. */
  lemma LessIsLexicographic(a: Coordinate, b: Coordinate)
    ensures Less(a, b) <==> SeqLess([a.x, a.y], [b.x, b.y])
  {
    assert [a.x, a.y][1..] == [a.y] && [b.x, b.y][1..] == [b.y];
    assert [a.y][1..] == [] && [b.y][1..] == [];
    assert !SeqLess([], []);
    assert SeqLess([a.y], [b.y]) <==> a.y < b.y;
  }

  lemma LessIrreflexive(a: Coordinate)
    ensures !Less(a, a)
  {
  }

  lemma LessTransitive(a: Coordinate, b: Coordinate, c: Coordinate)
    requires Less(a, b) && Less(b, c)
    ensures Less(a, c)
  {
  }

  /** For any two coordinates exactly one of a < b, a == b, b < a holds. */
  lemma LessTrichotomous(a: Coordinate, b: Coordinate)
    ensures Less(a, b) || Equal(a, b) || Less(b, a)
    ensures !(Less(a, b) && Equal(a, b))
    && !(Less(a, b) && Less(b, a))
    && !(Equal(a, b) && Less(b, a))
  {
  }

  /**
    An ordered set treats two keys as the same when neither is less than the
    other; for `Less` that equivalence is exactly `Equal`, so the C++ ordered set and
    Dafny's `set` hold the same coordinates.
  */
  lemma LessEquivalenceIsEquality(a: Coordinate, b: Coordinate)
    ensures (!Less(a, b) && !Less(b, a)) <==> Equal(a, b)
  {
  }
}
