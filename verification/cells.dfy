/** Board coordinates, neighbourhoods, and the set-size facts the other modules share. */
module Cells {

  /** A board position `(row, column)`. Python tuples compare by value, and so do these. */
  type Cell = (int, int)

  /** The cell lies on a `height` by `width` grid. */
  predicate InBounds(height: int, width: int, c: Cell) {
    0 <= c.0 < height && 0 <= c.1 < width
  }

  /** `a` is at row distance and column distance at most one from `b` (it may be `b` itself). */
  predicate Adjacent(a: Cell, b: Cell) {
    -1 <= a.0 - b.0 <= 1 && -1 <= a.1 - b.1 <= 1
  }

  /** The in-bounds cells of the 3x3 block centred on `c`, centre included. */
  function Block(height: int, width: int, c: Cell): (r: set<Cell>)
    ensures forall x :: x in r <==> Adjacent(x, c) && InBounds(height, width, x)
  {
    set x, y | c.0 - 1 <= x <= c.0 + 1 && c.1 - 1 <= y <= c.1 + 1 && InBounds(height, width, (x, y)) :: (x, y)
  }

  /** A subset is no larger than its superset, and a proper subset is smaller. */
  lemma SubsetSize<T>(a: set<T>, b: set<T>)
    requires a <= b
    ensures |a| <= |b|
    ensures a < b ==> |a| < |b|
  {
    assert b == a + (b - a);
    if a < b {
      var x :| x in b - a;
      assert x in b - a;
    }
  }

  /** A subset of the same size is the whole set. */
  lemma SubsetSameSize<T>(a: set<T>, b: set<T>)
    requires a <= b && |a| == |b|
    ensures a == b
  {
    assert |b - a| == 0;
  }

  /** Removing `s` from `a` removes exactly the elements they share. */
  lemma DifferenceSize<T>(a: set<T>, s: set<T>)
    ensures |a - s| == |a| - |a * s|
  {
    assert a == (a - s) + (a * s);
    assert (a - s) !! (a * s);
  }
}
