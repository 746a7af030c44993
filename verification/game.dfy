/** The board: a fixed layout of mines, the queries the player asks of it, and the win test. */
module Game {
  import opened Wrappers
  import opened Cells

  /** A `height` by `width` board with its mines and the cells the player has flagged.
      The boolean grid of the source is the membership test `(i, j) in mines`. */
  datatype Board = Board(height: int, width: int, mines: set<Cell>, minesFound: set<Cell>)

  /** Every mine lies on the grid, as random placement over `height` by `width` guarantees. */
  ghost predicate Valid(b: Board) {
    forall m :: m in b.mines ==> InBounds(b.height, b.width, m)
  }

  /** Python list indexing: an index in `-n .. n-1` selects an element, negative ones
      counting from the end; anything else raises IndexError (None). */
  function ListIndex(i: int, n: int): (r: Option<nat>)
    ensures r.Some? <==> -n <= i < n
    ensures r.Some? ==> r.value < n && (r.value == i || r.value == i + n)
  {
    if 0 <= i < n then Some(i) else if -n <= i < 0 then Some(i + n) else None
  }

  /** Reads the grid at `c`; None stands for the IndexError an off-grid lookup raises.
      Negative coordinates wrap round as Python indexing does. */
  function IsMine(b: Board, c: Cell): (r: Option<bool>)
    ensures r.Some? <==> -b.height <= c.0 < b.height && -b.width <= c.1 < b.width
    ensures InBounds(b.height, b.width, c) ==> r == Some(c in b.mines)
    ensures r.Some? ==> r == Some(((if c.0 < 0 then c.0 + b.height else c.0),
                                   (if c.1 < 0 then c.1 + b.width else c.1)) in b.mines)
  {
    match (ListIndex(c.0, b.height), ListIndex(c.1, b.width))
    case (Some(i), Some(j)) => Some((i as int, j as int) in b.mines)
    case _ => None
  }

  /** The mines next to `c`: its in-bounds 3x3 block without `c` itself. */
  function NearbyMineCells(b: Board, c: Cell): set<Cell> {
    (Block(b.height, b.width, c) - {c}) * b.mines
  }

  /** The cells of the scan order visited before position `(i, j)` that `NearbyMines` counts. */
  ghost function Counted(b: Board, c: Cell, i: int, j: int): set<Cell> {
    set x | x in NearbyMineCells(b, c) && (x.0 < i || (x.0 == i && x.1 < j))
  }

  /** At most eight mines can surround a cell. */
  lemma NearbyAtMostEight(b: Board, c: Cell)
    ensures |NearbyMineCells(b, c)| <= 8
  {
    var (r, k) := c;
    var s := {(r - 1, k - 1)};
    s := s + {(r - 1, k)};
    s := s + {(r - 1, k + 1)};
    s := s + {(r, k - 1)};
    s := s + {(r, k + 1)};
    s := s + {(r + 1, k - 1)};
    s := s + {(r + 1, k)};
    s := s + {(r + 1, k + 1)};
    assert |s| <= 8;
    var n := NearbyMineCells(b, c);
    assert n <= s;
    assert s == n + (s - n);
  }

  /** One more position of the scan adds that position exactly when it is counted. */
  lemma CountedStep(b: Board, c: Cell, i: int, j: int)
    requires c.0 - 1 <= i <= c.0 + 1 && c.1 - 1 <= j <= c.1 + 1
    ensures Counted(b, c, i, j + 1) ==
            Counted(b, c, i, j) + (if (i, j) != c && InBounds(b.height, b.width, (i, j)) && (i, j) in b.mines
                                    then {(i, j)} else {})
  {
  }

  /** Finishing a row of the scan is starting the next one. */
  lemma CountedNextRow(b: Board, c: Cell, i: int)
    ensures Counted(b, c, i, c.1 + 2) == Counted(b, c, i + 1, c.1 - 1)
  {
  }

  /** The whole scan counts exactly the surrounding mines. */
  lemma CountedAll(b: Board, c: Cell)
    ensures Counted(b, c, c.0 + 2, c.1 - 1) == NearbyMineCells(b, c)
  {
  }

  /** Counts the mines around `c` by scanning its 3x3 block row by row, skipping `c`
      and positions off the grid. */
  method NearbyMines(b: Board, c: Cell) returns (count: nat)
    ensures count == |NearbyMineCells(b, c)|
    ensures count <= 8
  {
    count := 0;
    ghost var seen: set<Cell> := {};
    var i := c.0 - 1;
    while i < c.0 + 2
      invariant c.0 - 1 <= i <= c.0 + 2
      invariant seen == Counted(b, c, i, c.1 - 1)
      invariant count == |seen|
    {
      var j := c.1 - 1;
      while j < c.1 + 2
        invariant c.1 - 1 <= j <= c.1 + 2
        invariant seen == Counted(b, c, i, j)
        invariant count == |seen|
      {
        CountedStep(b, c, i, j);
        if (i, j) != c && 0 <= i < b.height && 0 <= j < b.width && (i, j) in b.mines {
          count := count + 1;
          seen := seen + {(i, j)};
        }
        j := j + 1;
      }
      CountedNextRow(b, c, i);
      i := i + 1;
    }
    CountedAll(b, c);
    NearbyAtMostEight(b, c);
  }

  /** The player has won when the flagged cells are exactly the mines. */
  function Won(b: Board): (r: bool)
    ensures r <==> (forall x :: x in b.minesFound <==> x in b.mines)
  {
    b.minesFound == b.mines
  }

  /** A missed mine or a wrongly flagged cell each rule out a win; a win flags as many
      cells as there are mines. */
  lemma WonNeedsExactFlags(b: Board)
    ensures (exists x :: x in b.mines && x !in b.minesFound) ==> !Won(b)
    ensures (exists x :: x in b.minesFound && x !in b.mines) ==> !Won(b)
    ensures Won(b) ==> |b.minesFound| == |b.mines|
  {
  }
}
