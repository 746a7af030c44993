/** The player's state and the operations that spread a new fact through its knowledge. */
module Engine {
  import opened Cells
  import opened Sentences

  /** Everything the player knows: the board size it was told, the cells it has revealed,
      the cells it has proved to be mines or safe, and its list of sentences.
      A fresh player is `AI(height, width, {}, {}, {}, [])`. */
  datatype AI = AI(height: int, width: int, movesMade: set<Cell>, mines: set<Cell>,
                   safes: set<Cell>, knowledge: seq<Sentence>)

  /** Record that `c` is a mine and tell every sentence. */
  function MarkMine(ai: AI, c: Cell): (r: AI)
    ensures r == ai.(mines := r.mines, knowledge := r.knowledge)
    ensures r.mines == ai.mines + {c}
    ensures |r.knowledge| == |ai.knowledge|
    ensures forall k :: 0 <= k < |r.knowledge| ==>
              r.knowledge[k].cells == ai.knowledge[k].cells - {c}
              && |r.knowledge[k].cells| - r.knowledge[k].count == |ai.knowledge[k].cells| - ai.knowledge[k].count
  {
    ai.(mines := ai.mines + {c},
        knowledge := seq(|ai.knowledge|, k requires 0 <= k < |ai.knowledge| => ai.knowledge[k].MarkMine(c)))
  }

  /** Record that `c` is safe and tell every sentence. */
  function MarkSafe(ai: AI, c: Cell): (r: AI)
    ensures r == ai.(safes := r.safes, knowledge := r.knowledge)
    ensures r.safes == ai.safes + {c}
    ensures |r.knowledge| == |ai.knowledge|
    ensures forall k :: 0 <= k < |r.knowledge| ==>
              r.knowledge[k].cells == ai.knowledge[k].cells - {c} && r.knowledge[k].count == ai.knowledge[k].count
  {
    ai.(safes := ai.safes + {c},
        knowledge := seq(|ai.knowledge|, k requires 0 <= k < |ai.knowledge| => ai.knowledge[k].MarkSafe(c)))
  }

  /** A sentence after every cell of `s` has been marked a mine. */
  function WithoutMines(t: Sentence, s: set<Cell>): Sentence {
    Sentence(t.cells - s, t.count - |t.cells * s|)
  }

  /** A sentence after every cell of `s` has been marked safe. */
  function WithoutSafes(t: Sentence, s: set<Cell>): Sentence {
    Sentence(t.cells - s, t.count)
  }

  /** The state after marking each cell of `s` as a mine, in any order. */
  function MarkMines(ai: AI, s: set<Cell>): (r: AI)
    ensures r == ai.(mines := r.mines, knowledge := r.knowledge)
    ensures r.mines == ai.mines + s
    ensures |r.knowledge| == |ai.knowledge|
    ensures forall k :: 0 <= k < |r.knowledge| ==>
              r.knowledge[k].cells == ai.knowledge[k].cells - s
              && |r.knowledge[k].cells| - r.knowledge[k].count == |ai.knowledge[k].cells| - ai.knowledge[k].count
  {
    ai.(mines := ai.mines + s,
        knowledge := seq(|ai.knowledge|, k requires 0 <= k < |ai.knowledge| => WithoutMines(ai.knowledge[k], s)))
  }

  /** The state after marking each cell of `s` as safe, in any order. */
  function MarkSafes(ai: AI, s: set<Cell>): (r: AI)
    ensures r == ai.(safes := r.safes, knowledge := r.knowledge)
    ensures r.safes == ai.safes + s
    ensures |r.knowledge| == |ai.knowledge|
    ensures forall k :: 0 <= k < |r.knowledge| ==>
              r.knowledge[k].cells == ai.knowledge[k].cells - s && r.knowledge[k].count == ai.knowledge[k].count
  {
    ai.(safes := ai.safes + s,
        knowledge := seq(|ai.knowledge|, k requires 0 <= k < |ai.knowledge| => WithoutSafes(ai.knowledge[k], s)))
  }

  /** Marking the cells of `cs` as mines one after another, as a loop over a set does:
      every listed cell becomes a mine and leaves every sentence, and each sentence
      keeps its number of safe cells. */
  function MarkMinesInOrder(ai: AI, cs: seq<Cell>): (r: AI)
    ensures r == ai.(mines := r.mines, knowledge := r.knowledge)
    ensures r.mines == ai.mines + (set c | c in cs)
    ensures |r.knowledge| == |ai.knowledge|
    ensures forall k :: 0 <= k < |r.knowledge| ==>
              r.knowledge[k].cells == ai.knowledge[k].cells - (set c | c in cs)
              && |r.knowledge[k].cells| - r.knowledge[k].count == |ai.knowledge[k].cells| - ai.knowledge[k].count
    decreases |cs|
  {
    if |cs| == 0 then ai
    else
      assert (set c | c in cs) == {cs[0]} + (set c | c in cs[1..]);
      MarkMinesInOrder(MarkMine(ai, cs[0]), cs[1..])
  }

  /** Marking the cells of `cs` as safe one after another: every listed cell becomes safe
      and leaves every sentence, and no count changes. */
  function MarkSafesInOrder(ai: AI, cs: seq<Cell>): (r: AI)
    ensures r == ai.(safes := r.safes, knowledge := r.knowledge)
    ensures r.safes == ai.safes + (set c | c in cs)
    ensures |r.knowledge| == |ai.knowledge|
    ensures forall k :: 0 <= k < |r.knowledge| ==>
              r.knowledge[k].cells == ai.knowledge[k].cells - (set c | c in cs)
              && r.knowledge[k].count == ai.knowledge[k].count
    decreases |cs|
  {
    if |cs| == 0 then ai
    else
      assert (set c | c in cs) == {cs[0]} + (set c | c in cs[1..]);
      MarkSafesInOrder(MarkSafe(ai, cs[0]), cs[1..])
  }

  /** The order in which the cells of a set are marked as mines does not matter, and
      repeating a cell changes nothing: any enumeration gives `MarkMines`. */
  lemma MarkMinesAnyOrder(ai: AI, cs: seq<Cell>)
    ensures MarkMinesInOrder(ai, cs) == MarkMines(ai, set c | c in cs)
  {
    var s := set c | c in cs;
    var a := MarkMinesInOrder(ai, cs);
    var b := MarkMines(ai, s);
    forall k | 0 <= k < |ai.knowledge|
      ensures a.knowledge[k] == b.knowledge[k]
    {
      DifferenceSize(ai.knowledge[k].cells, s);
    }
    assert a.knowledge == b.knowledge;
    assert a.mines == b.mines;
  }

  /** The order in which the cells of a set are marked safe does not matter. */
  lemma MarkSafesAnyOrder(ai: AI, cs: seq<Cell>)
    ensures MarkSafesInOrder(ai, cs) == MarkSafes(ai, set c | c in cs)
  {
  }

  /** The 3x3 block around `c` clamped at the edges, minus the cells already known safe.
      The bottom edge is only clamped when the top one was not, and likewise on the right. */
  function Neighbours(ai: AI, c: Cell): (r: set<Cell>)
    ensures forall x :: x in r ==> x !in ai.safes && Adjacent(x, c)
  {
    var up := if c.0 == 0 then c.0 else c.0 - 1;
    var down := if c.0 != 0 && c.0 == ai.height - 1 then ai.height - 1 else c.0 + 1;
    var left := if c.1 == 0 then c.1 else c.1 - 1;
    var right := if c.1 != 0 && c.1 == ai.width - 1 then ai.width - 1 else c.1 + 1;
    set row, col | up <= row <= down && left <= col <= right && (row, col) !in ai.safes :: (row, col)
  }

  /** On a board at least two cells high and wide, the neighbours of an on-grid cell are
      exactly its in-bounds 3x3 block less the known safe cells. */
  lemma NeighboursClamped(ai: AI, c: Cell)
    requires ai.height >= 2 && ai.width >= 2 && InBounds(ai.height, ai.width, c)
    ensures Neighbours(ai, c) == Block(ai.height, ai.width, c) - ai.safes
  {
  }

  /** On a board one row high the bottom edge is never clamped: the row below the grid
      is offered as neighbours. */
  lemma NeighboursOneRowLeaks(ai: AI, c: Cell)
    requires ai.height == 1 && c.0 == 0 && (1, c.1) !in ai.safes
    ensures (1, c.1) in Neighbours(ai, c) && !InBounds(ai.height, ai.width, (1, c.1))
  {
  }

  /** The player's knowledge is true of the mine layout `m`: its mines are mines, its safe
      cells are not, and every sentence holds. */
  ghost predicate Sound(ai: AI, m: set<Cell>) {
    && ai.mines <= m
    && ai.safes !! m
    && forall k :: 0 <= k < |ai.knowledge| ==> ai.knowledge[k].Holds(m)
  }

  /** A fresh player for a `height` by `width` board: it knows nothing, so nothing it
      knows is false, whatever the layout. */
  function NewAI(height: int, width: int): (r: AI)
    ensures r.height == height && r.width == width && r.movesMade == {} && |r.knowledge| == 0
    ensures forall m :: Sound(r, m)
  {
    AI(height, width, {}, {}, {}, [])
  }

  /** Knowledge true of some layout never calls one cell both a mine and safe. */
  lemma SoundDisjoint(ai: AI, m: set<Cell>)
    requires Sound(ai, m)
    ensures ai.mines !! ai.safes
  {
  }

  /** Marking real mines keeps true knowledge true. */
  lemma MarkMinesSound(ai: AI, s: set<Cell>, m: set<Cell>)
    requires Sound(ai, m) && s <= m
    ensures Sound(MarkMines(ai, s), m)
  {
    var r := MarkMines(ai, s);
    forall k | 0 <= k < |r.knowledge|
      ensures r.knowledge[k].Holds(m)
    {
      var t := ai.knowledge[k];
      assert t.cells * m == ((t.cells - s) * m) + (t.cells * s);
      assert ((t.cells - s) * m) !! (t.cells * s);
    }
  }

  /** Marking real safe cells keeps true knowledge true. */
  lemma MarkSafesSound(ai: AI, s: set<Cell>, m: set<Cell>)
    requires Sound(ai, m) && s !! m
    ensures Sound(MarkSafes(ai, s), m)
  {
    var r := MarkSafes(ai, s);
    forall k | 0 <= k < |r.knowledge|
      ensures r.knowledge[k].Holds(m)
    {
      var t := ai.knowledge[k];
      assert (t.cells - s) * m == t.cells * m;
    }
  }

  /** Marking a real safe cell keeps true knowledge true. */
  lemma MarkSafeSound(ai: AI, c: Cell, m: set<Cell>)
    requires Sound(ai, m) && c !in m
    ensures Sound(MarkSafe(ai, c), m)
  {
    forall k | 0 <= k < |ai.knowledge|
      ensures MarkSafe(ai, c).knowledge[k].Holds(m)
    {
      MarkSafeHolds(ai.knowledge[k], c, m);
    }
  }
}
