/** The player's public operations: taking in a revealed cell and choosing the next move. */
module Player {
  import opened Wrappers
  import opened Cells
  import opened Sentences
  import opened Engine
  import opened Resolution
  import opened Reduction
  import Game

  /** The first four steps of taking in a revealed cell `c` with `count` mines around it:
      record the move, mark `c` safe, and append the sentence "`count` of the neighbours of
      `c` are mines". */
  function Observe(ai: AI, c: Cell, count: int): (r: AI)
    ensures r.height == ai.height && r.width == ai.width
    ensures r.movesMade == ai.movesMade + {c} && r.mines == ai.mines && r.safes == ai.safes + {c}
    ensures |r.knowledge| == |ai.knowledge| + 1
    ensures forall k :: 0 <= k < |r.knowledge| ==> c !in r.knowledge[k].cells
    ensures r.knowledge[|ai.knowledge|].count == count
    ensures forall x :: x in r.knowledge[|ai.knowledge|].cells ==> Adjacent(x, c) && x !in r.safes
    ensures forall k :: 0 <= k < |ai.knowledge| ==> r.knowledge[k] == ai.knowledge[k].MarkSafe(c)
    ensures ai.height >= 2 && ai.width >= 2 && InBounds(ai.height, ai.width, c) ==>
              r.knowledge[|ai.knowledge|].cells == Block(ai.height, ai.width, c) - (ai.safes + {c})
  {
    var a1 := MarkSafe(ai.(movesMade := ai.movesMade + {c}), c);
    var n := Neighbours(a1, c);
    assert ai.height >= 2 && ai.width >= 2 && InBounds(ai.height, ai.width, c) ==>
             n == Block(ai.height, ai.width, c) - (ai.safes + {c}) by {
      if ai.height >= 2 && ai.width >= 2 && InBounds(ai.height, ai.width, c) {
        NeighboursClamped(a1, c);
      }
    }
    a1.(knowledge := a1.knowledge + [Sentence(n, count)])
  }

  /** The board reports that the safe cell `c` has `count` mines around it. The player
      takes it in, resolves to a fixed point and then runs one pass of subset reduction. */
  function AddKnowledge(ai: AI, c: Cell, count: int): (r: AI)
    ensures r.height == ai.height && r.width == ai.width
    ensures r.movesMade == ai.movesMade + {c}
    ensures ai.mines <= r.mines && ai.safes + {c} <= r.safes
    ensures |r.knowledge| == |ai.knowledge| + 1
    ensures forall k :: 0 <= k < |r.knowledge| ==> c !in r.knowledge[k].cells
    ensures forall x :: x in r.knowledge[|ai.knowledge|].cells ==> Adjacent(x, c)
  {
    var a2 := Observe(ai, c, count);
    var a3 := Update(a2);
    SubsetPassShrinks(a3.knowledge);
    a3.(knowledge := SubsetPass(a3.knowledge))
  }

  /** Taking in a cell really runs inference: the result is some resolved refinement of the
      observed state, every sentence of it settled, followed by one subset-reduction pass. */
  lemma AddKnowledgeShape(ai: AI, c: Cell, count: int)
    ensures exists u :: && Progress(Observe(ai, c, count), u)
                        && (forall k :: 0 <= k < |u.knowledge| ==> u.knowledge[k].Settled())
                        && AddKnowledge(ai, c, count) == u.(knowledge := SubsetPass(u.knowledge))
  {
    var u := Update(Observe(ai, c, count));
    assert AddKnowledge(ai, c, count) == u.(knowledge := SubsetPass(u.knowledge));
  }

  /** When the observed knowledge is true of some layout, every sentence of it that says
      "all mines" or "all safe" has all its cells classified accordingly after the cell is
      taken in. */
  lemma AddKnowledgeResolves(ai: AI, c: Cell, count: int, m: set<Cell>)
    requires Sound(Observe(ai, c, count), m)
    ensures var o := Observe(ai, c, count);
            forall k :: 0 <= k < |o.knowledge| && o.knowledge[k].KnownMines().Some? ==>
              o.knowledge[k].cells <= AddKnowledge(ai, c, count).mines
    ensures var o := Observe(ai, c, count);
            forall k :: 0 <= k < |o.knowledge| && o.knowledge[k].KnownSafes().Some? ==>
              o.knowledge[k].cells <= AddKnowledge(ai, c, count).safes
  {
    var o := Observe(ai, c, count);
    var r := AddKnowledge(ai, c, count);
    assert r.mines == Update(o).mines && r.safes == Update(o).safes;
    forall k | 0 <= k < |o.knowledge| && o.knowledge[k].KnownMines().Some?
      ensures o.knowledge[k].cells <= r.mines
    {
      UpdateMarksKnownMines(o, k, m);
    }
    forall k | 0 <= k < |o.knowledge| && o.knowledge[k].KnownSafes().Some?
      ensures o.knowledge[k].cells <= r.safes
    {
      UpdateMarksKnownSafes(o, k, m);
    }
  }

  /** Around an on-grid cell that is not a mine, the neighbours the player builds its
      sentence from contain exactly the board's surrounding mines, provided the player's
      safe cells are not mines. This holds on one-row and one-column boards too: the
      off-grid cells offered there are never mines. */
  lemma NeighbourMines(ai: AI, b: Game.Board, c: Cell)
    requires Game.Valid(b) && ai.height == b.height && ai.width == b.width
    requires InBounds(b.height, b.width, c) && c !in b.mines && ai.safes !! b.mines
    ensures Neighbours(ai, c) * b.mines == Game.NearbyMineCells(b, c)
  {
    var n := Neighbours(ai, c);
    forall x | x in Game.NearbyMineCells(b, c)
      ensures x in n
    {
      assert x !in ai.safes;
    }
  }

  /** Fed true counts for safe on-grid cells, the player only ever learns true things: its
      mines are mines, its safe cells are not, and all of its sentences hold. */
  lemma AddKnowledgeSound(ai: AI, b: Game.Board, c: Cell)
    requires Game.Valid(b) && ai.height == b.height && ai.width == b.width
    requires InBounds(b.height, b.width, c) && c !in b.mines
    requires Sound(ai, b.mines)
    ensures Sound(AddKnowledge(ai, c, |Game.NearbyMineCells(b, c)|), b.mines)
  {
    var m := b.mines;
    var a0 := ai.(movesMade := ai.movesMade + {c});
    var a1 := MarkSafe(a0, c);
    MarkSafeSound(a0, c, m);
    NeighbourMines(a1, b, c);
    var a2 := Observe(ai, c, |Game.NearbyMineCells(b, c)|);
    assert a2.knowledge == a1.knowledge + [Sentence(Neighbours(a1, c), |Game.NearbyMineCells(b, c)|)];
    assert Sound(a2, m);
    var a3 := Update(a2);
    UpdateSound(a2, m);
    SubsetPassSound(a3.knowledge, m);
  }

  /** A game: the board reveals the cells of `cs` one after another, each with its true
      count of surrounding mines. */
  function Play(ai: AI, b: Game.Board, cs: seq<Cell>): AI
    decreases |cs|
  {
    if |cs| == 0 then ai else Play(AddKnowledge(ai, cs[0], |Game.NearbyMineCells(b, cs[0])|), b, cs[1..])
  }

  /** Over a whole game of safe reveals the player's played, mine and safe sets only grow,
      and starting from a fresh player it never calls a safe cell a mine, a mine safe, or
      one cell both. */
  lemma {:induction false} PlaySound(ai: AI, b: Game.Board, cs: seq<Cell>)
    requires Game.Valid(b) && ai.height == b.height && ai.width == b.width
    requires forall k :: 0 <= k < |cs| ==> InBounds(b.height, b.width, cs[k]) && cs[k] !in b.mines
    requires Sound(ai, b.mines)
    ensures var r := Play(ai, b, cs);
            && ai.movesMade <= r.movesMade && ai.mines <= r.mines && ai.safes <= r.safes
            && Sound(r, b.mines) && r.mines !! r.safes
    decreases |cs|
  {
    if |cs| == 0 {
      SoundDisjoint(ai, b.mines);
    } else {
      AddKnowledgeSound(ai, b, cs[0]);
      PlaySound(AddKnowledge(ai, cs[0], |Game.NearbyMineCells(b, cs[0])|), b, cs[1..]);
    }
  }

  /** On a board one row high and three wide, revealing `(0, 0)` with no mines around it
      makes the player put the off-grid cells `(1, 0)` and `(1, 1)` among its safe,
      unplayed cells, next to the real neighbour `(0, 1)`. */
  lemma OneRowBoardOffersOffGridCells()
    ensures var r := AddKnowledge(NewAI(1, 3), (0, 0), 0);
            {(0, 1), (1, 0), (1, 1)} <= r.safes - r.movesMade
  {
    var m := {(0, 2)};
    var ai := NewAI(1, 3);
    var a2 := Observe(ai, (0, 0), 0);
    var n := Neighbours(MarkSafe(ai.(movesMade := {(0, 0)}), (0, 0)), (0, 0));
    assert n == {(0, 1), (1, 0), (1, 1)} by {
      assert (0, 1) in n && (1, 0) in n && (1, 1) in n;
    }
    assert a2.knowledge == [Sentence(n, 0)];
    assert Sound(a2, m) by {
      assert n * m == {};
    }
    UpdateMarksKnownSafes(a2, 0, m);
  }

  /** Some safe cell not yet played, or None when every known safe cell has been played.
      The state is a value and is left as it was. */
  method MakeSafeMove(ai: AI) returns (move: Option<Cell>)
    ensures move.Some? ==> move.value in ai.safes && move.value !in ai.movesMade
    ensures move.None? <==> ai.safes <= ai.movesMade
  {
    var rest := ai.safes;
    while rest != {}
      invariant rest <= ai.safes
      invariant ai.safes - rest <= ai.movesMade
      decreases rest
    {
      var x :| x in rest;
      if x !in ai.movesMade {
        return Some(x);
      }
      rest := rest - {x};
    }
    return None;
  }

  /** The cells of the fixed 8x8 grid that are neither played nor known mines. */
  predicate RandomCandidate(ai: AI, x: Cell) {
    InBounds(8, 8, x) && x !in ai.movesMade && x !in ai.mines
  }

  /** Lists the candidate cells of the 8x8 grid in row order and picks any of them, or
      returns None when there are none. The grid size is fixed whatever the board's size. */
  method MakeRandomMove(ai: AI) returns (move: Option<Cell>)
    ensures move.Some? ==> RandomCandidate(ai, move.value)
    ensures move.None? <==> forall i, j :: 0 <= i < 8 && 0 <= j < 8 ==> !RandomCandidate(ai, (i, j))
  {
    var candidates: seq<Cell> := [];
    var i := 0;
    while i < 8
      invariant 0 <= i <= 8
      invariant forall x :: x in candidates ==> RandomCandidate(ai, x)
      invariant forall a, b :: 0 <= a < i && 0 <= b < 8 && RandomCandidate(ai, (a, b)) ==> (a, b) in candidates
    {
      var j := 0;
      while j < 8
        invariant 0 <= j <= 8
        invariant forall x :: x in candidates ==> RandomCandidate(ai, x)
        invariant forall a, b :: 0 <= a < i && 0 <= b < 8 && RandomCandidate(ai, (a, b)) ==> (a, b) in candidates
        invariant forall b :: 0 <= b < j && RandomCandidate(ai, (i, b)) ==> (i, b) in candidates
      {
        if (i, j) !in ai.movesMade && (i, j) !in ai.mines {
          candidates := candidates + [(i, j)];
        }
        j := j + 1;
      }
      i := i + 1;
    }
    if |candidates| > 0 {
      var k :| 0 <= k < |candidates|;
      return Some(candidates[k]);
    }
    return None;
  }
}
