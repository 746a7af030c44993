# Minesweeper inference engine, in Dafny

This project models the logical Minesweeper player of `minesweeper.py` and the board
queries it works beside. The model covers three parts:

- **The board** (`Game`) is a fixed set of mine cells on a `height` by `width` grid.
  `IsMine` reads a cell, with Python's wrap-around for negative indices and an error for
  off-grid ones. `NearbyMines` counts mines in the 3x3 block around a cell, row by row as
  the source does. `Won` compares the flagged cells with the mines.
- **A sentence** (`Sentences.Sentence`) is the statement "exactly `count` of `cells` are
  mines". `KnownMines` and `KnownSafes` read certain facts off it. `MarkMine` and
  `MarkSafe` shrink it as facts arrive. Structural equality of the datatype is the
  source's `__eq__`.
- **The player** (`Engine.AI`) is an immutable record of the revealed cells, the known
  mines, the known safe cells and the list of sentences. Each source method becomes a
  function from one state to the next:
  - `Engine.MarkMine` and `Engine.MarkSafe` spread one fact to every sentence.
  - `Engine.Neighbours` builds the cell set of a new sentence.
  - `Resolution.Update` is direct resolution, repeated until a pass marks nothing.
  - `Reduction.SubsetPass` is one pass of subset reduction.
  - `Player.AddKnowledge` is the entry point.
  - `Player.MakeSafeMove` and `Player.MakeRandomMove` choose moves.

The semantic yardstick is `Engine.Sound(ai, m)`: knowledge is sound with respect to the
mine layout `m` when the known mines are mines, the known safe cells are not, and every
sentence is true of `m`. The main results:

- Each deduction step keeps knowledge sound.
- `Player.AddKnowledgeSound` shows that taking in a safe cell with the board's own count
  keeps the player sound.
- `Player.PlaySound` extends this to a whole game. From a fresh player, the mines and
  safe cells it finds are always right and never overlap.

The other properties proved:

- Resolution terminates. Every pass that marks something lowers the total number of
  cells across all sentences.
- When resolution returns, every sentence is settled: it is either empty or has
  `0 < count != |cells|`.
- Resolution is idempotent.
- When the whole knowledge is sound for some mine layout, resolution classifies every
  cell of a sentence that says "all mines" or "all safe". A false sentence elsewhere can
  settle a true one before its cells are classified.
- Marking the cells of a set one by one, in any order and with repeats, equals the
  closed-form `MarkMines` / `MarkSafes`. So the iteration order of a Python set is
  irrelevant.

Behaviour of the code reproduced as written:

- **Last replacement wins.** `get_subset_knowledge` rebuilds its replacement list from
  the unchanged knowledge on every firing pair (`minesweeper.py:230`, `234`). Only the
  last firing pair in ordered-pair scan order takes effect. It replaces every sentence
  whose cells equal the larger cell set. `Reduction.SubsetPass` states this, and
  `Reduction.LastReplacementWins` shows a list where an earlier firing pair is lost.
- **One-row and one-column boards.** `get_neighbours` clamps the far edge only in an
  `elif` (`minesweeper.py:184-192`), so on a board of height 1 the row below the grid
  is offered as neighbours. `Engine.NeighboursOneRowLeaks` states this.
  `Player.OneRowBoardOffersOffGridCells` shows that revealing `(0, 0)` with count 0 on a
  1x3 board puts the off-grid cells `(1, 0)` and `(1, 1)` among the safe, unplayed
  cells. A later `make_safe_move` may therefore return them. These phantom cells are
  never mines, so soundness is unaffected. On boards at least 2x2,
  `Engine.NeighboursClamped` shows the neighbours are exactly the in-bounds 3x3 block
  minus the known safe cells.
- **Centre cell.** `get_neighbours` does not exclude the centre itself. It is left out
  only because `add_knowledge` has already marked it safe. `Player.AddKnowledge` proves
  that afterwards no sentence mentions it.
- **Fixed grid.** `make_random_move` scans an 8x8 grid whatever the board's size
  (`minesweeper.py:281-282`).
- **Negative counts.** `known_safes` tests `count <= 0`. Subset reduction can produce
  negative counts from inconsistent input, and those still yield safe cells.

## Model

| member | source | states |
|---|---|---|
| Sentences.Sentence.KnownMines | minesweeper.py:104-110 | a sentence yields mines exactly when it is non-empty and its count equals its size, and then it yields all its cells; `Sentences.KnownMinesSound` is its soundness partner |
| Sentences.Sentence.KnownSafes | minesweeper.py:112-118 | a sentence yields safe cells exactly when it is non-empty and its count is at most zero, negative counts included, and then it yields all its cells; `Sentences.KnownSafesSound` is its soundness partner |
| Sentences.NeverBoth | minesweeper.py:104-118 | no sentence yields both mines and safe cells; it yields neither exactly when it is empty or `0 < count != size` |
| Sentences.KnownMinesSound | minesweeper.py:104-110 | the mines read off a true sentence are real mines |
| Sentences.KnownSafesSound | minesweeper.py:112-118 | the safe cells read off a true sentence are not mines |
| Sentences.Sentence.MarkMine | minesweeper.py:120-127 | marking a mine removes the cell and keeps `size - count` unchanged; a cell not in the sentence changes nothing |
| Sentences.Sentence.MarkSafe | minesweeper.py:129-135 | marking a safe cell removes it and keeps the count; a cell not in the sentence changes nothing |
| Sentences.MarkMineHolds | minesweeper.py:120-127 | marking a real mine keeps a true sentence true |
| Sentences.MarkSafeHolds | minesweeper.py:129-135 | marking a real safe cell keeps a true sentence true |
| Sentences.DifferenceHolds | minesweeper.py:227-235 | the sentence derived from two true sentences, one's cells inside the other's, is true |
| Game.IsMine | minesweeper.py:51-53 | the lookup succeeds exactly for indices Python accepts, answers membership in the mine set on the grid, and otherwise answers for the cell reached by adding the height to a negative row and the width to a negative column, each coordinate on its own |
| Game.NearbyMines | minesweeper.py:55-78 | the row-by-row scan counts exactly the on-grid mines at row and column distance at most one, other than the cell, so at most 8 |
| Game.NearbyAtMostEight | minesweeper.py:55-78 | no cell has more than eight surrounding mines |
| Game.Won | minesweeper.py:80-84 | the game is won exactly when a cell is flagged if and only if it is a mine |
| Game.WonNeedsExactFlags | minesweeper.py:80-84 | a missed mine or a flagged non-mine rules out a win; a win flags as many cells as there are mines |
| Engine.NewAI | minesweeper.py:143-157 | a fresh player has no moves and no sentences, and is sound for every mine layout |
| Engine.MarkMine | minesweeper.py:159-166 | the cell joins the mines, leaves every sentence, every sentence keeps `size - count`, nothing else changes |
| Engine.MarkSafe | minesweeper.py:168-175 | the cell joins the safe cells, leaves every sentence, every count is kept, nothing else changes |
| Engine.MarkMines | minesweeper.py:207-210 | marking a set of mines removes it from every sentence, keeping each sentence's `size - count`, and adds it to the mines |
| Engine.MarkSafes | minesweeper.py:211-214 | marking a set of safe cells removes it from every sentence, keeping the counts, and adds it to the safe cells |
| Engine.MarkMinesInOrder | minesweeper.py:208-209 | marking a sequence of cells as mines one after another adds all of them to the mines and removes all of them from every sentence, each sentence keeping `size - count`, nothing else changing |
| Engine.MarkSafesInOrder | minesweeper.py:212-213 | marking a sequence of cells safe one after another adds all of them to the safe cells and removes all of them from every sentence, every count kept, nothing else changing |
| Engine.MarkMinesAnyOrder | minesweeper.py:207-210 | marking the cells of a snapshot one by one, in any order and with repeats, gives the closed-form marking of the set |
| Engine.MarkSafesAnyOrder | minesweeper.py:211-214 | the same for safe cells |
| Engine.Neighbours | minesweeper.py:177-200 | every neighbour is within one row and column of the cell and not known safe |
| Engine.NeighboursClamped | minesweeper.py:177-200 | on boards at least 2x2, the neighbours of an on-grid cell are exactly its in-bounds 3x3 block less the known safe cells |
| Engine.NeighboursOneRowLeaks | minesweeper.py:184-187 | on a one-row board the off-grid row below is offered as neighbours |
| Engine.SoundDisjoint | minesweeper.py:152-154 | knowledge true of some layout never holds a cell both as a mine and as safe |
| Engine.MarkMinesSound | minesweeper.py:207-210 | marking real mines keeps knowledge sound |
| Engine.MarkSafesSound | minesweeper.py:211-214 | marking real safe cells keeps knowledge sound |
| Engine.MarkSafeSound | minesweeper.py:168-175 | marking one real safe cell keeps knowledge sound |
| Resolution.ResolveStep | minesweeper.py:204-214 | handling one sentence puts all its cells among the mines when it yields mines and among the safe cells when it yields safe cells; it marks something exactly when the sentence is not settled; when it marks something the total cell count drops, otherwise the state is unchanged; every newly classified cell was taken out of some sentence |
| Resolution.PassFrom | minesweeper.py:203-215 | a pass marks nothing exactly when every sentence it visits is settled, and otherwise lowers the total cell count; sentences only lose cells, every lost cell is classified, and every newly classified cell was taken out of some sentence |
| Resolution.Update | minesweeper.py:202-216 | resolution terminates; on return every sentence is settled, the sentence list keeps its length, sentences only lose cells, every lost cell is classified, the mine and safe sets only grow, and every newly classified cell was taken out of some sentence |
| Resolution.UpdateStable | minesweeper.py:215-216 | knowledge whose sentences are all settled is left unchanged |
| Resolution.UpdateIdempotent | minesweeper.py:202-216 | running resolution again directly afterwards changes nothing |
| Resolution.ResolveStepSound | minesweeper.py:204-214 | handling one sentence keeps sound knowledge sound |
| Resolution.PassFromSound | minesweeper.py:203-215 | a pass keeps sound knowledge sound |
| Resolution.UpdateSound | minesweeper.py:202-216 | resolution keeps sound knowledge sound |
| Resolution.UpdateMarksKnownMines | minesweeper.py:205-210 | when the whole knowledge is sound for some mine layout, every cell of a sentence whose count equals its size ends among the mines |
| Resolution.UpdateMarksKnownSafes | minesweeper.py:206-214 | when the whole knowledge is sound for some mine layout, every cell of a sentence with count zero ends among the safe cells |
| Reduction.ReplaceAll | minesweeper.py:230 | every sentence whose cells equal the given set is replaced, every other one kept, the length unchanged |
| Reduction.PairStep | minesweeper.py:223-235 | one pair builds the replacement for the larger cell set exactly when both are non-empty, differ and one contains the other; otherwise the carried replacement stays |
| Reduction.ScanRow | minesweeper.py:222-235 | the inner loop keeps the carried replacement when no pair of its row fires, else returns the one from the row's last firing pair |
| Reduction.ScanRows | minesweeper.py:221-235 | the outer loop keeps the carried replacement when no later pair fires, else returns the one from the last firing pair of the whole scan |
| Reduction.LastFiringExists | minesweeper.py:221-235 | when some pair fires, a last one in scan order exists |
| Reduction.SubsetPass | minesweeper.py:218-237 | with no firing pair the knowledge is unchanged; otherwise it is the pre-pass list with the last firing pair's superset replaced, wherever it occurs |
| Reduction.SubsetPassShrinks | minesweeper.py:218-237 | the pass keeps the number of sentences and never adds a cell to a sentence |
| Reduction.SubsetPassSound | minesweeper.py:218-237 | the pass turns true sentences into true sentences |
| Reduction.LastReplacementWins | minesweeper.py:228-237 | an example where a pair fires yet its replacement is discarded in favour of a later pair's |
| Player.Observe | minesweeper.py:253-257 | the move is recorded, the cell marked safe, every earlier sentence replaced by that sentence with the cell marked safe, and one sentence with the given count appended whose cells are adjacent to the cell and not known safe; on a board at least 2x2 and an on-grid cell the new sentence's cells are exactly the in-bounds 3x3 block less the known safe cells and the cell itself |
| Player.AddKnowledge | minesweeper.py:239-259 | afterwards the cell is played and safe, the list has exactly one more sentence, no sentence mentions the cell, the new sentence's cells are adjacent to it, and the played, mine and safe sets only grow; `Player.AddKnowledgeShape` and `Player.AddKnowledgeResolves` state that inference ran |
| Player.NeighbourMines | minesweeper.py:254-256 | the mines among the new sentence's cells are exactly the mines the board counts around the cell |
| Player.AddKnowledgeShape | minesweeper.py:239-259 | the result is some refinement of the observed state in which every sentence is settled and every new classification came out of a sentence, followed by one subset-reduction pass: resolution and reduction both run |
| Player.AddKnowledgeResolves | minesweeper.py:248-259 | when the observed knowledge is sound for some mine layout, every cell of an observed sentence that says "all mines" ends among the mines, and every cell of one that says "all safe" ends among the safe cells |
| Player.AddKnowledgeSound | minesweeper.py:239-259 | taking in a safe on-grid cell with the board's count keeps the player sound |
| Player.PlaySound | minesweeper.py:239-259 | over a game of safe reveals the played, mine and safe sets only grow, and the player stays sound with disjoint mine and safe sets |
| Player.OneRowBoardOffersOffGridCells | minesweeper.py:239-259 | on a 1x3 board, revealing `(0, 0)` with count 0 makes the off-grid cells `(1, 0)` and `(1, 1)` safe unplayed cells |
| Player.MakeSafeMove | minesweeper.py:261-271 | returns a safe cell not yet played, or None exactly when every safe cell has been played |
| Player.MakeRandomMove | minesweeper.py:273-288 | returns a cell of the 8x8 grid that is neither played nor a known mine, or None exactly when there is none |

## Left out

- Random mine placement in `Minesweeper.__init__` (`minesweeper.py:10-34`) is not
  modelled. The board is given as a mine set, with `Game.Valid` saying every mine is on
  the grid. The boolean grid is the membership test on that set.
- `Minesweeper.print` and `Sentence.__str__` are left out because they only write to
  the console.
- The uniform distribution of `random.choice` is not modelled. `Player.MakeRandomMove`
  picks an arbitrary candidate.
- The iteration order of `make_safe_move` over a Python set is not modelled.
  `Player.MakeSafeMove` picks an arbitrary unplayed safe cell.
- `deepcopy` at `minesweeper.py:208` and `212` becomes a snapshot of the cell set before
  marking.
- In the source, one `Sentence` object is shared by every position it replaces. The
  model uses values instead, which gives the same outcome because marking an absent
  cell changes nothing.
- Python's recursion limit on `update_with_new_sentence` is not modelled. `Update`
  recurses without bound and is proved to terminate.
- Disjointness of mines and safe cells is not claimed in general, because the code does
  not enforce it. It is proved only for sound knowledge (`Engine.SoundDisjoint`,
  `Player.PlaySound`).
- Cells are pairs of unbounded integers. Python accepts any tuple.
- The constructors' default arguments (`height=8, width=8, mines=8` at `minesweeper.py:10` and
  `height=8, width=8` at `minesweeper.py:143`) are not modelled, because the model has no
  default arguments. Sizes are always passed explicitly, and `Engine.NewAI(8, 8)` is the
  default player.
