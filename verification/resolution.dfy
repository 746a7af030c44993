/** Direct resolution: read every sentence's certain facts, spread them, and repeat until a
    pass over the knowledge learns nothing. */
module Resolution {
  import opened Cells
  import opened Sentences
  import opened Engine

  /** The number of cells mentioned across all sentences, counting repeats. */
  function TotalCells(ks: seq<Sentence>): nat {
    if |ks| == 0 then 0 else |ks[0].cells| + TotalCells(ks[1..])
  }

  /** `b` is `a` with cells removed from some of its sentences. */
  ghost predicate Shrunk(a: seq<Sentence>, b: seq<Sentence>) {
    |a| == |b| && forall k :: 0 <= k < |a| ==> b[k].cells <= a[k].cells
  }

  /** Removing cells never raises the total, and shrinking sentence `j` strictly lowers it. */
  lemma {:induction false} TotalCellsShrinks(a: seq<Sentence>, b: seq<Sentence>, j: int)
    requires Shrunk(a, b)
    ensures TotalCells(b) <= TotalCells(a)
    ensures 0 <= j < |a| && b[j].cells < a[j].cells ==> TotalCells(b) < TotalCells(a)
    decreases |a|
  {
    if |a| > 0 {
      TotalCellsShrinks(a[1..], b[1..], j - 1);
      SubsetSize(b[0].cells, a[0].cells);
    }
  }

  /** `b` follows from `a` by classifying cells: the same board and moves, more mines and
      safe cells, and sentences that only lost cells, each lost cell now classified.
      Every newly classified cell was taken out of some sentence. */
  ghost predicate Progress(a: AI, b: AI) {
    && b.height == a.height && b.width == a.width && b.movesMade == a.movesMade
    && a.mines <= b.mines && a.safes <= b.safes
    && Shrunk(a.knowledge, b.knowledge)
    && (forall k :: 0 <= k < |a.knowledge| ==> a.knowledge[k].cells - b.knowledge[k].cells <= b.mines + b.safes)
    && forall x :: x in (b.mines - a.mines) + (b.safes - a.safes) ==>
         exists k :: 0 <= k < |a.knowledge| && x in a.knowledge[k].cells && x !in b.knowledge[k].cells
  }

  lemma ProgressTransitive(a: AI, b: AI, c: AI)
    requires Progress(a, b) && Progress(b, c)
    ensures Progress(a, c)
  {
    forall k | 0 <= k < |a.knowledge|
      ensures a.knowledge[k].cells - c.knowledge[k].cells <= c.mines + c.safes
    {
      assert a.knowledge[k].cells - c.knowledge[k].cells
          <= (a.knowledge[k].cells - b.knowledge[k].cells) + (b.knowledge[k].cells - c.knowledge[k].cells);
    }
    forall x | x in (c.mines - a.mines) + (c.safes - a.safes)
      ensures exists k :: 0 <= k < |a.knowledge| && x in a.knowledge[k].cells && x !in c.knowledge[k].cells
    {
      if x in (b.mines - a.mines) + (b.safes - a.safes) {
        var k :| 0 <= k < |a.knowledge| && x in a.knowledge[k].cells && x !in b.knowledge[k].cells;
        assert x !in c.knowledge[k].cells;
      } else {
        assert x in (c.mines - b.mines) + (c.safes - b.safes);
        var k :| 0 <= k < |b.knowledge| && x in b.knowledge[k].cells && x !in c.knowledge[k].cells;
        assert x in a.knowledge[k].cells;
      }
    }
  }

  /** The body of the pass for sentence `i`: read its known mines and known safes from the
      current state, mark each, and report how many cells were marked. */
  function ResolveStep(ai: AI, i: int): (r: (AI, nat))
    requires 0 <= i < |ai.knowledge|
    ensures Progress(ai, r.0)
    ensures ai.knowledge[i].KnownMines().Some? ==> ai.knowledge[i].cells <= r.0.mines
    ensures ai.knowledge[i].KnownSafes().Some? ==> ai.knowledge[i].cells <= r.0.safes
    ensures r.1 == 0 <==> ai.knowledge[i].Settled()
    ensures r.1 == 0 ==> r.0 == ai
    ensures r.1 > 0 ==> TotalCells(r.0.knowledge) < TotalCells(ai.knowledge)
  {
    var s := ai.knowledge[i];
    var mines := s.KnownMines();
    var safes := s.KnownSafes();
    var a1 := if mines.Some? then MarkMines(ai, mines.value) else ai;
    var a2 := if safes.Some? then MarkSafes(a1, safes.value) else a1;
    var n := (if mines.Some? then |mines.value| else 0) + (if safes.Some? then |safes.value| else 0);
    TotalCellsShrinks(ai.knowledge, a2.knowledge, i);
    (a2, n)
  }

  /** One pass over sentences `i..`, each seeing the marks of the ones before it. Returns the
      new state and the number of cells marked. */
  function PassFrom(ai: AI, i: int): (r: (AI, nat))
    requires 0 <= i <= |ai.knowledge|
    decreases |ai.knowledge| - i
    ensures Progress(ai, r.0)
    ensures r.1 == 0 <==> forall k :: i <= k < |ai.knowledge| ==> ai.knowledge[k].Settled()
    ensures r.1 == 0 ==> r.0 == ai
    ensures r.1 > 0 ==> TotalCells(r.0.knowledge) < TotalCells(ai.knowledge)
  {
    if i == |ai.knowledge| then (ai, 0)
    else
      var (a1, n1) := ResolveStep(ai, i);
      var (a2, n2) := PassFrom(a1, i + 1);
      ProgressTransitive(ai, a1, a2);
      TotalCellsShrinks(a1.knowledge, a2.knowledge, -1);
      TotalCellsShrinks(ai.knowledge, a1.knowledge, -1);
      (a2, n1 + n2)
  }

  /** Repeats passes until one marks nothing. Every pass that marks something lowers the
      total cell count, so this stops, and on return no sentence yields a fact. */
  function Update(ai: AI): (r: AI)
    decreases TotalCells(ai.knowledge)
    ensures Progress(ai, r)
    ensures forall k :: 0 <= k < |r.knowledge| ==> r.knowledge[k].Settled()
  {
    var (a1, n) := PassFrom(ai, 0);
    if n > 0 then
      var r := Update(a1);
      ProgressTransitive(ai, a1, r);
      r
    else a1
  }

  /** Knowledge in which no sentence yields a fact is a fixed point of `Update`. */
  lemma UpdateStable(ai: AI)
    requires forall k :: 0 <= k < |ai.knowledge| ==> ai.knowledge[k].Settled()
    ensures Update(ai) == ai
  {
  }

  /** Running resolution again straight away learns nothing more. */
  lemma UpdateIdempotent(ai: AI)
    ensures Update(Update(ai)) == Update(ai)
  {
    UpdateStable(Update(ai));
  }

  /** One step spreads only true facts when the knowledge is true. */
  lemma ResolveStepSound(ai: AI, i: int, m: set<Cell>)
    requires 0 <= i < |ai.knowledge| && Sound(ai, m)
    ensures Sound(ResolveStep(ai, i).0, m)
  {
    var s := ai.knowledge[i];
    KnownMinesSound(s, m);
    KnownSafesSound(s, m);
    var a1 := if s.KnownMines().Some? then MarkMines(ai, s.KnownMines().value) else ai;
    if s.KnownMines().Some? {
      MarkMinesSound(ai, s.KnownMines().value, m);
    }
    if s.KnownSafes().Some? {
      MarkSafesSound(a1, s.KnownSafes().value, m);
    }
  }

  lemma {:induction false} PassFromSound(ai: AI, i: int, m: set<Cell>)
    requires 0 <= i <= |ai.knowledge| && Sound(ai, m)
    ensures Sound(PassFrom(ai, i).0, m)
    decreases |ai.knowledge| - i
  {
    if i < |ai.knowledge| {
      ResolveStepSound(ai, i, m);
      PassFromSound(ResolveStep(ai, i).0, i + 1, m);
    }
  }

  /** Resolution never classifies a cell wrongly when the knowledge it starts from is true. */
  lemma {:induction false} UpdateSound(ai: AI, m: set<Cell>)
    requires Sound(ai, m)
    ensures Sound(Update(ai), m)
    decreases TotalCells(ai.knowledge)
  {
    PassFromSound(ai, 0, m);
    var (a1, n) := PassFrom(ai, 0);
    if n > 0 {
      UpdateSound(a1, m);
    }
  }

  /** When the whole knowledge is true of some layout and a sentence says all its cells
      are mines, resolution puts all of them among the mines. A false sentence elsewhere
      could settle this one first, so a true sentence alone is not enough. */
  lemma UpdateMarksKnownMines(ai: AI, i: int, m: set<Cell>)
    requires 0 <= i < |ai.knowledge| && Sound(ai, m)
    requires ai.knowledge[i].KnownMines().Some?
    ensures ai.knowledge[i].cells <= Update(ai).mines
  {
    var s := ai.knowledge[i];
    var r := Update(ai);
    KnownMinesSound(s, m);
    UpdateSound(ai, m);
    var t := r.knowledge[i];
    assert t.cells * m == t.cells;
    assert t.count == |t.cells|;
    assert t.cells == {};
  }

  /** When the whole knowledge is true of some layout and a sentence says all its cells
      are safe, resolution puts all of them among the safe cells. */
  lemma UpdateMarksKnownSafes(ai: AI, i: int, m: set<Cell>)
    requires 0 <= i < |ai.knowledge| && Sound(ai, m)
    requires ai.knowledge[i].KnownSafes().Some?
    ensures ai.knowledge[i].cells <= Update(ai).safes
  {
    var s := ai.knowledge[i];
    var r := Update(ai);
    KnownSafesSound(s, m);
    UpdateSound(ai, m);
    var t := r.knowledge[i];
    assert t.cells * m == {};
    assert t.count == 0;
    assert t.cells == {};
  }
}
