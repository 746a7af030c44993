/** The logical statement "exactly `count` of `cells` are mines" and the facts it yields. */
module Sentences {
  import opened Wrappers
  import opened Cells

  datatype Sentence = Sentence(cells: set<Cell>, count: int) {

    /** The sentence is true of the mine layout `m`. */
    ghost predicate Holds(m: set<Cell>) {
      |cells * m| == count
    }

    /** Nothing can be read off this sentence: it is empty, or its count is strictly
        between zero and its size. */
    predicate Settled() {
      |cells| == 0 || (count > 0 && count != |cells|)
    }

    /** Every cell is a mine: all of them when the sentence is non-empty and its count
        equals its size, else None. */
    function KnownMines(): (r: Option<set<Cell>>)
      ensures r.Some? <==> |cells| > 0 && |cells| == count
      ensures r.Some? ==> r.value == cells
    {
      if |cells| != 0 && |cells| == count then Some(cells) else None
    }

    /** Every cell is safe: all of them when the sentence is non-empty and its count is
        zero or below, negative counts included, else None. */
    function KnownSafes(): (r: Option<set<Cell>>)
      ensures r.Some? <==> |cells| > 0 && count <= 0
      ensures r.Some? ==> r.value == cells
    {
      if |cells| != 0 && count <= 0 then Some(cells) else None
    }

    /** Learn that `c` is a mine: drop it and account for it in the count. */
    function MarkMine(c: Cell): (r: Sentence)
      ensures r.cells == cells - {c}
      ensures |r.cells| - r.count == |cells| - count
      ensures c !in cells ==> r == this
    {
      if c in cells then Sentence(cells - {c}, count - 1) else this
    }

    /** Learn that `c` is safe: drop it, the count stays. */
    function MarkSafe(c: Cell): (r: Sentence)
      ensures r.cells == cells - {c} && r.count == count
      ensures c !in cells ==> r == this
    {
      if c in cells then Sentence(cells - {c}, count) else this
    }
  }

  /** When `sub`'s cells lie inside `sup`'s, the remaining cells of `sup` hold the remaining mines. */
  function Difference(sub: Sentence, sup: Sentence): Sentence {
    Sentence(sup.cells - sub.cells, sup.count - sub.count)
  }

  /** No sentence yields both mines and safes, and it yields neither exactly when it is settled. */
  lemma NeverBoth(s: Sentence)
    ensures !(s.KnownMines().Some? && s.KnownSafes().Some?)
    ensures s.KnownMines().None? && s.KnownSafes().None? <==> s.Settled()
  {
  }

  /** Facts read off a true sentence are true: its known mines are mines. */
  lemma KnownMinesSound(s: Sentence, m: set<Cell>)
    requires s.Holds(m)
    ensures s.KnownMines().Some? ==> s.KnownMines().value <= m
  {
    if s.KnownMines().Some? {
      SubsetSameSize(s.cells * m, s.cells);
    }
  }

  /** Facts read off a true sentence are true: its known safes are not mines. */
  lemma KnownSafesSound(s: Sentence, m: set<Cell>)
    requires s.Holds(m)
    ensures s.KnownSafes().Some? ==> s.KnownSafes().value !! m
  {
    if s.KnownSafes().Some? {
      assert s.cells * m == {};
      forall x | x in s.cells ensures x !in m {
        assert x !in s.cells * m;
      }
    }
  }

  /** Marking a real mine keeps a true sentence true. */
  lemma MarkMineHolds(s: Sentence, c: Cell, m: set<Cell>)
    requires s.Holds(m) && c in m
    ensures s.MarkMine(c).Holds(m)
  {
    if c in s.cells {
      assert s.cells * m == (s.MarkMine(c).cells * m) + {c};
    }
  }

  /** Marking a real safe cell keeps a true sentence true. */
  lemma MarkSafeHolds(s: Sentence, c: Cell, m: set<Cell>)
    requires s.Holds(m) && c !in m
    ensures s.MarkSafe(c).Holds(m)
  {
    assert s.MarkSafe(c).cells * m == s.cells * m;
  }

  /** Subtracting a true sentence from a true sentence over a superset of its cells
      gives a true sentence. */
  lemma DifferenceHolds(sub: Sentence, sup: Sentence, m: set<Cell>)
    requires sub.cells <= sup.cells
    requires sub.Holds(m) && sup.Holds(m)
    ensures Difference(sub, sup).Holds(m)
  {
    var d := Difference(sub, sup);
    assert d.cells * m == (sup.cells * m) - (sub.cells * m);
    assert sub.cells * m <= sup.cells * m;
    assert |(sup.cells * m) - (sub.cells * m)| == |sup.cells * m| - |sub.cells * m|;
  }
}
