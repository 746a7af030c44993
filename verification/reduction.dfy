/** Subset reduction: one synchronous scan over all ordered pairs of sentences, where a
    sentence whose cells contain another's is replaced by the difference of the two. */
module Reduction {
  import opened Wrappers
  import opened Cells
  import opened Sentences

  /** Every sentence whose cells are exactly `cells` replaced by `t`, the rest kept. */
  function ReplaceAll(ks: seq<Sentence>, cells: set<Cell>, t: Sentence): (r: seq<Sentence>)
    ensures |r| == |ks|
    ensures forall k :: 0 <= k < |ks| && ks[k].cells != cells ==> r[k] == ks[k]
    ensures forall k :: 0 <= k < |ks| && ks[k].cells == cells ==> r[k] == t
  {
    seq(|ks|, k requires 0 <= k < |ks| => if ks[k].cells != cells then ks[k] else t)
  }

  /** The ordered pair of positions `(a, b)` produces a replacement: both sentences are
      non-empty, their cells differ, and one's cells lie inside the other's. */
  predicate Fires(ks: seq<Sentence>, a: int, b: int) {
    && 0 <= a < |ks| && 0 <= b < |ks|
    && ks[a].cells != ks[b].cells && |ks[a].cells| != 0 && |ks[b].cells| != 0
    && (ks[a].cells <= ks[b].cells || ks[b].cells <= ks[a].cells)
  }

  /** The knowledge a firing pair produces from the scanned list: every sentence with the
      larger cell set becomes the difference of the two. */
  function Reduced(ks: seq<Sentence>, a: int, b: int): seq<Sentence>
    requires Fires(ks, a, b)
  {
    if ks[a].cells <= ks[b].cells then ReplaceAll(ks, ks[b].cells, Difference(ks[a], ks[b]))
    else ReplaceAll(ks, ks[a].cells, Difference(ks[b], ks[a]))
  }

  /** `(a2, b2)` comes after `(a, b)` in the scan: outer index first, inner index second. */
  predicate After(a2: int, b2: int, a: int, b: int) {
    a2 > a || (a2 == a && b2 > b)
  }

  /** `(a, b)` is the last pair of the scan that fires. */
  ghost predicate IsLastFiring(ks: seq<Sentence>, a: int, b: int) {
    Fires(ks, a, b) && forall a2, b2 :: After(a2, b2, a, b) ==> !Fires(ks, a2, b2)
  }

  /** The body of the scan for the pair `(a, b)`: the replacement it builds from the
      unchanged list, if any, else the one carried so far. Both tests are made, as two
      separate `if`s; at most one can succeed. */
  function PairStep(ks: seq<Sentence>, a: int, b: int, acc: Option<seq<Sentence>>): (r: Option<seq<Sentence>>)
    requires 0 <= a < |ks| && 0 <= b < |ks|
    ensures Fires(ks, a, b) ==> r == Some(Reduced(ks, a, b))
    ensures !Fires(ks, a, b) ==> r == acc
  {
    var c1 := ks[a].cells;
    var c2 := ks[b].cells;
    if c1 != c2 && |c1| != 0 && |c2| != 0 then
      var first := if c1 <= c2 then Some(ReplaceAll(ks, c2, Sentence(c2 - c1, ks[b].count - ks[a].count))) else acc;
      if c2 <= c1 then Some(ReplaceAll(ks, c1, Sentence(c1 - c2, ks[a].count - ks[b].count))) else first
    else acc
  }

  /** The inner loop: pairs `(a, b..)`. */
  function ScanRow(ks: seq<Sentence>, a: int, b: int, acc: Option<seq<Sentence>>): (r: Option<seq<Sentence>>)
    requires 0 <= a < |ks| && 0 <= b <= |ks|
    decreases |ks| - b
    ensures (forall b2 :: b <= b2 < |ks| ==> !Fires(ks, a, b2)) ==> r == acc
    ensures forall b1 :: b <= b1 < |ks| && Fires(ks, a, b1) && (forall b2 :: b1 < b2 < |ks| ==> !Fires(ks, a, b2))
              ==> r == Some(Reduced(ks, a, b1))
  {
    if b == |ks| then acc else ScanRow(ks, a, b + 1, PairStep(ks, a, b, acc))
  }

  /** The outer loop: pairs `(a.., _)`. */
  function ScanRows(ks: seq<Sentence>, a: int, acc: Option<seq<Sentence>>): (r: Option<seq<Sentence>>)
    requires 0 <= a <= |ks|
    decreases |ks| - a
    ensures (forall a2, b2 :: a <= a2 ==> !Fires(ks, a2, b2)) ==> r == acc
    ensures forall a1, b1 :: a <= a1 && IsLastFiring(ks, a1, b1) ==> r == Some(Reduced(ks, a1, b1))
  {
    if a == |ks| then acc else ScanRows(ks, a + 1, ScanRow(ks, a, 0, acc))
  }

  /** When some pair fires, one of them is the last. */
  lemma LastFiringExists(ks: seq<Sentence>, a0: int, b0: int)
    requires Fires(ks, a0, b0)
    ensures exists a, b :: IsLastFiring(ks, a, b)
  {
    var a, b := a0, b0;
    while exists a2, b2 :: After(a2, b2, a, b) && Fires(ks, a2, b2)
      invariant Fires(ks, a, b)
      decreases |ks| - a, |ks| - b
    {
      var a2, b2 :| After(a2, b2, a, b) && Fires(ks, a2, b2);
      a, b := a2, b2;
    }
    assert IsLastFiring(ks, a, b);
  }

  /** One pass of subset reduction. If no pair fires the knowledge is unchanged; otherwise
      it is the replacement built by the last firing pair, from the list as it was before
      the pass. */
  function SubsetPass(ks: seq<Sentence>): (r: seq<Sentence>)
    ensures (forall a, b :: !Fires(ks, a, b)) ==> r == ks
    ensures forall a, b :: IsLastFiring(ks, a, b) ==> r == Reduced(ks, a, b)
  {
    match ScanRows(ks, 0, None)
    case Some(nk) => nk
    case None => ks
  }

  /** The pass keeps the number of sentences, and every sentence keeps or loses cells. */
  lemma SubsetPassShrinks(ks: seq<Sentence>)
    ensures |SubsetPass(ks)| == |ks|
    ensures forall k :: 0 <= k < |ks| ==> SubsetPass(ks)[k].cells <= ks[k].cells
  {
    if exists a, b :: Fires(ks, a, b) {
      var a0, b0 :| Fires(ks, a0, b0);
      LastFiringExists(ks, a0, b0);
    }
  }

  /** Subset reduction turns true knowledge into true knowledge. */
  lemma SubsetPassSound(ks: seq<Sentence>, m: set<Cell>)
    requires forall k :: 0 <= k < |ks| ==> ks[k].Holds(m)
    ensures forall k :: 0 <= k < |SubsetPass(ks)| ==> SubsetPass(ks)[k].Holds(m)
  {
    if exists a, b :: Fires(ks, a, b) {
      var a0, b0 :| Fires(ks, a0, b0);
      LastFiringExists(ks, a0, b0);
      var a, b :| IsLastFiring(ks, a, b);
      if ks[a].cells <= ks[b].cells {
        DifferenceHolds(ks[a], ks[b], m);
      } else {
        DifferenceHolds(ks[b], ks[a], m);
      }
    }
  }

  /** The four-sentence list used by `LastReplacementWins`. */
  predicate IsExample(ks: seq<Sentence>) {
    ks == [Sentence({(0, 0)}, 0), Sentence({(0, 0), (0, 1)}, 1),
           Sentence({(1, 0)}, 0), Sentence({(1, 0), (1, 1)}, 1)]
  }

  /** In the example, (3, 2) is the last pair of the scan that fires. */
  lemma ExampleLastPair(ks: seq<Sentence>)
    requires IsExample(ks)
    ensures IsLastFiring(ks, 3, 2)
  {
    assert (1, 1) !in ks[2].cells;
    assert Fires(ks, 3, 2);
    forall a2, b2 | After(a2, b2, 3, 2)
      ensures !Fires(ks, a2, b2)
    {
    }
  }

  /** Only the last replacement of the scan survives. Here the pair (0, 1) fires, yet only
      the sentence at position 3 is reduced, because of the later pair (3, 2). */
  lemma LastReplacementWins(ks: seq<Sentence>)
    requires IsExample(ks)
    ensures Fires(ks, 0, 1)
    ensures SubsetPass(ks) == [ks[0], ks[1], ks[2], Sentence({(1, 1)}, 1)]
  {
    assert Fires(ks, 0, 1) by {
      assert (0, 1) !in ks[0].cells;
    }
    assert SubsetPass(ks) == [ks[0], ks[1], ks[2], Sentence({(1, 1)}, 1)] by {
      ExampleLastPair(ks);
      assert SubsetPass(ks) == Reduced(ks, 3, 2);
      assert ks[3].cells - ks[2].cells == {(1, 1)};
    }
  }
}
