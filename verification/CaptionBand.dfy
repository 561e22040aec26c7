/** Exactly which boxes belong to the first caption line, with the pixel distances written out. */
module CaptionBand {
  import opened Captions
  import opened Packing
  import Sorting

  // ----- the lines -----------------------------------------------------------------------------------------

  /** Each centre of the line, when it came, was within `px` of the mean of those before it. */
  ghost predicate Tight(vals: seq<real>, px: real) {
    forall k | 0 < k < |vals| :: Mean(vals[..k]) - px <= vals[k] <= Mean(vals[..k]) + px
  }

  ghost predicate AllTight(clusters: seq<Cluster>, px: real) {
    forall cl | cl in clusters :: Tight(cl.vals, px)
  }

  /** Each line but the first opens with a centre more than `px` below the mean of the line before it. */
  ghost predicate Apart(clusters: seq<Cluster>, px: real) {
    forall i, j | 0 <= i < j < |clusters| && j == i + 1 :: ApartAt(clusters[i], clusters[j], px)
  }

  predicate ApartAt(upper: Cluster, lower: Cluster, px: real) {
    lower.vals != [] && lower.vals[0] > upper.mean + px
  }

  lemma TightSnoc(vals: seq<real>, c: real, px: real)
    requires Tight(vals, px) && (vals != [] ==> Mean(vals) - px <= c <= Mean(vals) + px)
    ensures Tight(vals + [c], px)
  {
    var more := vals + [c];
    forall k | 0 < k < |more| ensures Mean(more[..k]) - px <= more[k] <= Mean(more[..k]) + px {
      assert more[..k] == vals[..k];
      assert k == |vals| ==> vals[..k] == vals;
    }
  }

  lemma JoinStaysTight(clusters: seq<Cluster>, px: real, c: real, c': real)
    requires px >= 0.0 && GroupInv(clusters, px, c) && clusters != [] && Near(Last(clusters), c', px)
    requires AllTight(clusters, px) && Apart(clusters, px)
    ensures var more := clusters[|clusters| - 1 := Added(Last(clusters), c')];
      AllTight(more, px) && Apart(more, px)
  {
    var last := |clusters| - 1;
    assert Last(clusters) in clusters;
    TightSnoc(Last(clusters).vals, c', px);
    var more := clusters[last := Added(Last(clusters), c')];
    forall i, j | 0 <= i < j < |more| && j == i + 1 ensures ApartAt(more[i], more[j], px) {
      assert ApartAt(clusters[i], clusters[j], px);
    }
  }

  lemma OpenStaysTight(clusters: seq<Cluster>, px: real, c: real, c': real)
    requires px >= 0.0 && GroupInv(clusters, px, c) && c <= c' && (clusters != [] ==> !Near(Last(clusters), c', px))
    requires AllTight(clusters, px) && Apart(clusters, px)
    ensures var more := clusters + [Cluster([c'], c')];
      AllTight(more, px) && Apart(more, px)
  {
    var more := clusters + [Cluster([c'], c')];
    forall i, j | 0 <= i < j < |more| && j == i + 1 ensures ApartAt(more[i], more[j], px) {
      assert j < |clusters| ==> ApartAt(clusters[i], clusters[j], px);
    }
  }

  lemma TurnStaysTight(clusters: seq<Cluster>, px: real, c: real, c': real)
    requires px >= 0.0 && GroupInv(clusters, px, c) && c <= c'
    requires AllTight(clusters, px) && Apart(clusters, px)
    ensures AllTight(GroupTurn(clusters, c', px), px) && Apart(GroupTurn(clusters, c', px), px)
  {
    if clusters != [] && Near(Last(clusters), c', px) {
      JoinStaysTight(clusters, px, c, c');
    } else {
      OpenStaysTight(clusters, px, c, c');
    }
  }

  lemma {:induction false} GroupStaysTight(clusters: seq<Cluster>, rest: seq<real>, px: real, c: real)
    requires px >= 0.0 && GroupInv(clusters, px, c)
    requires Sorting.SortedBy(Ascending, rest) && (rest != [] ==> c <= rest[0])
    requires AllTight(clusters, px) && Apart(clusters, px)
    ensures AllTight(Group(clusters, rest, px), px) && Apart(Group(clusters, rest, px), px)
    decreases |rest|
  {
    if rest != [] {
      GroupTurnKeeps(clusters, px, c, rest[0]);
      TurnStaysTight(clusters, px, c, rest[0]);
      assert |rest| > 1 ==> Ascending(rest[0], rest[1]);
      GroupStaysTight(GroupTurn(clusters, rest[0], px), rest[1..], px, rest[0]);
    }
  }

  /** The lines are the greedy ones: going down the page, a centre belongs to the line above exactly when it
      is within `px` of that line's mean so far. */
  lemma LinesAreGreedy(boxes: seq<Box>, px: real)
    requires px >= 0.0
    ensures Flatten(Vals(Clusters(boxes, px))) == SortedCentres(boxes)
    ensures forall cl | cl in Clusters(boxes, px) :: cl.vals != [] && cl.mean == Mean(cl.vals) && Tight(cl.vals, px)
    ensures Apart(Clusters(boxes, px), px)
  {
    var cs := SortedCentres(boxes);
    ClustersAreRuns(boxes, px);
    AscendingSorts(boxes);
    GroupStaysTight([], cs, px, if cs == [] then 0.0 else cs[0]);
  }

  // ----- the top line ------------------------------------------------------------------------------------

  /** The line height is the upper median of the box heights, and at least one pixel. */
  lemma LineHeightIsMedian(boxes: seq<Box>) returns (hs: seq<int>)
    requires boxes != []
    ensures multiset(hs) == multiset(seq(|boxes|, i requires 0 <= i < |boxes| => boxes[i].yMax - boxes[i].yMin))
    ensures |hs| == |boxes| && forall i, j | 0 <= i < j < |hs| :: hs[i] <= hs[j]
    ensures LineHeight(boxes) == if hs[|hs| / 2] > 1 then hs[|hs| / 2] else 1
  {
    var le := (x: int, y: int) => x <= y;
    hs := Sorting.Sort(Heights(boxes), le);
    Sorting.SortPermutes(Heights(boxes), le);
    Sorting.SortSorted(Heights(boxes), le);
    forall i, j | 0 <= i < j < |hs| ensures hs[i] <= hs[j] {
      assert le(hs[i], hs[j]);
    }
  }

  /** `cl` is no larger than the dominant line, and smaller if it lies above it. */
  predicate Dominated(cl: Cluster, dominant: Cluster) {
    |cl.vals| <= |dominant.vals| && (cl.mean < dominant.mean ==> |cl.vals| < |dominant.vals|)
  }

  lemma DominatedAt(clusters: seq<Cluster>, px: real, d: nat, i: nat)
    requires px >= 0.0 && Spaced(clusters, px) && i < |clusters| && d < |clusters|
    requires |clusters[i].vals| <= |clusters[d].vals| && (i < d ==> |clusters[i].vals| < |clusters[d].vals|)
    ensures Dominated(clusters[i], clusters[d])
  {
    if d < i {
      assert clusters[d].mean + px < clusters[i].mean;
    }
  }

  /** No line has more boxes than the dominant one, and those above it have fewer. */
  lemma DominantIsLargest(boxes: seq<Box>, px: real)
    requires boxes != [] && px >= 0.0
    ensures DominantLine(boxes, px) in Clusters(boxes, px)
    ensures forall cl | cl in Clusters(boxes, px) :: Dominated(cl, DominantLine(boxes, px))
  {
    var clusters := Clusters(boxes, px);
    ClustersAreRuns(boxes, px);
    var d := Dominant(clusters);
    forall cl | cl in clusters ensures Dominated(cl, DominantLine(boxes, px)) {
      var i :| 0 <= i < |clusters| && clusters[i] == cl;
      DominatedAt(clusters, px, d, i);
    }
  }

  /** A cluster is part of the caption if its mean is at most two and a half line heights from the dominant
      one's, above or below. */
  predicate Close(cl: Cluster, dominant: Cluster, lineHeight: int) {
    2.0 * (cl.mean - dominant.mean) <= 5.0 * lineHeight as real
    && 2.0 * (dominant.mean - cl.mean) <= 5.0 * lineHeight as real
  }

  /** The top line is the highest cluster of the caption. */
  lemma TopLineIsHighestClose(boxes: seq<Box>, px: real)
    requires boxes != [] && px >= 0.0
    ensures var top, dominant, h := TopLine(boxes, px), DominantLine(boxes, px), LineHeight(boxes);
      && top in Clusters(boxes, px) && Close(top, dominant, h)
      && forall cl | cl in Clusters(boxes, px) && Close(cl, dominant, h) :: top.mean <= cl.mean
  {
    TopLineIsTop(boxes, px);
    forall cl ensures InCaption(cl, DominantLine(boxes, px), LineHeight(boxes))
      <==> Close(cl, DominantLine(boxes, px), LineHeight(boxes))
    {
    }
  }

  // ----- the boxes of the line ------------------------------------------------------------------------------

  /** The middle of the box is no more than ten pixels outside the range of these centres. */
  ghost predicate Beside(b: Box, vals: seq<real>) {
    exists u, v | u in vals && v in vals :: u - 10.0 <= (b.yMin + b.yMax) as real / 2.0 <= v + 10.0
  }

  lemma BandIsBeside(b: Box, vals: seq<real>)
    requires vals != []
    ensures InBand(Lowest(vals), Highest(vals))(b) <==> Beside(b, vals)
  {
    var low, high := Lowest(vals), Highest(vals);
    if InBand(low, high)(b) {
      assert low in vals && high in vals;
    }
  }

  /** A box is returned if and only if it is an input box within ten pixels of the top line's centres; the
      returned boxes are in the order of the input. */
  lemma FirstLineIff(boxes: seq<Box>, px: real) returns (keep: seq<nat>)
    requires boxes != [] && px >= 0.0
    ensures forall b :: b in FirstLine(boxes, px) <==> b in boxes && Beside(b, TopLine(boxes, px).vals)
    ensures |FirstLine(boxes, px)| == |keep| && forall i, j | 0 <= i < j < |keep| :: keep[i] < keep[j]
    ensures forall k | 0 <= k < |keep| :: keep[k] < |boxes| && FirstLine(boxes, px)[k] == boxes[keep[k]]
    ensures forall i | 0 <= i < |boxes| :: i in keep <==> Beside(boxes[i], TopLine(boxes, px).vals)
  {
    var vals := TopLine(boxes, px).vals;
    TopLineIsTop(boxes, px);
    ClustersAreRuns(boxes, px);
    var band := InBand(Lowest(vals), Highest(vals));
    Sorting.FilterMembers(boxes, band);
    keep := Sorting.FilterPicks(boxes, band, 0);
    assert boxes[0..] == boxes;
    forall b ensures band(b) <==> Beside(b, vals) {
      BandIsBeside(b, vals);
    }
  }

  /** So a second line is left out: no box whose middle is more than ten pixels below every centre of the top
      line is returned. */
  lemma SecondLineIsLeftOut(boxes: seq<Box>, px: real, b: Box)
    requires boxes != [] && px >= 0.0
    requires forall u | u in TopLine(boxes, px).vals :: u + 10.0 < (b.yMin + b.yMax) as real / 2.0
    ensures b !in FirstLine(boxes, px)
  {
    var _ := FirstLineIff(boxes, px);
  }
}
