/** Picking the top caption line among OCR boxes by clustering their vertical centres. */
module Captions {
  import opened Reals
  import opened Packing
  import Sorting

  datatype Box = Box(xMin: int, xMax: int, yMin: int, yMax: int)

  datatype Cluster = Cluster(vals: seq<real>, mean: real)

  function Centre(b: Box): real {
    (b.yMin + b.yMax) as real / 2.0
  }

  function Centres(boxes: seq<Box>): seq<real> {
    if boxes == [] then [] else [Centre(boxes[0])] + Centres(boxes[1..])
  }

  function Sum(vals: seq<real>): real {
    if vals == [] then 0.0 else Sum(vals[..|vals| - 1]) + vals[|vals| - 1]
  }

  function Mean(vals: seq<real>): real
    requires vals != []
  {
    Sum(vals) / |vals| as real
  }

  predicate Near(cl: Cluster, c: real, px: real) {
    Abs(c - cl.mean) <= px
  }

  function Added(cl: Cluster, c: real): Cluster {
    Cluster(cl.vals + [c], Mean(cl.vals + [c]))
  }

  function Last(clusters: seq<Cluster>): Cluster
    requires clusters != []
  {
    clusters[|clusters| - 1]
  }

  /** The reference grouping: a centre joins the latest cluster or opens a new one. */
  function GroupTurn(clusters: seq<Cluster>, c: real, px: real): seq<Cluster> {
    if clusters != [] && Near(Last(clusters), c, px) then
      clusters[|clusters| - 1 := Added(Last(clusters), c)]
    else clusters + [Cluster([c], c)]
  }

  function Group(clusters: seq<Cluster>, rest: seq<real>, px: real): seq<Cluster>
    decreases |rest|
  {
    if rest == [] then clusters else Group(GroupTurn(clusters, rest[0], px), rest[1..], px)
  }

  predicate Ascending(x: real, y: real) {
    x <= y
  }

  function SortedCentres(boxes: seq<Box>): seq<real> {
    Sorting.Sort(Centres(boxes), Ascending)
  }

  // ----- what holds while centres arrive in ascending order -------------------------------------

  function Vals(clusters: seq<Cluster>): seq<seq<real>> {
    if clusters == [] then [] else [clusters[0].vals] + Vals(clusters[1..])
  }

  /** Cluster means increase by more than `px`. */
  ghost predicate Spaced(clusters: seq<Cluster>, px: real) {
    forall i, j | 0 <= i < j < |clusters| :: clusters[i].mean + px < clusters[j].mean
  }

  /** Each mean is the mean of its values. */
  ghost predicate Averaged(clusters: seq<Cluster>) {
    forall cl | cl in clusters :: cl.vals != [] && cl.mean == Mean(cl.vals)
  }

  /** No centre from `c` upwards can reach a cluster before the latest one, and the latest mean
      has not passed `c`. */
  ghost predicate Sealed(clusters: seq<Cluster>, px: real, c: real) {
    && (forall i | 0 <= i < |clusters| - 1 :: clusters[i].mean + px < c)
    && (clusters != [] ==> Last(clusters).mean <= c)
  }

  ghost predicate GroupInv(clusters: seq<Cluster>, px: real, c: real) {
    Spaced(clusters, px) && Averaged(clusters) && Sealed(clusters, px, c)
  }

  lemma NegativeProduct(x: real, n: real)
    requires n > 0.0
    ensures x < 0.0 ==> x * n < 0.0
  {
  }

  /** Adding a value at least as large as the mean moves the mean towards it. */
  lemma MeanMoves(sum: real, n: real, c: real)
    requires n > 0.0 && sum / n <= c
    ensures sum / n <= (sum + c) / (n + 1.0) <= c
  {
    var m, m' := sum / n, (sum + c) / (n + 1.0);
    assert m * n == sum && m' * (n + 1.0) == sum + c;
    assert (m' - m) * (n + 1.0) == c - m;
    assert (c - m') * (n + 1.0) == (c - m) * n;
    NegativeProduct(m' - m, n + 1.0);
    NegativeProduct(c - m', n + 1.0);
    MeanRoom(c - m, n);
  }

  lemma MeanRoom(x: real, n: real)
    requires x >= 0.0 && n > 0.0
    ensures x * n >= 0.0
  {
  }

  lemma AddedMean(cl: Cluster, c: real)
    requires cl.vals != [] && cl.mean == Mean(cl.vals) && cl.mean <= c
    ensures cl.mean <= Added(cl, c).mean <= c
  {
    var vals := cl.vals + [c];
    assert vals[..|vals| - 1] == cl.vals;
    MeanMoves(Sum(cl.vals), |cl.vals| as real, c);
  }

  lemma SingleMean(c: real)
    ensures Mean([c]) == c
  {
    assert Sum([c]) == Sum([c][..0]) + c;
  }

  /** The latest cluster takes the centre. */
  lemma JoinKeeps(clusters: seq<Cluster>, px: real, c: real, c': real)
    requires px >= 0.0 && GroupInv(clusters, px, c) && c <= c' && clusters != []
    ensures GroupInv(clusters[|clusters| - 1 := Added(Last(clusters), c')], px, c')
  {
    var last := |clusters| - 1;
    var joined := clusters[last := Added(Last(clusters), c')];
    assert Last(clusters) in clusters;
    AddedMean(Last(clusters), c');
    forall i | 0 <= i < last ensures joined[i] == clusters[i] && joined[i] in clusters {
    }
    forall cl | cl in joined ensures cl.vals != [] && cl.mean == Mean(cl.vals) {
    }
  }

  /** The centre opens a cluster of its own. */
  lemma OpenKeeps(clusters: seq<Cluster>, px: real, c: real, c': real)
    requires px >= 0.0 && GroupInv(clusters, px, c) && c <= c'
    requires clusters != [] ==> !Near(Last(clusters), c', px)
    ensures GroupInv(clusters + [Cluster([c'], c')], px, c')
  {
    SingleMean(c');
    var more := clusters + [Cluster([c'], c')];
    forall cl | cl in more ensures cl.vals != [] && cl.mean == Mean(cl.vals) {
    }
  }

  lemma GroupTurnKeeps(clusters: seq<Cluster>, px: real, c: real, c': real)
    requires px >= 0.0 && GroupInv(clusters, px, c) && c <= c'
    ensures GroupInv(GroupTurn(clusters, c', px), px, c')
  {
    if clusters != [] && Near(Last(clusters), c', px) {
      JoinKeeps(clusters, px, c, c');
    } else {
      OpenKeeps(clusters, px, c, c');
    }
  }

  lemma {:induction false} ValsSnoc(clusters: seq<Cluster>, cl: Cluster)
    ensures Flatten(Vals(clusters + [cl])) == Flatten(Vals(clusters)) + cl.vals
  {
    if clusters == [] {
      assert [] + [cl] == [cl];
      assert Flatten([cl.vals]) == cl.vals + Flatten([]);
    } else {
      assert (clusters + [cl])[1..] == clusters[1..] + [cl];
      ValsSnoc(clusters[1..], cl);
    }
  }

  lemma GroupTurnVals(clusters: seq<Cluster>, c: real, px: real)
    ensures Flatten(Vals(GroupTurn(clusters, c, px))) == Flatten(Vals(clusters)) + [c]
  {
    if clusters != [] && Near(Last(clusters), c, px) {
      var front := clusters[..|clusters| - 1];
      assert clusters == front + [Last(clusters)];
      assert GroupTurn(clusters, c, px) == front + [Added(Last(clusters), c)];
      ValsSnoc(front, Last(clusters));
      ValsSnoc(front, Added(Last(clusters), c));
    } else {
      ValsSnoc(clusters, Cluster([c], c));
    }
  }

  lemma {:induction false} GroupVals(clusters: seq<Cluster>, rest: seq<real>, px: real)
    ensures Flatten(Vals(Group(clusters, rest, px))) == Flatten(Vals(clusters)) + rest
    ensures rest != [] || clusters != [] ==> Group(clusters, rest, px) != []
    decreases |rest|
  {
    if rest != [] {
      GroupTurnVals(clusters, rest[0], px);
      GroupVals(GroupTurn(clusters, rest[0], px), rest[1..], px);
      assert rest == [rest[0]] + rest[1..];
    }
  }

  lemma {:induction false} GroupKeeps(clusters: seq<Cluster>, rest: seq<real>, px: real, c: real)
    requires px >= 0.0 && GroupInv(clusters, px, c)
    requires Sorting.SortedBy(Ascending, rest) && (rest != [] ==> c <= rest[0])
    ensures Spaced(Group(clusters, rest, px), px) && Averaged(Group(clusters, rest, px))
    decreases |rest|
  {
    if rest != [] {
      GroupTurnKeeps(clusters, px, c, rest[0]);
      assert |rest| > 1 ==> Ascending(rest[0], rest[1]);
      GroupKeeps(GroupTurn(clusters, rest[0], px), rest[1..], px, rest[0]);
    }
  }

  // ----- the scanning loop ----------------------------------------------------------------------

  /** Places one centre by scanning all clusters for the first one near enough. */
  method PlaceCentre(clusters: seq<Cluster>, c: real, px: real, ghost floor: real)
    returns (placed: seq<Cluster>)
    requires px >= 0.0 && GroupInv(clusters, px, floor) && floor <= c
    ensures placed == GroupTurn(clusters, c, px)
  {
    var k := 0;
    while k < |clusters|
      invariant k <= |clusters|
      invariant forall i | 0 <= i < k :: !Near(clusters[i], c, px)
    {
      if Near(clusters[k], c, px) {
        var vals := clusters[k].vals + [c];
        placed := clusters[k := Cluster(vals, Mean(vals))];
        return;
      }
      k := k + 1;
    }
    placed := clusters + [Cluster([c], c)];
  }

  /** Although every centre scans all clusters, the result is the reference grouping. */
  method ClusterCentres(boxes: seq<Box>, px: real) returns (clusters: seq<Cluster>)
    requires px >= 0.0
    ensures clusters == Group([], SortedCentres(boxes), px)
  {
    clusters := [];
    var cs := SortedCentres(boxes);
    AscendingSorts(boxes);
    ghost var goal := Group([], cs, px);
    ghost var floor := if cs == [] then 0.0 else cs[0];
    for i := 0 to |cs|
      invariant GroupInv(clusters, px, floor) && (i < |cs| ==> floor <= cs[i])
      invariant Group(clusters, cs[i..], px) == goal
    {
      var c := cs[i];
      assert cs[i..][0] == c && cs[i..][1..] == cs[i + 1..];
      GroupTurnKeeps(clusters, px, floor, c);
      clusters := PlaceCentre(clusters, c, px, floor);
      floor := c;
      assert i + 1 < |cs| ==> Ascending(cs[i], cs[i + 1]);
    }
    assert cs[|cs|..] == [];
  }

  lemma AscendingSorts(boxes: seq<Box>)
    ensures Sorting.SortedBy(Ascending, SortedCentres(boxes))
  {
    Sorting.SortSorted(Centres(boxes), Ascending);
  }

  // ----- choosing the line ----------------------------------------------------------------------

  /** Index of the first cluster with the most values. */
  function Dominant(clusters: seq<Cluster>): (d: nat)
    requires clusters != []
    ensures d < |clusters|
    ensures forall i | 0 <= i < |clusters| :: |clusters[i].vals| <= |clusters[d].vals|
    ensures forall i | 0 <= i < d :: |clusters[i].vals| < |clusters[d].vals|
  {
    if |clusters| == 1 then 0
    else
      var n := |clusters| - 1;
      var d := Dominant(clusters[..n]);
      if |clusters[n].vals| > |clusters[d].vals| then n else d
  }

  function Heights(boxes: seq<Box>): (hs: seq<int>)
    ensures |hs| == |boxes|
  {
    seq(|boxes|, i requires 0 <= i < |boxes| => boxes[i].yMax - boxes[i].yMin)
  }

  function LineHeight(boxes: seq<Box>): int
    requires boxes != []
  {
    var hs := Sorting.Sort(Heights(boxes), (x: int, y: int) => x <= y);
    Sorting.SortPermutes(Heights(boxes), (x: int, y: int) => x <= y);
    if hs[|hs| / 2] > 1 then hs[|hs| / 2] else 1
  }

  predicate InCaption(cl: Cluster, dominant: Cluster, lineHeight: int) {
    Abs(cl.mean - dominant.mean) <= 2.5 * lineHeight as real
  }

  /** Index of the first cluster close enough to the dominant one. */
  function Best(clusters: seq<Cluster>, dominant: Cluster, lineHeight: int, from: nat): (b: nat)
    requires exists i | from <= i < |clusters| :: InCaption(clusters[i], dominant, lineHeight)
    ensures from <= b < |clusters| && InCaption(clusters[b], dominant, lineHeight)
    ensures forall i | from <= i < b :: !InCaption(clusters[i], dominant, lineHeight)
    decreases |clusters| - from
  {
    if InCaption(clusters[from], dominant, lineHeight) then from
    else Best(clusters, dominant, lineHeight, from + 1)
  }

  function Lowest(vals: seq<real>): (m: real)
    requires vals != []
    ensures m in vals && forall v | v in vals :: m <= v
  {
    if |vals| == 1 then vals[0]
    else
      var m := Lowest(vals[1..]);
      assert vals == [vals[0]] + vals[1..];
      if vals[0] <= m then vals[0] else m
  }

  function Highest(vals: seq<real>): (m: real)
    requires vals != []
    ensures m in vals && forall v | v in vals :: v <= m
  {
    if |vals| == 1 then vals[0]
    else
      var m := Highest(vals[1..]);
      assert vals == [vals[0]] + vals[1..];
      if vals[0] >= m then vals[0] else m
  }

  /** Within ten pixels of the line's range of centres. */
  function InBand(low: real, high: real): Box -> bool {
    b => low - 10.0 <= Centre(b) <= high + 10.0
  }

  function Clusters(boxes: seq<Box>, px: real): seq<Cluster> {
    Group([], SortedCentres(boxes), px)
  }

  /** Clusters are consecutive runs of the sorted centres, each carrying the mean of its run, and
      any two means differ by more than `px`. */
  lemma ClustersAreRuns(boxes: seq<Box>, px: real)
    requires px >= 0.0
    ensures Flatten(Vals(Clusters(boxes, px))) == SortedCentres(boxes)
    ensures Averaged(Clusters(boxes, px)) && Spaced(Clusters(boxes, px), px)
    ensures boxes != [] ==> Clusters(boxes, px) != []
  {
    var cs := SortedCentres(boxes);
    Sorting.SortPermutes(Centres(boxes), Ascending);
    CentresCount(boxes);
    AscendingSorts(boxes);
    GroupVals([], cs, px);
    GroupKeeps([], cs, px, if cs == [] then 0.0 else cs[0]);
  }

  lemma {:induction false} CentresCount(boxes: seq<Box>)
    ensures |Centres(boxes)| == |boxes|
    ensures forall c | c in Centres(boxes) :: exists b :: b in boxes && Centre(b) == c
  {
    if boxes != [] {
      CentresCount(boxes[1..]);
      assert boxes == [boxes[0]] + boxes[1..];
      assert boxes[0] in boxes;
    }
  }

  function DominantLine(boxes: seq<Box>, px: real): Cluster
    requires boxes != [] && px >= 0.0
  {
    ClustersAreRuns(boxes, px);
    Clusters(boxes, px)[Dominant(Clusters(boxes, px))]
  }

  /** The top-most cluster within two and a half line heights of the dominant one. */
  function TopLine(boxes: seq<Box>, px: real): Cluster
    requires boxes != [] && px >= 0.0
  {
    ClustersAreRuns(boxes, px);
    var clusters := Clusters(boxes, px);
    assert InCaption(clusters[Dominant(clusters)], DominantLine(boxes, px), LineHeight(boxes));
    clusters[Best(clusters, DominantLine(boxes, px), LineHeight(boxes), 0)]
  }

  /** The boxes `_pick_first_line` returns. */
  function FirstLine(boxes: seq<Box>, px: real): seq<Box>
    requires boxes != [] && px >= 0.0
  {
    var top := TopLine(boxes, px);
    ClustersAreRuns(boxes, px);
    assert top in Clusters(boxes, px);
    Sorting.Filter(boxes, InBand(Lowest(top.vals), Highest(top.vals)))
  }

  method FindDominant(clusters: seq<Cluster>) returns (d: nat)
    requires clusters != []
    ensures d == Dominant(clusters)
  {
    d := 0;
    for i := 1 to |clusters|
      invariant d == Dominant(clusters[..i])
    {
      assert clusters[..i + 1][..i] == clusters[..i];
      if |clusters[i].vals| > |clusters[d].vals| {
        d := i;
      }
    }
    assert clusters[..|clusters|] == clusters;
  }

  /** `min` by mean over the clusters of the caption. */
  method FindBest(clusters: seq<Cluster>, dominant: Cluster, lineHeight: int, ghost px: real) returns (b: nat)
    requires px >= 0.0 && Spaced(clusters, px)
    requires exists i | 0 <= i < |clusters| :: InCaption(clusters[i], dominant, lineHeight)
    ensures b == Best(clusters, dominant, lineHeight, 0)
  {
    b := |clusters|;
    for i := 0 to |clusters|
      invariant b == |clusters| || (b < i && InCaption(clusters[b], dominant, lineHeight))
      invariant forall k | 0 <= k < i && k < b :: !InCaption(clusters[k], dominant, lineHeight)
    {
      if InCaption(clusters[i], dominant, lineHeight)
        && (b == |clusters| || clusters[i].mean < clusters[b].mean)
      {
        b := i;
      }
    }
  }

  /** Keeps the boxes of the top line of the caption. */
  method PickFirstLine(boxes: seq<Box>, px: real) returns (kept: seq<Box>)
    requires boxes != [] && px >= 0.0
    ensures kept == FirstLine(boxes, px)
  {
    var clusters := ClusterCentres(boxes, px);
    ClustersAreRuns(boxes, px);
    var d := FindDominant(clusters);
    var lineHeight := LineHeight(boxes);
    assert InCaption(clusters[d], clusters[d], lineHeight);
    var b := FindBest(clusters, clusters[d], lineHeight, px);
    var best := clusters[b];
    assert best in clusters;
    kept := Sorting.Filter(boxes, InBand(Lowest(best.vals), Highest(best.vals)));
  }

  lemma {:induction false} InVals(clusters: seq<Cluster>, cl: Cluster, v: real)
    requires cl in clusters && v in cl.vals
    ensures v in Flatten(Vals(clusters))
  {
    if clusters[0] != cl {
      assert clusters == [clusters[0]] + clusters[1..];
      InVals(clusters[1..], cl, v);
    }
  }

  /** The top line is one of the clusters, near the dominant one, and no cluster near the dominant
      one lies above it. */
  lemma TopLineIsTop(boxes: seq<Box>, px: real)
    requires boxes != [] && px >= 0.0
    ensures TopLine(boxes, px) in Clusters(boxes, px)
    ensures InCaption(TopLine(boxes, px), DominantLine(boxes, px), LineHeight(boxes))
    ensures forall cl | cl in Clusters(boxes, px) && InCaption(cl, DominantLine(boxes, px), LineHeight(boxes)) ::
      TopLine(boxes, px).mean <= cl.mean
  {
    ClustersAreRuns(boxes, px);
  }

  lemma CentreOfSomeBox(boxes: seq<Box>, px: real, cl: Cluster, v: real)
    requires px >= 0.0 && cl in Clusters(boxes, px) && v in cl.vals
    ensures exists b :: b in boxes && Centre(b) == v
  {
    ClustersAreRuns(boxes, px);
    InVals(Clusters(boxes, px), cl, v);
    Sorting.SortMembers(Centres(boxes), Ascending);
    CentresCount(boxes);
  }

  /** The result is a non-empty part of the boxes that holds the whole top line. */
  lemma FirstLineHoldsTopLine(boxes: seq<Box>, px: real)
    requires boxes != [] && px >= 0.0
    ensures FirstLine(boxes, px) != []
    ensures forall b | b in FirstLine(boxes, px) :: b in boxes
    ensures forall b | b in boxes && Centre(b) in TopLine(boxes, px).vals :: b in FirstLine(boxes, px)
  {
    var top := TopLine(boxes, px);
    TopLineIsTop(boxes, px);
    ClustersAreRuns(boxes, px);
    var low := Lowest(top.vals);
    Sorting.FilterMembers(boxes, InBand(low, Highest(top.vals)));
    CentreOfSomeBox(boxes, px, top, low);
    var b :| b in boxes && Centre(b) == low;
    assert b in FirstLine(boxes, px);
  }
}
