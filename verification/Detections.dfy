/** Overlap ratios of real boxes, and class selection in front of the suppression. */
module Detections {
  import opened Nms
  import opened Wrappers

  /** The callers' boxes: centre, width and height, converted to corners. */
  function FromCentre(cx: real, cy: real, w: real, h: real): Box {
    Box(cx - w / 2.0, cy - h / 2.0, cx + w / 2.0, cy + h / 2.0)
  }

  /** Corners in order. */
  predicate Proper(b: Box) { b.x1 <= b.x2 && b.y1 <= b.y2 }

  lemma FromCentreIsProper(cx: real, cy: real, w: real, h: real)
    ensures
      var b := FromCentre(cx, cy, w, h);
      && b.x2 - b.x1 == w && b.x1 + b.x2 == 2.0 * cx
      && b.y2 - b.y1 == h && b.y1 + b.y2 == 2.0 * cy
      && (Proper(b) <==> w >= 0.0 && h >= 0.0)
  {
  }

  lemma ProductMonotone(a: real, b: real, c: real, d: real)
    requires 0.0 <= a <= c && 0.0 <= b <= d
    ensures 0.0 <= a * b <= c * d
  {
    assert a * b <= a * d;
    assert a * d <= c * d;
  }

  lemma CommonBounds(a1: real, a2: real, b1: real, b2: real)
    requires a1 <= a2 && b1 <= b2
    ensures 0.0 <= Common(a1, a2, b1, b2) <= Length(a1, a2)
    ensures Common(a1, a2, a1, a2) == Length(a1, a2) >= 1.0
  {
  }

  lemma IntersectionBounds(a: Box, b: Box)
    requires Proper(a) && Proper(b)
    ensures 0.0 <= Intersection(a, b) <= Area(a)
    ensures Intersection(a, a) == Area(a)
  {
    CommonBounds(a.x1, a.x2, b.x1, b.x2);
    CommonBounds(a.y1, a.y2, b.y1, b.y2);
    hide Common, Length;
    ProductMonotone(Common(a.x1, a.x2, b.x1, b.x2), Common(a.y1, a.y2, b.y1, b.y2), Length(a.x1, a.x2),
                    Length(a.y1, a.y2));
  }

  lemma CommonSymmetric(a1: real, a2: real, b1: real, b2: real)
    ensures Common(a1, a2, b1, b2) == Common(b1, b2, a1, a2)
  {
  }

  lemma IntersectionSymmetric(a: Box, b: Box)
    ensures Intersection(a, b) == Intersection(b, a)
  {
    CommonSymmetric(a.x1, a.x2, b.x1, b.x2);
    CommonSymmetric(a.y1, a.y2, b.y1, b.y2);
    hide Common;
  }

  lemma AreaAtLeastOne(a: Box)
    requires Proper(a)
    ensures Area(a) >= 1.0
  {
    ProductMonotone(1.0, 1.0, Length(a.x1, a.x2), Length(a.y1, a.y2));
  }

  lemma QuotientBounds(x: real, y: real)
    requires 0.0 <= x <= y && 0.0 < y
    ensures 0.0 <= x / y <= 1.0
  {
    assert (x / y) * y == x;
  }

  /** The ratio is well defined, symmetric, between 0 and 1, and 1 on a box itself. */
  lemma OverlapRatio(a: Box, b: Box)
    requires Proper(a) && Proper(b)
    ensures Union(a, b) >= 1.0 && Union(a, b) == Union(b, a)
    ensures Intersection(a, b) / Union(a, b) == Intersection(b, a) / Union(b, a)
    ensures 0.0 <= Intersection(a, b) / Union(a, b) <= 1.0
    ensures Union(a, a) >= 1.0 && Intersection(a, a) / Union(a, a) == 1.0
  {
    IntersectionBounds(a, b);
    IntersectionBounds(b, a);
    IntersectionSymmetric(a, b);
    hide Intersection, Area;
    AreaAtLeastOne(a);
    AreaAtLeastOne(b);
    RatioOfShares(Intersection(a, b), Area(a), Area(b));
    RatioOfShares(Area(a), Area(a), Area(a));
  }

  lemma RatioOfShares(common: real, a: real, b: real)
    requires 0.0 <= common <= a && common <= b && a >= 1.0 && b >= 1.0
    ensures a + b - common >= 1.0
    ensures 0.0 <= common / (a + b - common) <= 1.0
    ensures common == a == b ==> common / (a + b - common) == 1.0
  {
    QuotientBounds(common, a + b - common);
  }

  lemma {:induction false} SparedAll(order: seq<nat>, top: nat, spares: (nat, nat) -> bool)
    requires forall j :: j in order ==> spares(top, j)
    ensures Spared(order, top, spares) == order
  {
    if order != [] {
      assert order[0] in order && forall j :: j in order[1..] ==> j in order;
      SparedAll(order[1..], top, spares);
    }
  }

  lemma {:induction false} GreedyKeepsAll(order: seq<nat>, spares: (nat, nat) -> bool)
    requires forall i, j :: i in order && j in order ==> spares(i, j)
    ensures Greedy(order, spares) == order
    decreases |order|
  {
    if order != [] {
      assert order[0] in order && forall j :: j in order[1..] ==> j in order;
      SparedAll(order[1..], order[0], spares);
      GreedyKeepsAll(order[1..], spares);
    }
  }

  /** With a threshold of 1 or more nothing is suppressed. */
  lemma HighThresholdKeepsAll(boxes: seq<Box>, scores: seq<real>, threshold: real, order: seq<nat>)
    requires |boxes| == |scores| && ByFallingScore(order, scores) && threshold >= 1.0
    requires forall i :: 0 <= i < |boxes| ==> Proper(boxes[i])
    ensures Greedy(order, Spares(boxes, threshold)) == order
  {
    forall i, j | i in order && j in order
      ensures Spares(boxes, threshold)(i, j)
    {
      OverlapRatio(boxes[i], boxes[j]);
    }
    GreedyKeepsAll(order, Spares(boxes, threshold));
  }

  /** The first index of a largest score. */
  function ArgMax(row: seq<real>): (c: nat)
    requires row != []
    ensures c < |row|
    ensures forall k :: 0 <= k < |row| ==> row[k] <= row[c]
    ensures forall k :: 0 <= k < c ==> row[k] < row[c]
  {
    if |row| == 1 then 0 else
    var c := ArgMax(row[..|row| - 1]);
    if row[|row| - 1] > row[c] then |row| - 1 else c
  }

  function Best(row: seq<real>): real
    requires row != []
  {
    row[ArgMax(row)]
  }

  ghost predicate Rows(scores: seq<seq<real>>) {
    forall i :: 0 <= i < |scores| ==> scores[i] != []
  }

  /** The rows whose best score passes the threshold, in input order. */
  function Valid(scores: seq<seq<real>>, scoreThreshold: real): (valid: seq<nat>)
    requires Rows(scores)
    ensures forall k :: 0 <= k < |valid| ==> valid[k] < |scores| && Best(scores[valid[k]]) > scoreThreshold
    ensures forall i :: 0 <= i < |scores| && Best(scores[i]) > scoreThreshold ==> i in valid
    ensures forall j, k :: 0 <= j < k < |valid| ==> valid[j] < valid[k]
  {
    if scores == [] then [] else
    var n := |scores| - 1;
    var before := Valid(scores[..n], scoreThreshold);
    if Best(scores[n]) > scoreThreshold then before + [n] else before
  }

  datatype Detection = Detection(box: Box, score: real, classId: nat)

  function ValidScores(scores: seq<seq<real>>, scoreThreshold: real): (s: seq<real>)
    requires Rows(scores)
    ensures |s| == |Valid(scores, scoreThreshold)|
  {
    var valid := Valid(scores, scoreThreshold);
    seq(|valid|, k requires 0 <= k < |valid| => Best(scores[valid[k]]))
  }

  function ValidBoxes(boxes: seq<Box>, scores: seq<seq<real>>, scoreThreshold: real): (b: seq<Box>)
    requires Rows(scores) && |boxes| == |scores|
    ensures |b| == |Valid(scores, scoreThreshold)|
  {
    var valid := Valid(scores, scoreThreshold);
    seq(|valid|, k requires 0 <= k < |valid| => boxes[valid[k]])
  }

  ghost predicate IsRow(boxes: seq<Box>, scores: seq<seq<real>>, d: Detection, i: nat) {
    && i < |boxes| && i < |scores|
    && d.box == boxes[i] && d.classId < |scores[i]| && d.score == scores[i][d.classId]
    && (forall c :: 0 <= c < |scores[i]| ==> scores[i][c] <= d.score)
    && (forall c :: 0 <= c < d.classId ==> scores[i][c] < d.score)
  }

  /** A detection is an input box with its first best class and that class's score. */
  ghost predicate RowOf(boxes: seq<Box>, scores: seq<seq<real>>, d: Detection) {
    exists i: nat :: IsRow(boxes, scores, d, i)
  }

  /** Row `i` is among the detections. */
  ghost predicate Reported(boxes: seq<Box>, scores: seq<seq<real>>, dets: seq<Detection>, i: nat) {
    exists k :: 0 <= k < |dets| && IsRow(boxes, scores, dets[k], i)
  }

  /** A detection of at least the row's score overlaps row `i` too much. */
  ghost predicate Suppressed(boxes: seq<Box>, scores: seq<seq<real>>, dets: seq<Detection>, threshold: real, i: nat) {
    && i < |boxes| && i < |scores|
    && exists k :: 0 <= k < |dets| && AtLeastAll(dets[k].score, scores[i]) && !Within(dets[k].box, boxes[i], threshold)
  }

  ghost predicate AtLeastAll(score: real, row: seq<real>) {
    forall c :: 0 <= c < |row| ==> row[c] <= score
  }

  /** The kept rows, gathered from the valid rows. */
  function Gather(boxes: seq<Box>, scores: seq<seq<real>>, valid: seq<nat>, keep: seq<nat>): (dets: seq<Detection>)
    requires Rows(scores) && |boxes| == |scores|
    requires forall k :: 0 <= k < |valid| ==> valid[k] < |scores|
    requires forall k :: 0 <= k < |keep| ==> keep[k] < |valid|
    ensures |dets| == |keep| && forall k :: 0 <= k < |keep| ==> IsRow(boxes, scores, dets[k], valid[keep[k]])
  {
    seq(|keep|, k requires 0 <= k < |keep| =>
      Detection(boxes[valid[keep[k]]], Best(scores[valid[keep[k]]]), ArgMax(scores[valid[keep[k]]])))
  }

  lemma GatheredRow(boxes: seq<Box>, scores: seq<seq<real>>, valid: seq<nat>, keep: seq<nat>, k: nat)
    requires Rows(scores) && |boxes| == |scores|
    requires forall j :: 0 <= j < |valid| ==> valid[j] < |scores|
    requires forall j :: 0 <= j < |keep| ==> keep[j] < |valid|
    requires k < |keep|
    ensures
      var d := Gather(boxes, scores, valid, keep)[k];
      d.score == Best(scores[valid[keep[k]]]) && d.box == boxes[valid[keep[k]]]
  {
  }

  lemma AtLeastBest(score: real, row: seq<real>)
    requires row != [] && score >= Best(row)
    ensures AtLeastAll(score, row)
  {
  }

  /** Every row that passes the score filter is reported, or suppressed by a reported row. */
  lemma GatherCovers(boxes: seq<Box>, scores: seq<seq<real>>, nmsThreshold: real, scoreThreshold: real,
                     order: seq<nat>, i: nat)
    requires Rows(scores) && |boxes| == |scores|
    requires ByFallingScore(order, ValidScores(scores, scoreThreshold))
    requires i < |scores| && Best(scores[i]) > scoreThreshold
    ensures
      var valid := Valid(scores, scoreThreshold);
      var keep := Greedy(order, Spares(ValidBoxes(boxes, scores, scoreThreshold), nmsThreshold));
      && (forall k :: 0 <= k < |keep| ==> keep[k] < |valid|)
      && var dets := Gather(boxes, scores, valid, keep);
      Reported(boxes, scores, dets, i) || Suppressed(boxes, scores, dets, nmsThreshold, i)
  {
    hide Greedy, Spares, Within, Best, AtLeastAll;
    var valid := Valid(scores, scoreThreshold);
    var validScores, validBoxes := ValidScores(scores, scoreThreshold), ValidBoxes(boxes, scores, scoreThreshold);
    var keep := Greedy(order, Spares(validBoxes, nmsThreshold));
    KeptInOrder(validBoxes, validScores, nmsThreshold, order);
    var n :| 0 <= n < |valid| && valid[n] == i;
    KeptAndDropped(validBoxes, validScores, nmsThreshold, order, n);
    var dets := Gather(boxes, scores, valid, keep);
    if n in keep {
      var k :| 0 <= k < |keep| && keep[k] == n;
      assert IsRow(boxes, scores, dets[k], i);
    } else {
      var m :| m in keep && m < |validBoxes| && validScores[m] >= validScores[n]
        && !Within(validBoxes[m], validBoxes[n], nmsThreshold);
      var k :| 0 <= k < |keep| && keep[k] == m;
      GatheredRow(boxes, scores, valid, keep, k);
      AtLeastBest(dets[k].score, scores[i]);
    }
  }

  lemma SomeValid(scores: seq<seq<real>>, scoreThreshold: real)
    requires Rows(scores)
    ensures Valid(scores, scoreThreshold) == []
      <==> forall i :: 0 <= i < |scores| ==> AtLeastAll(scoreThreshold, scores[i])
    ensures forall i :: 0 <= i < |scores| ==>
      (AtLeastAll(scoreThreshold, scores[i]) <==> Best(scores[i]) <= scoreThreshold)
  {
    var valid := Valid(scores, scoreThreshold);
    forall i | 0 <= i < |scores|
      ensures AtLeastAll(scoreThreshold, scores[i]) <==> Best(scores[i]) <= scoreThreshold
    {
      assert scores[i][ArgMax(scores[i])] == Best(scores[i]);
    }
    if valid != [] {
      assert Best(scores[valid[0]]) > scoreThreshold;
    }
  }

  /** A gathered row is an input row, with the score and the box it was suppressed by. */
  lemma GatheredRows(boxes: seq<Box>, scores: seq<seq<real>>, scoreThreshold: real, keep: seq<nat>)
    requires Rows(scores) && |boxes| == |scores|
    requires forall k :: 0 <= k < |keep| ==> keep[k] < |Valid(scores, scoreThreshold)|
    ensures
      var dets := Gather(boxes, scores, Valid(scores, scoreThreshold), keep);
      forall k :: 0 <= k < |dets| ==>
        && RowOf(boxes, scores, dets[k])
        && dets[k].score == ValidScores(scores, scoreThreshold)[keep[k]] > scoreThreshold
        && dets[k].box == ValidBoxes(boxes, scores, scoreThreshold)[keep[k]]
  {
    var valid := Valid(scores, scoreThreshold);
    var dets := Gather(boxes, scores, valid, keep);
    forall k | 0 <= k < |dets|
      ensures RowOf(boxes, scores, dets[k])
    {
      assert IsRow(boxes, scores, dets[k], valid[keep[k]]);
    }
  }

  /** What detection yields: nothing, or the kept rows in the order in which they were kept. */
  function Detected(boxes: seq<Box>, scores: seq<seq<real>>, nmsThreshold: real, scoreThreshold: real, order: seq<nat>)
    : Option<seq<Detection>>
    requires Rows(scores) && |boxes| == |scores|
    requires ByFallingScore(order, ValidScores(scores, scoreThreshold))
  {
    var valid, validBoxes := Valid(scores, scoreThreshold), ValidBoxes(boxes, scores, scoreThreshold);
    KeptInOrder(validBoxes, ValidScores(scores, scoreThreshold), nmsThreshold, order);
    if |valid| == 0 then None else Some(Gather(boxes, scores, valid, Greedy(order, Spares(validBoxes, nmsThreshold))))
  }

  /**
   * Class-agnostic detection: best class per row, score filter, suppression. `order` is what the sort of
   * the valid scores returned. No row passing the filter gives no result at all.
   */
  method MulticlassNms(boxes: seq<Box>, scores: seq<seq<real>>, nmsThreshold: real, scoreThreshold: real,
                       order: seq<nat>)
    returns (result: Option<seq<Detection>>)
    requires Rows(scores) && |boxes| == |scores|
    requires ByFallingScore(order, ValidScores(scores, scoreThreshold))
    ensures result == Detected(boxes, scores, nmsThreshold, scoreThreshold, order)
    ensures result == None <==> forall i :: 0 <= i < |scores| ==> AtLeastAll(scoreThreshold, scores[i])
    ensures result.Some? ==>
      && result.value != []
      && (forall k :: 0 <= k < |result.value| ==>
            RowOf(boxes, scores, result.value[k]) && result.value[k].score > scoreThreshold)
      && (forall j, k :: 0 <= j < k < |result.value| ==>
            && result.value[j].score >= result.value[k].score
            && Within(result.value[j].box, result.value[k].box, nmsThreshold))
      && (forall i :: 0 <= i < |scores| && !AtLeastAll(scoreThreshold, scores[i]) ==>
            Reported(boxes, scores, result.value, i) || Suppressed(boxes, scores, result.value, nmsThreshold, i))
  {
    var valid := Valid(scores, scoreThreshold);
    SomeValid(scores, scoreThreshold);
    if |valid| == 0 {
      return None;
    }
    var validScores, validBoxes := ValidScores(scores, scoreThreshold), ValidBoxes(boxes, scores, scoreThreshold);
    var keep := Suppress(validBoxes, validScores, nmsThreshold, order);
    KeptInOrder(validBoxes, validScores, nmsThreshold, order);
    assert 0 in order;
    var dets := Gather(boxes, scores, valid, keep);
    GatheredRows(boxes, scores, scoreThreshold, keep);
    hide Within, Gather, Valid, ValidScores, ValidBoxes, Greedy, Reported, Suppressed, RowOf;
    forall i | 0 <= i < |scores| && !AtLeastAll(scoreThreshold, scores[i])
      ensures Reported(boxes, scores, dets, i) || Suppressed(boxes, scores, dets, nmsThreshold, i)
    {
      GatherCovers(boxes, scores, nmsThreshold, scoreThreshold, order, i);
    }
    result := Some(dets);
  }

  ghost predicate Falling(order: seq<nat>, scores: seq<real>) {
    && (forall i :: 0 <= i < |order| ==> order[i] < |scores|)
    && (forall i, j :: 0 <= i < j < |order| ==> scores[order[i]] >= scores[order[j]])
  }

  lemma FallingCons(head: nat, tail: seq<nat>, scores: seq<real>)
    requires head < |scores| && Falling(tail, scores)
    requires forall j :: j in tail && j < |scores| ==> scores[head] >= scores[j]
    ensures Falling([head] + tail, scores)
  {
    var all := [head] + tail;
    forall i, j | 0 <= i < j < |all|
      ensures all[i] < |scores| && all[j] < |scores| && scores[all[i]] >= scores[all[j]]
    {
      assert all[j] == tail[j - 1];
      if i == 0 {
        assert tail[j - 1] in tail;
      } else {
        assert all[i] == tail[i - 1];
      }
    }
  }

  lemma {:induction false} RestrictFalls(order: seq<nat>, kept: set<nat>, scores: seq<real>)
    requires Falling(order, scores)
    ensures Falling(Restrict(order, kept), scores)
  {
    if order != [] {
      var head, tail := order[0], order[1..];
      assert Falling(tail, scores);
      RestrictFalls(tail, kept, scores);
      if head in kept {
        RestrictMembers(tail, kept);
        forall j | j in Restrict(tail, kept) && j < |scores|
          ensures scores[head] >= scores[j]
        {
          var k :| 0 <= k < |Restrict(tail, kept)| && Restrict(tail, kept)[k] == j;
          var i :| 0 <= i < |tail| && tail[i] == j;
          assert order[i + 1] == j;
        }
        FallingCons(head, Restrict(tail, kept), scores);
      }
    }
  }

  lemma {:induction false} RestrictMembers(order: seq<nat>, kept: set<nat>)
    ensures forall k :: 0 <= k < |Restrict(order, kept)| ==> Restrict(order, kept)[k] in order
  {
    if order != [] {
      RestrictMembers(order[1..], kept);
      assert order == [order[0]] + order[1..];
    }
  }

  lemma KeptInOrder(boxes: seq<Box>, scores: seq<real>, threshold: real, order: seq<nat>)
    requires |boxes| == |scores| && ByFallingScore(order, scores)
    ensures
      var keep := Greedy(order, Spares(boxes, threshold));
      && (order != [] ==> keep != [])
      && (forall k :: 0 <= k < |keep| ==> keep[k] < |boxes|)
      && (forall j, k :: 0 <= j < k < |keep| ==> scores[keep[j]] >= scores[keep[k]])
      && (forall j, k :: 0 <= j < k < |keep| ==> Within(boxes[keep[j]], boxes[keep[k]], threshold))
  {
    var keep := Greedy(order, Spares(boxes, threshold));
    assert forall i :: 0 <= i < |order| ==> order[i] in order;
    GreedyAsRestriction(order, Spares(boxes, threshold));
    RestrictFalls(order, Members(keep), scores);
    KeptAndDropped(boxes, scores, threshold, order, 0);
  }

  /** The callers filter the detections by the same score threshold once more. */
  function FilterAgain(dets: seq<Detection>, scoreThreshold: real): seq<Detection> {
    if dets == [] then []
    else (if dets[0].score > scoreThreshold then [dets[0]] else []) + FilterAgain(dets[1..], scoreThreshold)
  }

  /** It keeps exactly the rows above the threshold. */
  lemma {:induction false} FilterKeeps(dets: seq<Detection>, scoreThreshold: real, d: Detection)
    ensures d in FilterAgain(dets, scoreThreshold) <==> d in dets && d.score > scoreThreshold
  {
    if dets != [] {
      FilterKeeps(dets[1..], scoreThreshold, d);
      assert dets == [dets[0]] + dets[1..];
    }
  }

  lemma {:induction false} FilterOfPassing(dets: seq<Detection>, scoreThreshold: real)
    requires forall k :: 0 <= k < |dets| ==> dets[k].score > scoreThreshold
    ensures FilterAgain(dets, scoreThreshold) == dets
  {
    if dets != [] {
      FilterOfPassing(dets[1..], scoreThreshold);
    }
  }

  lemma DetectedPass(boxes: seq<Box>, scores: seq<seq<real>>, nmsThreshold: real, scoreThreshold: real, order: seq<nat>)
    requires Rows(scores) && |boxes| == |scores|
    requires ByFallingScore(order, ValidScores(scores, scoreThreshold))
    ensures
      var result := Detected(boxes, scores, nmsThreshold, scoreThreshold, order);
      result.Some? ==> forall k :: 0 <= k < |result.value| ==> result.value[k].score > scoreThreshold
  {
    hide Within, ValidScores, ValidBoxes, Valid, Best, Gather, RowOf, ByFallingScore;
    var validBoxes := ValidBoxes(boxes, scores, scoreThreshold);
    KeptInOrder(validBoxes, ValidScores(scores, scoreThreshold), nmsThreshold, order);
    GatheredRows(boxes, scores, scoreThreshold, Greedy(order, Spares(validBoxes, nmsThreshold)));
  }

  /** That second filter drops no row of a detection result. */
  lemma SecondFilterDropsNothing(boxes: seq<Box>, scores: seq<seq<real>>, nmsThreshold: real, scoreThreshold: real,
                                 order: seq<nat>)
    requires Rows(scores) && |boxes| == |scores|
    requires ByFallingScore(order, ValidScores(scores, scoreThreshold))
    ensures
      var result := Detected(boxes, scores, nmsThreshold, scoreThreshold, order);
      result.Some? ==> FilterAgain(result.value, scoreThreshold) == result.value
  {
    hide Detected, ByFallingScore, ValidScores, Rows;
    DetectedPass(boxes, scores, nmsThreshold, scoreThreshold, order);
    var result := Detected(boxes, scores, nmsThreshold, scoreThreshold, order);
    if result.Some? {
      FilterOfPassing(result.value, scoreThreshold);
    }
  }
}
