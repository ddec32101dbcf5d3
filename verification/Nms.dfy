/** Greedy non-maximum suppression over boxes with scores. Floats are modelled as reals. */
module Nms {
  import opened Seqs

  datatype Box = Box(x1: real, y1: real, x2: real, y2: real)

  function Max(a: real, b: real): real { if a >= b then a else b }

  function Min(a: real, b: real): real { if a <= b then a else b }

  /** Pixel-inclusive length. */
  function Length(from: real, to: real): real { to - from + 1.0 }

  function Area(b: Box): real { Length(b.x1, b.x2) * Length(b.y1, b.y2) }

  /** Length of the common part of two pixel ranges, clipped at zero. */
  function Common(a1: real, a2: real, b1: real, b2: real): real {
    Max(0.0, Length(Max(a1, b1), Min(a2, b2)))
  }

  function Intersection(a: Box, b: Box): real {
    Common(a.x1, a.x2, b.x1, b.x2) * Common(a.y1, a.y2, b.y1, b.y2)
  }

  function Union(a: Box, b: Box): real { Area(a) + Area(b) - Intersection(a, b) }

  /**
   * The overlap ratio is at most the threshold. With a zero denominator the ratio is infinite or not a
   * number, and neither compares as at most anything.
   */
  predicate Within(a: Box, b: Box, threshold: real) {
    Union(a, b) != 0.0 && Intersection(a, b) / Union(a, b) <= threshold
  }

  /** Which candidates a kept box spares. */
  function Spares(boxes: seq<Box>, threshold: real): (nat, nat) -> bool {
    (i: nat, j: nat) => i < |boxes| && j < |boxes| && Within(boxes[i], boxes[j], threshold)
  }

  // The algorithm, over an abstract relation that says which later candidates a kept one spares

  function Spared(order: seq<nat>, top: nat, spares: (nat, nat) -> bool): seq<nat> {
    if order == [] then []
    else (if spares(top, order[0]) then [order[0]] else []) + Spared(order[1..], top, spares)
  }

  lemma {:induction false} SparedShorter(order: seq<nat>, top: nat, spares: (nat, nat) -> bool)
    ensures |Spared(order, top, spares)| <= |order|
    ensures forall j :: j in Spared(order, top, spares) <==> j in order && spares(top, j)
  {
    if order != [] {
      SparedShorter(order[1..], top, spares);
      assert order == [order[0]] + order[1..];
    }
  }

  function Greedy(order: seq<nat>, spares: (nat, nat) -> bool): seq<nat>
    decreases |order|
  {
    if order == [] then [] else
    SparedShorter(order[1..], order[0], spares);
    [order[0]] + Greedy(Spared(order[1..], order[0], spares), spares)
  }

  ghost predicate Distinct(s: seq<nat>) {
    forall i, j :: 0 <= i < j < |s| ==> s[i] != s[j]
  }

  /** An order of all box indices by falling score; ties may fall either way. */
  ghost predicate ByFallingScore(order: seq<nat>, scores: seq<real>) {
    && Distinct(order)
    && (forall k :: k in order <==> 0 <= k < |scores|)
    && (forall i, j :: 0 <= i < j < |order| && order[i] < |scores| && order[j] < |scores| ==>
          scores[order[i]] >= scores[order[j]])
  }

  /** The suppression loop: keep the best candidate, go on with those it spares. */
  method Suppress(boxes: seq<Box>, scores: seq<real>, threshold: real, order: seq<nat>) returns (keep: seq<nat>)
    requires |boxes| == |scores| && ByFallingScore(order, scores)
    ensures keep == Greedy(order, Spares(boxes, threshold))
  {
    var spares := Spares(boxes, threshold);
    keep := [];
    var rest := order;
    while |rest| > 0
      invariant Greedy(order, spares) == keep + Greedy(rest, spares)
      decreases |rest|
    {
      var top := rest[0];
      AppendAssociates(keep, [top], Greedy(Spared(rest[1..], top, spares), spares));
      keep := keep + [top];
      SparedShorter(rest[1..], top, spares);
      rest := Spared(rest[1..], top, spares);
    }
  }

  // What the kept list is, without reference to the algorithm

  function Restrict(order: seq<nat>, kept: set<nat>): seq<nat> {
    if order == [] then []
    else (if order[0] in kept then [order[0]] else []) + Restrict(order[1..], kept)
  }

  ghost predicate SparedByAll(kept: set<nat>, j: nat, spares: (nat, nat) -> bool) {
    forall k :: k in kept ==> spares(k, j)
  }

  /** Of `order`, `kept` are exactly the candidates spared by all of `earlier` and by every earlier kept one. */
  ghost predicate KeptAfter(order: seq<nat>, earlier: set<nat>, spares: (nat, nat) -> bool, kept: set<nat>) {
    forall j :: 0 <= j < |order| ==>
      (order[j] in kept <==>
        SparedByAll(earlier, order[j], spares) && forall i :: 0 <= i < j && order[i] in kept ==>
          spares(order[i], order[j]))
  }

  ghost predicate KeptSet(order: seq<nat>, spares: (nat, nat) -> bool, kept: set<nat>) {
    forall j :: 0 <= j < |order| ==>
      (order[j] in kept <==> forall i :: 0 <= i < j && order[i] in kept ==> spares(order[i], order[j]))
  }

  /** One pass over the candidates that remembers what it kept; it links the loop to the equations. */
  ghost function Sift(order: seq<nat>, kept: set<nat>, spares: (nat, nat) -> bool): seq<nat> {
    if order == [] then []
    else if SparedByAll(kept, order[0], spares) then [order[0]] + Sift(order[1..], kept + {order[0]}, spares)
    else Sift(order[1..], kept, spares)
  }

  lemma {:induction false} SiftOfSpared(order: seq<nat>, top: nat, kept: set<nat>, spares: (nat, nat) -> bool)
    ensures Sift(order, kept + {top}, spares) == Sift(Spared(order, top, spares), kept, spares)
  {
    if order != [] {
      var head, tail := order[0], order[1..];
      SiftOfSpared(tail, top, kept, spares);
      SiftOfSpared(tail, top, kept + {head}, spares);
      assert kept + {top} + {head} == kept + {head} + {top};
      if spares(top, head) {
        assert Spared(order, top, spares)[1..] == Spared(tail, top, spares);
        assert SparedByAll(kept + {top}, head, spares) <==> SparedByAll(kept, head, spares);
      } else {
        assert top in kept + {top};
        assert Spared(order, top, spares) == Spared(tail, top, spares);
      }
    }
  }

  lemma {:induction false} GreedyIsSift(order: seq<nat>, spares: (nat, nat) -> bool)
    ensures Greedy(order, spares) == Sift(order, {}, spares)
    decreases |order|
  {
    if order != [] {
      SparedShorter(order[1..], order[0], spares);
      GreedyIsSift(Spared(order[1..], order[0], spares), spares);
      SiftOfSpared(order[1..], order[0], {}, spares);
    }
  }

  lemma {:induction false} SiftIsKept(order: seq<nat>, earlier: set<nat>, spares: (nat, nat) -> bool, kept: set<nat>)
    requires KeptAfter(order, earlier, spares, kept)
    ensures Sift(order, earlier, spares) == Restrict(order, kept)
  {
    if order != [] {
      var head, tail := order[0], order[1..];
      var earlier' := if head in kept then earlier + {head} else earlier;
      forall j | 0 <= j < |tail|
        ensures tail[j] in kept <==>
          SparedByAll(earlier', tail[j], spares) && forall i :: 0 <= i < j && tail[i] in kept ==>
            spares(tail[i], tail[j])
      {
        assert tail[j] == order[j + 1] && forall i :: 0 <= i < j ==> tail[i] == order[i + 1];
        assert SparedByAll(earlier', tail[j], spares) <==>
          SparedByAll(earlier, tail[j], spares) && (head in kept ==> spares(head, tail[j]));
        assert (forall i :: 0 <= i < j + 1 && order[i] in kept ==> spares(order[i], order[j + 1])) <==>
          (head in kept ==> spares(head, tail[j])) && forall i :: 0 <= i < j && tail[i] in kept ==>
            spares(tail[i], tail[j]);
      }
      SiftIsKept(tail, earlier', spares, kept);
    }
  }

  ghost function Members(s: seq<nat>): set<nat> { set j | j in s }

  lemma {:induction false} SiftSolves(order: seq<nat>, earlier: set<nat>, spares: (nat, nat) -> bool)
    requires Distinct(order)
    ensures KeptAfter(order, earlier, spares, Members(Sift(order, earlier, spares)))
    ensures forall j :: j in Sift(order, earlier, spares) ==> j in order
  {
    if order != [] {
      var head, tail := order[0], order[1..];
      var keepsHead := SparedByAll(earlier, head, spares);
      var earlier' := if keepsHead then earlier + {head} else earlier;
      SiftSolves(tail, earlier', spares);
      var kept, kept' := Members(Sift(order, earlier, spares)), Members(Sift(tail, earlier', spares));
      assert head !in tail;
      assert forall j :: j in tail ==> (j in kept <==> j in kept');
      assert head in kept <==> keepsHead;
      forall j | 0 < j < |order|
        ensures order[j] in kept <==>
          SparedByAll(earlier, order[j], spares) && forall i :: 0 <= i < j && order[i] in kept ==>
            spares(order[i], order[j])
      {
        assert order[j] == tail[j - 1] && forall i :: 0 < i < j ==> order[i] == tail[i - 1];
        assert SparedByAll(earlier', tail[j - 1], spares) <==>
          SparedByAll(earlier, order[j], spares) && (head in kept ==> spares(head, order[j]));
        assert (forall i :: 0 <= i < j && order[i] in kept ==> spares(order[i], order[j])) <==>
          (head in kept ==> spares(head, order[j]))
          && forall i :: 0 <= i < j - 1 && tail[i] in kept ==> spares(tail[i], tail[j - 1]);
      }
    }
  }

  /**
   * The kept list is the one and only greedy set: a candidate is kept exactly when every earlier kept one
   * spares it, and any set with that property, listed in order, is what the loop returns.
   */
  lemma GreedyIsTheKeptSet(order: seq<nat>, spares: (nat, nat) -> bool, kept: set<nat>)
    requires Distinct(order)
    ensures KeptSet(order, spares, Members(Greedy(order, spares)))
    ensures KeptSet(order, spares, kept) ==> Greedy(order, spares) == Restrict(order, kept)
  {
    hide KeptSet, KeptAfter, Sift, Restrict, Distinct, Members;
    GreedyIsSift(order, spares);
    SiftSolves(order, {}, spares);
    KeptAfterNone(order, spares, Members(Sift(order, {}, spares)));
    KeptAfterNone(order, spares, kept);
    if KeptSet(order, spares, kept) {
      SiftIsKept(order, {}, spares, kept);
    }
  }

  lemma KeptAfterNone(order: seq<nat>, spares: (nat, nat) -> bool, kept: set<nat>)
    ensures KeptAfter(order, {}, spares, kept) <==> KeptSet(order, spares, kept)
  {
    assert forall j: nat :: SparedByAll({}, j, spares);
  }

  lemma GreedyAsRestriction(order: seq<nat>, spares: (nat, nat) -> bool)
    requires Distinct(order)
    ensures Greedy(order, spares) == Restrict(order, Members(Greedy(order, spares)))
  {
    GreedyIsTheKeptSet(order, spares, Members(Greedy(order, spares)));
  }

  lemma {:induction false} SiftPairwise(order: seq<nat>, earlier: set<nat>, spares: (nat, nat) -> bool)
    ensures forall a :: 0 <= a < |Sift(order, earlier, spares)| ==>
      SparedByAll(earlier, Sift(order, earlier, spares)[a], spares)
    ensures forall a, b :: 0 <= a < b < |Sift(order, earlier, spares)| ==>
      spares(Sift(order, earlier, spares)[a], Sift(order, earlier, spares)[b])
  {
    if order != [] {
      var head, tail := order[0], order[1..];
      if SparedByAll(earlier, head, spares) {
        SiftPairwise(tail, earlier + {head}, spares);
        var rest := Sift(tail, earlier + {head}, spares);
        assert Sift(order, earlier, spares) == [head] + rest;
        forall a | 0 <= a < |rest|
          ensures spares(head, rest[a]) && SparedByAll(earlier, rest[a], spares)
        {
          assert SparedByAll(earlier + {head}, rest[a], spares);
          assert head in earlier + {head};
        }
      } else {
        SiftPairwise(tail, earlier, spares);
      }
    }
  }

  lemma KeptSpareEachOther(order: seq<nat>, spares: (nat, nat) -> bool)
    ensures forall a, b :: 0 <= a < b < |Greedy(order, spares)| ==>
      spares(Greedy(order, spares)[a], Greedy(order, spares)[b])
  {
    GreedyIsSift(order, spares);
    SiftPairwise(order, {}, spares);
  }

  lemma DroppedIsSuppressed(order: seq<nat>, spares: (nat, nat) -> bool, n: nat) returns (m: nat)
    requires Distinct(order) && n < |order| && order[n] !in Greedy(order, spares)
    ensures m < n && order[m] in Greedy(order, spares) && !spares(order[m], order[n])
  {
    GreedyIsTheKeptSet(order, spares, {});
    hide Greedy;
    assert order[n] !in Members(Greedy(order, spares));
    m :| 0 <= m < n && order[m] in Members(Greedy(order, spares)) && !spares(order[m], order[n]);
  }

  /**
   * Kept candidates spare each other, the earlier the later; a dropped one has a kept suppressor of at least its
   * score.
   */
  lemma KeptAndDropped(boxes: seq<Box>, scores: seq<real>, threshold: real, order: seq<nat>, j: nat)
    requires |boxes| == |scores| && ByFallingScore(order, scores)
    ensures
      var keep := Greedy(order, Spares(boxes, threshold));
      && (forall a, b :: 0 <= a < b < |keep| ==>
            keep[a] < |boxes| && keep[b] < |boxes| && Within(boxes[keep[a]], boxes[keep[b]], threshold))
      && (j < |boxes| && j !in keep ==>
            exists i :: i in keep && i < |boxes| && scores[i] >= scores[j] && !Within(boxes[i], boxes[j], threshold))
  {
    var spares := Spares(boxes, threshold);
    var keep := Greedy(order, spares);
    KeptSpareEachOther(order, spares);
    forall a, b | 0 <= a < b < |keep|
      ensures keep[a] < |boxes| && keep[b] < |boxes| && Within(boxes[keep[a]], boxes[keep[b]], threshold)
    {
      assert spares(keep[a], keep[b]);
    }
    if j < |boxes| && j !in keep {
      assert j in order;
      var n :| 0 <= n < |order| && order[n] == j;
      var m := DroppedIsSuppressed(order, spares, n);
      assert order[m] in order;
    }
  }

  /** Input that was suppressed anyway does not matter. */
  lemma {:induction false} SiftStable(order: seq<nat>, earlier: set<nat>, spares: (nat, nat) -> bool,
                                      remaining: set<nat>)
    requires forall j :: j in Sift(order, earlier, spares) ==> j in remaining
    ensures Sift(Restrict(order, remaining), earlier, spares) == Sift(order, earlier, spares)
  {
    if order != [] {
      var head, tail := order[0], order[1..];
      if SparedByAll(earlier, head, spares) {
        assert head in Sift(order, earlier, spares);
        assert forall j :: j in Sift(tail, earlier + {head}, spares) ==> j in Sift(order, earlier, spares);
        SiftStable(tail, earlier + {head}, spares, remaining);
        assert Restrict(order, remaining)[1..] == Restrict(tail, remaining);
      } else {
        SiftStable(tail, earlier, spares, remaining);
        if head in remaining {
          assert Restrict(order, remaining)[1..] == Restrict(tail, remaining);
        } else {
          assert Restrict(order, remaining) == Restrict(tail, remaining);
        }
      }
    }
  }

  /** Deleting any suppressed candidates leaves the kept list as it is; so suppressing twice is suppressing once. */
  lemma SuppressedDoNotMatter(order: seq<nat>, spares: (nat, nat) -> bool, remaining: set<nat>)
    requires Distinct(order) && Members(Greedy(order, spares)) <= remaining
    ensures Greedy(Restrict(order, remaining), spares) == Greedy(order, spares)
    ensures Greedy(Greedy(order, spares), spares) == Greedy(order, spares)
  {
    var keep := Greedy(order, spares);
    GreedyIsSift(order, spares);
    SiftStable(order, {}, spares, remaining);
    GreedyIsSift(Restrict(order, remaining), spares);
    GreedyAsRestriction(order, spares);
    SiftStable(order, {}, spares, Members(keep));
    GreedyIsSift(keep, spares);
  }

  lemma {:induction false} SiftOfGroup(order: seq<nat>, earlier: set<nat>, spares: (nat, nat) -> bool, group: set<nat>)
    requires forall i, j :: (i in order || i in earlier) && j in order && (i in group <==> j !in group) ==> spares(i, j)
    ensures Restrict(Sift(order, earlier, spares), group) == Sift(Restrict(order, group), earlier * group, spares)
  {
    if order != [] {
      var head, tail := order[0], order[1..];
      assert head in order && forall j :: j in tail ==> j in order;
      assert head in group ==> (SparedByAll(earlier, head, spares) <==> SparedByAll(earlier * group, head, spares));
      var earlier' := if SparedByAll(earlier, head, spares) then earlier + {head} else earlier;
      SiftOfGroup(tail, earlier', spares, group);
      var rest := Sift(tail, earlier', spares);
      if SparedByAll(earlier, head, spares) {
        assert Sift(order, earlier, spares) == [head] + rest && ([head] + rest)[1..] == rest;
      }
      if head in group {
        assert Restrict(order, group)[1..] == Restrict(tail, group);
        assert (earlier + {head}) * group == earlier * group + {head};
      } else {
        assert Restrict(order, group) == Restrict(tail, group);
        assert (earlier + {head}) * group == earlier * group;
      }
    }
  }

  /** Two groups of boxes without overlap across them are suppressed independently. */
  lemma GroupsAreIndependent(order: seq<nat>, spares: (nat, nat) -> bool, group: set<nat>)
    requires forall i, j :: i in order && j in order && (i in group <==> j !in group) ==> spares(i, j)
    ensures Restrict(Greedy(order, spares), group) == Greedy(Restrict(order, group), spares)
  {
    GreedyIsSift(order, spares);
    GreedyIsSift(Restrict(order, group), spares);
    SiftOfGroup(order, {}, spares, group);
    assert {} * group == {};
  }

  lemma {:induction false} MembersOfRestrict(order: seq<nat>, kept: set<nat>)
    ensures Members(Restrict(order, kept)) == Members(order) * kept
  {
    if order != [] {
      MembersOfRestrict(order[1..], kept);
      assert Members(order) == {order[0]} + Members(order[1..]);
      var rest := Restrict(order[1..], kept);
      if order[0] in kept {
        assert Members([order[0]] + rest) == {order[0]} + Members(rest);
      } else {
        assert [] + rest == rest;
      }
    }
  }

  lemma GreedyMembers(order: seq<nat>, spares: (nat, nat) -> bool)
    requires Distinct(order)
    ensures Members(Greedy(order, spares)) <= Members(order)
  {
    GreedyIsSift(order, spares);
    SiftSolves(order, {}, spares);
  }

  /** So the result for both groups is what is kept of each, merged in the order of the scores. */
  lemma GroupsMerge(order: seq<nat>, spares: (nat, nat) -> bool, group: set<nat>)
    requires Distinct(order)
    requires forall i, j :: i in order && j in order && (i in group <==> j !in group) ==> spares(i, j)
    ensures
      var inside := Greedy(Restrict(order, group), spares);
      var outside := Greedy(Restrict(order, Members(order) - group), spares);
      Greedy(order, spares) == Restrict(order, Members(inside) + Members(outside))
  {
    var keep, others := Greedy(order, spares), Members(order) - group;
    GroupsAreIndependent(order, spares, group);
    GroupsAreIndependent(order, spares, others);
    MembersOfRestrict(keep, group);
    MembersOfRestrict(keep, others);
    GreedyMembers(order, spares);
    assert Members(keep) * group + Members(keep) * others == Members(keep);
    GreedyAsRestriction(order, spares);
  }
}
