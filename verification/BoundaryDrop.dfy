/** Where an over-full queue is cut: at the start of a shape, after at least two blank points. */
module BoundaryDrop {
  import opened Points

  /** A visible point preceded by at least two blank ones. */
  predicate IsBoundary(q: seq<LaserPoint>, i: int) {
    && 2 <= i < |q|
    && !IsBlankForBoundary(q[i])
    && IsBlankForBoundary(q[i - 1])
    && IsBlankForBoundary(q[i - 2])
  }

  function FirstBoundary(q: seq<LaserPoint>, from: nat): (r: Option<nat>)
    requires from <= |q|
    ensures r.Some? ==> from <= r.value < |q| && IsBoundary(q, r.value)
                        && forall j :: from <= j < r.value ==> !IsBoundary(q, j)
    ensures r.None? ==> forall j :: from <= j < |q| ==> !IsBoundary(q, j)
    decreases |q| - from
  {
    if from == |q| then None
    else if IsBoundary(q, from) then Some(from)
    else FirstBoundary(q, from + 1)
  }

  function DropCount(q: seq<LaserPoint>, limit: nat): (n: nat)
    ensures n <= |q|
  {
    if |q| <= limit then 0
    else
      var excess := |q| - limit;
      match FirstBoundary(q, Min(Max(excess, 1), |q|))
      case Some(i) => i
      case None => excess
  }

  /**
   * Dropping `n` points is the right cut: what is left fits and is not empty, and the cut is at the least
   * boundary that frees enough room, or exactly at the excess when there is no such boundary.
   */
  ghost predicate IsCut(q: seq<LaserPoint>, limit: nat, n: nat) {
    && n <= |q| <= n + limit
    && (q != [] ==> n < |q|)
    && (n == 0 <==> |q| <= limit)
    && (|q| > limit ==>
          var excess := |q| - limit;
          if exists i :: excess <= i && IsBoundary(q, i)
          then excess <= n && IsBoundary(q, n) && forall i :: excess <= i < n ==> !IsBoundary(q, i)
          else n == excess)
  }

  lemma DropIsCut(q: seq<LaserPoint>, limit: nat)
    requires limit >= 1
    ensures IsCut(q, limit, DropCount(q, limit))
  {
    if |q| > limit {
      assert Min(Max(|q| - limit, 1), |q|) == |q| - limit;
    }
  }

  /** The specification leaves no choice: the drop is the one right cut. */
  lemma OnlyTheDropIsCut(q: seq<LaserPoint>, limit: nat, n: nat)
    requires limit >= 1
    ensures IsCut(q, limit, n) <==> n == DropCount(q, limit)
  {
    DropIsCut(q, limit);
  }

  predicate NoBoundaryFrom(q: seq<LaserPoint>, from: nat) {
    forall i :: from <= i < |q| ==> !IsBoundary(q, i)
  }

  /** No more than the excess is dropped exactly when no boundary follows it, or one stands right at it. */
  lemma DropIsExcess(q: seq<LaserPoint>, limit: nat)
    requires 1 <= limit < |q|
    ensures var excess := |q| - limit;
      DropCount(q, limit) == excess <==> NoBoundaryFrom(q, excess) || IsBoundary(q, excess)
  {
    DropIsCut(q, limit);
  }

  /**
   * What is left covers a target within the limit exactly when no boundary follows the excess, or one does that
   * leaves enough.
   */
  lemma DropCoversTarget(q: seq<LaserPoint>, limit: nat, target: nat)
    requires 1 <= limit < |q| && target <= limit
    ensures var excess := |q| - limit;
      |q| - DropCount(q, limit) >= target <==>
        NoBoundaryFrom(q, excess) || exists i :: excess <= i <= |q| - target && IsBoundary(q, i)
  {
    DropIsCut(q, limit);
  }

  /** The drop can remove far more than the excess: one point too many may cost all but the last one. */
  lemma DropMayExceedExcess(limit: nat) returns (q: seq<LaserPoint>)
    requires limit >= 3
    ensures |q| == limit + 1 && DropCount(q, limit) == limit
  {
    var bright := DEFAULT_POINT.(r := 1.0, i := 1.0);
    q := Repeat(DEFAULT_POINT, limit) + [bright];
    assert forall i :: 0 <= i < limit ==> q[i] == DEFAULT_POINT;
    assert IsBoundary(q, limit);
    assert forall i :: i < limit ==> !IsBoundary(q, i);
    DropIsCut(q, limit);
  }
}
