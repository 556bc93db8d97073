/**
 * The exhaustive search for the smallest admissible tetrahedron
 * (`return_smallest_valid_tetrahedron_indices` in solution.py).
 *
 * Every 4-combination of point positions is visited in lexicographic order; a combination is
 * admissible when the numbers of its four points add up to exactly 100. Among the admissible
 * combinations of smallest volume, the first in that order is reported.
 */
module TetrahedronSearch {
  import opened Results
  import opened Geometry

  /** Four point positions; a combination when they ascend. */
  datatype Quad = Quad(a: nat, b: nat, c: nat, d: nat)

  /** Four distinct positions of a collection of `n` points, in ascending order. */
  predicate IsCombination(n: nat, q: Quad)
  {
    q.a < q.b < q.c < q.d < n
  }

  function Indices(q: Quad): seq<nat>
  {
    [q.a, q.b, q.c, q.d]
  }

  /** The sum of the numbers of the points at positions `ids`, added in order. */
  function NumberTotal(points: seq<Point>, ids: seq<nat>): int
    requires forall t :: 0 <= t < |ids| ==> ids[t] < |points|
  {
    if ids == [] then 0 else NumberTotal(points, ids[..|ids| - 1]) + points[ids[|ids| - 1]].number
  }

  function NumberSum(points: seq<Point>, q: Quad): int
    requires IsCombination(|points|, q)
  {
    NumberTotal(points, Indices(q))
  }

  /** The total over a combination is the sum of its four numbers. */
  lemma NumberSumOfFour(points: seq<Point>, q: Quad)
    requires IsCombination(|points|, q)
    ensures NumberSum(points, q) == points[q.a].number + points[q.b].number + points[q.c].number + points[q.d].number
  {
    var pa, pb, pc := points[q.a].number, points[q.b].number, points[q.c].number;
    assert [q.a, q.b, q.c, q.d][..3] == [q.a, q.b, q.c];
    assert [q.a, q.b, q.c][..2] == [q.a, q.b];
    assert [q.a, q.b][..1] == [q.a];
    assert [q.a][..0] == [];
    assert NumberTotal(points, [q.a]) == pa;
    assert NumberTotal(points, [q.a, q.b]) == pa + pb;
    assert NumberTotal(points, [q.a, q.b, q.c]) == pa + pb + pc;
  }

  /** A combination is admissible when the numbers of its four points add up to exactly 100. */
  predicate IsCandidate(points: seq<Point>, q: Quad)
  {
    IsCombination(|points|, q) && NumberSum(points, q) == 100
  }

  function QuadVolume(points: seq<Point>, q: Quad): real
    requires IsCombination(|points|, q)
  {
    Volume(points[q.a], points[q.b], points[q.c], points[q.d])
  }

  /** Lexicographic order on position tuples: the order in which combinations are visited. */
  predicate LexLess(q: Quad, r: Quad)
  {
    q.a < r.a || (q.a == r.a && (q.b < r.b || (q.b == r.b && (q.c < r.c || (q.c == r.c && q.d < r.d)))))
  }

  /**
   * `q` is what the search must report: an admissible combination whose volume is no larger
   * than that of any admissible combination, and strictly smaller than that of every
   * admissible combination visited before it.
   */
  ghost predicate IsFirstMinimum(points: seq<Point>, q: Quad)
  {
    && IsCandidate(points, q)
    && (forall r :: IsCandidate(points, r) ==> QuadVolume(points, q) <= QuadVolume(points, r))
    && (forall r :: IsCandidate(points, r) && LexLess(r, q) ==> QuadVolume(points, q) < QuadVolume(points, r))
  }

  /** No admissible combination lies before position `pos`. */
  ghost predicate NoCandidateBefore(points: seq<Point>, pos: Quad)
  {
    forall r :: IsCandidate(points, r) ==> !LexLess(r, pos)
  }

  /**
   * Among the admissible combinations before position `pos`, `q` is the first of smallest
   * volume, and `minVolume` is that volume.
   */
  ghost predicate IsFirstMinimumBefore(points: seq<Point>, q: Quad, minVolume: real, pos: Quad)
  {
    && IsCandidate(points, q) && LexLess(q, pos) && minVolume == QuadVolume(points, q)
    && (forall r :: IsCandidate(points, r) && LexLess(r, pos) ==> minVolume <= QuadVolume(points, r))
    && (forall r :: IsCandidate(points, r) && LexLess(r, q) ==> minVolume < QuadVolume(points, r))
  }

  /**
   * What the running best means once every combination before position `pos` has been
   * visited: nothing admissible was seen, or `best` is the first minimum among those seen
   * and `minVolume` its volume.
   */
  ghost predicate BestBefore(points: seq<Point>, best: Option<Quad>, minVolume: real, pos: Quad)
  {
    match best
    case None => NoCandidateBefore(points, pos)
    case Some(q) => IsFirstMinimumBefore(points, q, minVolume, pos)
  }

  /** Two positions before which the same admissible combinations lie support the same running best. */
  lemma SameCandidatesBefore(points: seq<Point>, best: Option<Quad>, minVolume: real, pos: Quad, pos': Quad)
    requires forall r :: IsCombination(|points|, r) ==> (LexLess(r, pos) <==> LexLess(r, pos'))
    requires BestBefore(points, best, minVolume, pos)
    ensures BestBefore(points, best, minVolume, pos')
  {
  }

  /** Entering a loop: a position starts just above the one before it, which skips no combination. */
  lemma EnterLoop(points: seq<Point>, best: Option<Quad>, minVolume: real, pos: Quad, pos': Quad)
    requires BestBefore(points, best, minVolume, pos)
    requires
      || (pos == Quad(pos'.a, 0, 0, 0) && pos'.b == pos'.a + 1 && pos'.c == 0 && pos'.d == 0)
      || (pos == Quad(pos'.a, pos'.b, 0, 0) && pos'.c == pos'.b + 1 && pos'.d == 0)
      || (pos == Quad(pos'.a, pos'.b, pos'.c, 0) && pos'.d == pos'.c + 1)
    ensures BestBefore(points, best, minVolume, pos')
  {
    SameCandidatesBefore(points, best, minVolume, pos, pos');
  }

  /** Leaving a loop: a position that has reached the number of points moves the one before it on. */
  lemma LeaveLoop(points: seq<Point>, best: Option<Quad>, minVolume: real, pos: Quad, pos': Quad)
    requires BestBefore(points, best, minVolume, pos)
    requires
      || (pos == Quad(pos.a, pos.b, pos.c, |points|) && pos' == Quad(pos.a, pos.b, pos.c + 1, 0))
      || (pos == Quad(pos.a, pos.b, |points|, 0) && pos' == Quad(pos.a, pos.b + 1, 0, 0))
      || (pos == Quad(pos.a, |points|, 0, 0) && pos' == Quad(pos.a + 1, 0, 0, 0))
    ensures BestBefore(points, best, minVolume, pos')
  {
    SameCandidatesBefore(points, best, minVolume, pos, pos');
  }

  /** Once every combination has been visited, the running best is the answer. */
  lemma AllVisited(points: seq<Point>, best: Option<Quad>, minVolume: real)
    requires BestBefore(points, best, minVolume, Quad(|points|, 0, 0, 0))
    ensures best.None? <==> forall q :: !IsCandidate(points, q)
    ensures best.Some? ==> IsFirstMinimum(points, best.value)
  {
  }

  /** The inner loop of the source: the sum of the numbers of the four chosen points. */
  method SumNumbers(points: seq<Point>, q: Quad) returns (sum: int)
    requires IsCombination(|points|, q)
    ensures sum == NumberSum(points, q)
  {
    var ids := Indices(q);
    sum := 0;
    for t := 0 to 4
      invariant sum == NumberTotal(points, ids[..t])
    {
      assert ids[..t + 1][..t] == ids[..t];
      sum := sum + points[ids[t]].number;
    }
    assert ids[..4] == ids;
  }

  /**
   * The body of the source's loop for one combination `q`: when its numbers add up to 100 and
   * nothing was kept yet or its volume is strictly below the smallest so far, it becomes the
   * running best. Either way the running best keeps its meaning one combination further on.
   */
  method Visit(points: seq<Point>, q: Quad, best: Option<Quad>, minVolume: real)
    returns (best': Option<Quad>, minVolume': real)
    requires IsCombination(|points|, q)
    requires BestBefore(points, best, minVolume, q)
    ensures BestBefore(points, best', minVolume', Quad(q.a, q.b, q.c, q.d + 1))
  {
    best', minVolume' := best, minVolume;
    var sum := SumNumbers(points, q);
    if sum == 100 {
      var volume := Volume(points[q.a], points[q.b], points[q.c], points[q.d]);
      if best.None? || volume < minVolume {
        best', minVolume' := Some(q), volume;
      }
    }
    var next := Quad(q.a, q.b, q.c, q.d + 1);
    assert forall r :: LexLess(r, next) <==> LexLess(r, q) || r == q;
  }

  /** The innermost level of the enumeration: the combinations (i, j, k, l) for every l after k. */
  method ScanFourth(points: seq<Point>, i: nat, j: nat, k: nat, best: Option<Quad>, minVolume: real)
    returns (best': Option<Quad>, minVolume': real)
    requires i < j < k < |points|
    requires BestBefore(points, best, minVolume, Quad(i, j, k, 0))
    ensures BestBefore(points, best', minVolume', Quad(i, j, k + 1, 0))
  {
    var n := |points|;
    best', minVolume' := best, minVolume;
    EnterLoop(points, best', minVolume', Quad(i, j, k, 0), Quad(i, j, k, k + 1));
    for l: nat := k + 1 to n
      invariant BestBefore(points, best', minVolume', Quad(i, j, k, l))
    {
      best', minVolume' := Visit(points, Quad(i, j, k, l), best', minVolume');
    }
    LeaveLoop(points, best', minVolume', Quad(i, j, k, n), Quad(i, j, k + 1, 0));
  }

  /** The two inner levels of the enumeration: the combinations (i, j, k, l) for every k after j. */
  method ScanThirdAndFourth(points: seq<Point>, i: nat, j: nat, best: Option<Quad>, minVolume: real)
    returns (best': Option<Quad>, minVolume': real)
    requires i < j < |points|
    requires BestBefore(points, best, minVolume, Quad(i, j, 0, 0))
    ensures BestBefore(points, best', minVolume', Quad(i, j + 1, 0, 0))
  {
    var n := |points|;
    best', minVolume' := best, minVolume;
    EnterLoop(points, best', minVolume', Quad(i, j, 0, 0), Quad(i, j, j + 1, 0));
    for k: nat := j + 1 to n
      invariant BestBefore(points, best', minVolume', Quad(i, j, k, 0))
    {
      best', minVolume' := ScanFourth(points, i, j, k, best', minVolume');
    }
    LeaveLoop(points, best', minVolume', Quad(i, j, n, 0), Quad(i, j + 1, 0, 0));
  }

  /**
   * The indices of the first admissible combination of smallest volume, or the empty list when
   * no combination is admissible (in particular when there are fewer than four points).
   */
  method SmallestValidTetrahedron(points: seq<Point>) returns (result: seq<nat>)
    ensures result == [] <==> forall q :: !IsCandidate(points, q)
    ensures result != [] ==> |result| == 4 && IsFirstMinimum(points, Quad(result[0], result[1], result[2], result[3]))
    ensures result != [] ==> result[0] < result[1] < result[2] < result[3] < |points|
    ensures result != [] ==> points[result[0]].number + points[result[1]].number
                             + points[result[2]].number + points[result[3]].number == 100
  {
    var n := |points|;
    var best: Option<Quad> := None;
    var minVolume: real := 0.0;
    for i: nat := 0 to n
      invariant BestBefore(points, best, minVolume, Quad(i, 0, 0, 0))
    {
      EnterLoop(points, best, minVolume, Quad(i, 0, 0, 0), Quad(i, i + 1, 0, 0));
      for j: nat := i + 1 to n
        invariant BestBefore(points, best, minVolume, Quad(i, j, 0, 0))
      {
        best, minVolume := ScanThirdAndFourth(points, i, j, best, minVolume);
      }
      LeaveLoop(points, best, minVolume, Quad(i, n, 0, 0), Quad(i + 1, 0, 0, 0));
    }
    AllVisited(points, best, minVolume);
    match best {
      case None =>
        result := [];
      case Some(q) =>
        // the combination is already ascending, so sorting it changes nothing
        result := Indices(q);
        assert Quad(result[0], result[1], result[2], result[3]) == q;
        NumberSumOfFour(points, q);
    }
  }

  /**
   * The specification leaves no choice: at most one combination is the first minimum, so
   * running the search twice on the same points gives the same answer.
   */
  lemma FirstMinimumIsUnique(points: seq<Point>, q: Quad, q': Quad)
    requires IsFirstMinimum(points, q) && IsFirstMinimum(points, q')
    ensures q == q'
  {
  }

  /** With exactly four points whose numbers add up to 100, the one combination is the answer. */
  lemma FourPointsScenario(points: seq<Point>)
    requires |points| == 4
    requires points[0].number + points[1].number + points[2].number + points[3].number == 100
    ensures IsFirstMinimum(points, Quad(0, 1, 2, 3))
  {
    var q := Quad(0, 1, 2, 3);
    NumberSumOfFour(points, q);
    forall r | IsCombination(4, r)
      ensures r == q
    {
    }
  }
}
