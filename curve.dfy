/**
 * ParametricCurve, the base of every curve: its type hint and dimension
 * count, the drawers told to recompute a changed range, and the set-up of
 * compute_t.  The older copy of PiecewiseCurve kept in the same file differs
 * from the newer one only in remove_curveseg, which holds the removed length
 * in an int.
 */
module CurveModel {
  import opened PiecewiseCurveModel

  const PCT_NONE: int := 0
  const PCT_XYZ: int := 1
  const PCT_HPR: int := 2
  const PCT_T: int := 3

  /** A drawer's recompute(t1, t2) call. */
  datatype Recompute = Recompute(drawer: nat, t1: real, t2: real)

  /** Where compute_t stands before its search: done already, or searching from a guess. */
  datatype TSearch = Done(t: real) | Search(guess: real)

  /**
   * The set-up of compute_t: a zero offset returns start_t at once; otherwise
   * the guess is mirrored (or moved one unit) to the side of start_t the
   * offset points to.
   */
  function ComputeTSetup(startT: real, lengthOffset: real, guess: real): (r: TSearch)
    ensures lengthOffset == 0.0 <==> r == Done(startT)
    ensures lengthOffset > 0.0 ==> r.Search? && r.guess > startT
    ensures lengthOffset < 0.0 ==> r.Search? && r.guess < startT
    ensures lengthOffset > 0.0 && guess > startT ==> r == Search(guess)
    ensures lengthOffset < 0.0 && guess < startT ==> r == Search(guess)
  {
    if lengthOffset > 0.0 then
      if guess < startT then Search(startT + (startT - guess))
      else if guess == startT then Search(startT + 1.0)
      else Search(guess)
    else if lengthOffset < 0.0 then
      if guess > startT then Search(startT - (guess - startT))
      else if guess == startT then Search(startT - 1.0)
      else Search(guess)
    else Done(startT)
  }

  /** A C++ conversion of a double to int: the fraction is dropped toward zero. */
  function TruncToInt(x: real): (r: int)
    ensures x >= 0.0 ==> r as real <= x < r as real + 1.0
    ensures x < 0.0 ==> r as real - 1.0 < x <= r as real
  {
    if x >= 0.0 then x.Floor else -((-x).Floor)
  }

  /** The segments after the older remove_curveseg: later ends move back by the truncated length. */
  function LegacyRemoved(segs: seq<Curveseg>, ti: nat): seq<Curveseg>
    requires ti < |segs|
  {
    RemovedShifted(segs, ti, TruncToInt(TLength(segs, ti)) as real)
  }

  /** With a whole-numbered length the older remove agrees with the newer one. */
  lemma LegacyRemoveWholeLength(segs: seq<Curveseg>, ti: nat)
    requires ti < |segs| && TLength(segs, ti) == TLength(segs, ti).Floor as real
    ensures LegacyRemoved(segs, ti) == RemovedShifted(segs, ti, TLength(segs, ti))
  {
    var d := TLength(segs, ti);
    if d < 0.0 {
      assert (-d).Floor == -(d.Floor);
    }
  }

  /**
   * The older remove does not keep the next segment's length: removing the
   * first of two segments ending at 1.5 and 3.0 leaves one ending at 2.0, of
   * length 2.0 instead of 1.5.
   */
  lemma LegacyRemoveChangesLength()
    ensures var segs := [Curveseg(0, 1.5), Curveseg(1, 3.0)];
      LegacyRemoved(segs, 0) == [Curveseg(1, 2.0)] &&
      TLength(LegacyRemoved(segs, 0), 0) == 2.0 && TLength(segs, 1) == 1.5 &&
      RemovedShifted(segs, 0, TLength(segs, 0)) == [Curveseg(1, 1.5)]
  {
    var segs := [Curveseg(0, 1.5), Curveseg(1, 3.0)];
    assert TruncToInt(1.5) == 1;
    assert segs[..0] + segs[1..] == [Curveseg(1, 3.0)];
  }

  /**
   * The older remove_curveseg, on the same segment vector: refused outside
   * [0, size); otherwise later ends move back by the removed length with its
   * fraction dropped.
   */
  method LegacyRemoveCurveseg(c: PiecewiseCurve, ti: int) returns (ok: bool)
    modifies c`segs, c`lastTi
    ensures ok <==> 0 <= ti < |old(c.segs)|
    ensures !ok ==> c.segs == old(c.segs) && c.lastTi == old(c.lastTi)
    ensures ok ==> c.segs == LegacyRemoved(old(c.segs), ti) && c.lastTi == 0
  {
    if ti < 0 || ti >= |c.segs| {
      return false;
    }
    var tlength := TruncToInt(c.GetTlength(ti));
    c.segs := c.segs[..ti] + c.segs[ti + 1..];
    c.ShiftEnds(ti, tlength as real);
    c.lastTi := 0;
    ok := true;
  }

  class ParametricCurve {
    var curveType: int
    var numDimensions: int
    var drawers: seq<nat>
    /** Every recompute call made on a drawer, in order. */
    var recomputes: seq<Recompute>

    constructor ()
      ensures curveType == PCT_NONE && numDimensions == 3 && drawers == [] && recomputes == []
    {
      curveType := PCT_NONE;
      numDimensions := 3;
      drawers := [];
      recomputes := [];
    }

    /**
     * set_curve_type: XYZ, HPR and NONE curves have 3 dimensions, T curves 1;
     * any other type fails the debug assertion (ok is false) and leaves the
     * dimension count alone.
     */
    method SetCurveType(t: int) returns (ok: bool)
      modifies this`curveType, this`numDimensions
      ensures curveType == t
      ensures ok <==> t in {PCT_NONE, PCT_XYZ, PCT_HPR, PCT_T}
      ensures t in {PCT_NONE, PCT_XYZ, PCT_HPR} ==> numDimensions == 3
      ensures t == PCT_T ==> numDimensions == 1
      ensures !ok ==> numDimensions == old(numDimensions)
    {
      curveType := t;
      ok := true;
      if curveType == PCT_XYZ || curveType == PCT_HPR || curveType == PCT_NONE {
        numDimensions := 3;
      } else if curveType == PCT_T {
        numDimensions := 1;
      } else {
        ok := false;
      }
    }

    /**
     * invalidate: when t1 <= t2, every drawer is told to recompute the range
     * clamped to [0, max_t]; otherwise nothing happens.
     */
    method Invalidate(t1: real, t2: real, maxT: real)
      modifies this`recomputes
      ensures t1 > t2 ==> recomputes == old(recomputes)
      ensures t1 <= t2 ==>
        |recomputes| == |old(recomputes)| + |drawers| && recomputes[..|old(recomputes)|] == old(recomputes)
      ensures t1 <= t2 ==> forall k :: 0 <= k < |drawers| ==>
        recomputes[|old(recomputes)| + k] ==
          Recompute(drawers[k], if t1 > 0.0 then t1 else 0.0, if t2 < maxT then t2 else maxT)
    {
      if t1 <= t2 {
        var lo := if t1 > 0.0 then t1 else 0.0;
        var hi := if t2 < maxT then t2 else maxT;
        var n := 0;
        while n < |drawers|
          invariant 0 <= n <= |drawers|
          invariant |recomputes| == |old(recomputes)| + n && recomputes[..|old(recomputes)|] == old(recomputes)
          invariant forall k :: 0 <= k < n ==> recomputes[|old(recomputes)| + k] == Recompute(drawers[k], lo, hi)
        {
          recomputes := recomputes + [Recompute(drawers[n], lo, hi)];
          n := n + 1;
        }
      }
    }
  }
}
