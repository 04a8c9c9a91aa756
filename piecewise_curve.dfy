/**
 * PiecewiseCurve: a curve made of segments laid end to end in parameter
 * space.  Each segment stores only the parametric time at which it ends; its
 * start is the previous segment's end (0 for the first one), so its length is
 * the difference.  Segment curves are identified by number; times are reals.
 */
module PiecewiseCurveModel {

  /** A segment: the curve it evaluates and its end time _tend. */
  datatype Curveseg = Curveseg(curve: nat, tend: real)

  /** get_max_t: the last segment's end, 0 for an empty curve. */
  function MaxT(segs: seq<Curveseg>): real
  {
    if segs == [] then 0.0 else segs[|segs| - 1].tend
  }

  /** get_tstart: where segment ti starts; ti may be the number of segments. */
  function TStart(segs: seq<Curveseg>, ti: nat): real
    requires ti <= |segs|
  {
    if ti == 0 then 0.0 else segs[ti - 1].tend
  }

  /** get_tlength: the first segment's end, or the difference of two neighbouring ends. */
  function TLength(segs: seq<Curveseg>, ti: nat): (r: real)
    requires ti < |segs|
    ensures r == segs[ti].tend - TStart(segs, ti)
  {
    if ti == 0 then segs[ti].tend else segs[ti].tend - segs[ti - 1].tend
  }

  /** The start of the position after the last segment is the end of the curve. */
  lemma StartAfterLastIsMaxT(segs: seq<Curveseg>)
    ensures TStart(segs, |segs|) == MaxT(segs)
    ensures segs != [] ==> MaxT(segs) == TStart(segs, |segs| - 1) + TLength(segs, |segs| - 1)
  {
  }

  /** The end time insert_curveseg gives a segment inserted at ti with length tlength. */
  function NewTend(segs: seq<Curveseg>, ti: nat, tlength: real): (r: real)
    requires ti <= |segs|
    ensures r == TStart(segs, ti) + tlength
  {
    if ti == |segs| then MaxT(segs) + tlength
    else if ti == 0 then tlength
    else segs[ti - 1].tend + tlength
  }

  /** The segments after inserting one at ti. */
  function Inserted(segs: seq<Curveseg>, ti: nat, curve: nat, tlength: real): seq<Curveseg>
    requires ti <= |segs|
  {
    segs[..ti] + [Curveseg(curve, NewTend(segs, ti, tlength))] + segs[ti..]
  }

  /**
   * Inserting gives the new segment the requested length, keeps every other
   * end time, and so keeps the lengths before it; the segment after it loses
   * that length, and the curve's end moves only when appending.
   */
  lemma InsertLengths(segs: seq<Curveseg>, ti: nat, curve: nat, tlength: real)
    requires ti <= |segs|
    ensures |Inserted(segs, ti, curve, tlength)| == |segs| + 1
    ensures Inserted(segs, ti, curve, tlength)[ti].curve == curve
    ensures TLength(Inserted(segs, ti, curve, tlength), ti) == tlength
    ensures forall k :: 0 <= k < ti ==>
      Inserted(segs, ti, curve, tlength)[k] == segs[k] && TLength(Inserted(segs, ti, curve, tlength), k) == TLength(segs, k)
    ensures forall k :: ti < k <= |segs| ==> Inserted(segs, ti, curve, tlength)[k] == segs[k - 1]
    ensures forall k :: ti + 1 < k <= |segs| ==> TLength(Inserted(segs, ti, curve, tlength), k) == TLength(segs, k - 1)
    ensures ti < |segs| ==> TLength(Inserted(segs, ti, curve, tlength), ti + 1) == TLength(segs, ti) - tlength
    ensures MaxT(Inserted(segs, ti, curve, tlength)) == if ti == |segs| then MaxT(segs) + tlength else MaxT(segs)
  {
  }

  /** The segments from index from on, moved earlier in time by d. */
  function Shifted(segs: seq<Curveseg>, from: nat, d: real): (r: seq<Curveseg>)
    ensures |r| == |segs|
    ensures forall k :: 0 <= k < |segs| ==> r[k].curve == segs[k].curve
  {
    seq(|segs|, k requires 0 <= k < |segs| => if k < from then segs[k] else Curveseg(segs[k].curve, segs[k].tend - d))
  }

  /** The segments after removing segment ti and moving the later ones back by d. */
  function RemovedShifted(segs: seq<Curveseg>, ti: nat, d: real): seq<Curveseg>
    requires ti < |segs|
  {
    Shifted(segs[..ti] + segs[ti + 1..], ti, d)
  }

  /**
   * Removing a segment and moving the later ones back by its length keeps the
   * length of every other segment, and shortens the curve by that length.
   */
  lemma RemoveLengths(segs: seq<Curveseg>, ti: nat)
    requires ti < |segs|
    ensures |RemovedShifted(segs, ti, TLength(segs, ti))| == |segs| - 1
    ensures forall k :: 0 <= k < |segs| - 1 ==>
      RemovedShifted(segs, ti, TLength(segs, ti))[k].curve == segs[if k < ti then k else k + 1].curve
    ensures forall k :: 0 <= k < |segs| - 1 ==>
      TLength(RemovedShifted(segs, ti, TLength(segs, ti)), k) == TLength(segs, if k < ti then k else k + 1)
    ensures MaxT(RemovedShifted(segs, ti, TLength(segs, ti))) == MaxT(segs) - TLength(segs, ti)
  {
    var s := RemovedShifted(segs, ti, TLength(segs, ti));
    forall k | 0 <= k < |s|
      ensures TLength(s, k) == TLength(segs, if k < ti then k else k + 1)
    {
      if k == ti && k > 0 {
        assert s[k - 1] == segs[k - 1];
      }
    }
  }

  /** Whether knots i + order - 1 and i + order strictly increase. */
  predicate Rising(knots: seq<real>, order: nat, i: nat)
    requires 1 <= order && i + order < |knots|
  {
    knots[i + order] > knots[i + order - 1]
  }

  /** The length make_nurbs gives the segment made at offset i. */
  function KnotSpan(knots: seq<real>, order: nat, i: nat): real
    requires 1 <= order && i + order < |knots|
  {
    knots[i + order] - knots[i + order - 1]
  }

  /**
   * The segments make_nurbs builds from the first n knot positions: one for
   * each i whose knots rise there, appended with the difference as its
   * length.  The segment's curve is the cubic made from the knots and CVs at
   * offset i.
   */
  function NurbsSegs(knots: seq<real>, order: nat, n: nat): seq<Curveseg>
    requires 1 <= order && n + order <= |knots|
  {
    if n == 0 then []
    else
      var prev := NurbsSegs(knots, order, n - 1);
      if Rising(knots, order, n - 1) then Inserted(prev, |prev|, n - 1, KnotSpan(knots, order, n - 1))
      else prev
  }

  /** Appending a segment, as make_nurbs does. */
  lemma AppendSeg(prev: seq<Curveseg>, curve: nat, tlength: real)
    ensures Inserted(prev, |prev|, curve, tlength) == prev + [Curveseg(curve, MaxT(prev) + tlength)]
    ensures TLength(Inserted(prev, |prev|, curve, tlength), |prev|) == tlength
    ensures forall k :: 0 <= k < |prev| ==> TLength(Inserted(prev, |prev|, curve, tlength), k) == TLength(prev, k)
  {
    assert prev[..|prev|] == prev && prev[|prev|..] == [];
    InsertLengths(prev, |prev|, curve, tlength);
  }

  /** Every segment make_nurbs builds comes from a rising knot pair and is as long as it. */
  lemma {:induction false} NurbsSegsFromRising(knots: seq<real>, order: nat, n: nat)
    requires 1 <= order && n + order <= |knots|
    ensures forall k :: 0 <= k < |NurbsSegs(knots, order, n)| ==>
      NurbsSegs(knots, order, n)[k].curve < n && Rising(knots, order, NurbsSegs(knots, order, n)[k].curve) &&
      TLength(NurbsSegs(knots, order, n), k) == KnotSpan(knots, order, NurbsSegs(knots, order, n)[k].curve)
  {
    if n > 0 {
      var prev := NurbsSegs(knots, order, n - 1);
      NurbsSegsFromRising(knots, order, n - 1);
      if Rising(knots, order, n - 1) {
        AppendSeg(prev, n - 1, KnotSpan(knots, order, n - 1));
        var s := NurbsSegs(knots, order, n);
        assert s == Inserted(prev, |prev|, n - 1, KnotSpan(knots, order, n - 1));
        assert s[|prev|].curve == n - 1;
        forall k | 0 <= k < |s|
          ensures s[k].curve < n && Rising(knots, order, s[k].curve) && TLength(s, k) == KnotSpan(knots, order, s[k].curve)
        {
          if k < |prev| {
            assert s[k] == prev[k];
            assert TLength(s, k) == TLength(prev, k);
            assert prev[k].curve < n - 1;
          } else {
            assert k == |prev|;
          }
        }
      }
    }
  }

  /** The segments come in the order of their knots, so no knot pair gives two. */
  lemma {:induction false} NurbsSegsOrdered(knots: seq<real>, order: nat, n: nat)
    requires 1 <= order && n + order <= |knots|
    ensures forall k, m :: 0 <= k < m < |NurbsSegs(knots, order, n)| ==>
      NurbsSegs(knots, order, n)[k].curve < NurbsSegs(knots, order, n)[m].curve
  {
    if n > 0 {
      var prev := NurbsSegs(knots, order, n - 1);
      NurbsSegsOrdered(knots, order, n - 1);
      NurbsSegsFromRising(knots, order, n - 1);
      if Rising(knots, order, n - 1) {
        AppendSeg(prev, n - 1, KnotSpan(knots, order, n - 1));
        var s := NurbsSegs(knots, order, n);
        forall k, m | 0 <= k < m < |s|
          ensures s[k].curve < s[m].curve
        {
          assert s[k] == prev[k];
          if m < |prev| {
            assert s[m] == prev[m];
          }
        }
      }
    }
  }

  /** Every rising knot pair gives a segment. */
  lemma {:induction false} NurbsSegsComplete(knots: seq<real>, order: nat, n: nat, i: nat)
    requires 1 <= order && n + order <= |knots| && i < n && Rising(knots, order, i)
    ensures exists k :: 0 <= k < |NurbsSegs(knots, order, n)| && NurbsSegs(knots, order, n)[k].curve == i
  {
    var prev := NurbsSegs(knots, order, n - 1);
    if Rising(knots, order, n - 1) {
      AppendSeg(prev, n - 1, KnotSpan(knots, order, n - 1));
    }
    if i == n - 1 {
      assert NurbsSegs(knots, order, n)[|prev|].curve == i;
    } else {
      NurbsSegsComplete(knots, order, n - 1, i);
      var k :| 0 <= k < |prev| && prev[k].curve == i;
      assert NurbsSegs(knots, order, n)[k].curve == i;
    }
  }

  /** Knots that never decrease. */
  ghost predicate Nondecreasing(knots: seq<real>)
  {
    forall i, j :: 0 <= i <= j < |knots| ==> knots[i] <= knots[j]
  }

  /**
   * With non-decreasing knots the equal pairs contribute nothing, so the curve
   * spans from knot order - 1 to knot n + order - 1.
   */
  lemma {:induction false} NurbsMaxT(knots: seq<real>, order: nat, n: nat)
    requires 1 <= order && n + order <= |knots| && Nondecreasing(knots)
    ensures MaxT(NurbsSegs(knots, order, n)) == knots[n + order - 1] - knots[order - 1]
  {
    if n > 0 {
      NurbsMaxT(knots, order, n - 1);
      var prev := NurbsSegs(knots, order, n - 1);
      if Rising(knots, order, n - 1) {
        AppendSeg(prev, n - 1, KnotSpan(knots, order, n - 1));
      }
    }
  }

  class PiecewiseCurve {
    var segs: seq<Curveseg>
    /** The cached index of the segment last looked up. */
    var lastTi: nat

    constructor ()
      ensures segs == [] && lastTi == 0
    {
      segs := [];
      lastTi := 0;
    }

    /** is_valid: the curve has at least one segment. */
    function IsValid(): (r: bool)
      reads this
      ensures r <==> |segs| > 0
    {
      segs != []
    }

    function GetMaxT(): real
      reads this
    {
      MaxT(segs)
    }

    function GetNumSegs(): nat
      reads this
    {
      |segs|
    }

    /** get_tstart asserts 0 <= ti <= the number of segments. */
    function GetTstart(ti: nat): (r: real)
      requires ti <= |segs|
      reads this
      ensures ti == 0 ==> r == 0.0
      ensures ti == |segs| ==> r == GetMaxT()
    {
      TStart(segs, ti)
    }

    /** get_tend asserts ti is a segment. */
    function GetTend(ti: nat): real
      requires ti < |segs|
      reads this
    {
      segs[ti].tend
    }

    /** get_tlength asserts ti is a segment; it is the span from its start to its end. */
    function GetTlength(ti: nat): (r: real)
      requires ti < |segs|
      reads this
      ensures r == GetTend(ti) - GetTstart(ti)
    {
      TLength(segs, ti)
    }

    /**
     * insert_curveseg: refused outside [0, size]; otherwise the segment goes in
     * at ti with the end time that gives it length tlength.
     */
    method InsertCurveseg(ti: int, curve: nat, tlength: real) returns (ok: bool)
      modifies this`segs
      ensures ok <==> 0 <= ti <= |old(segs)|
      ensures !ok ==> segs == old(segs)
      ensures ok ==> segs == Inserted(old(segs), ti, curve, tlength)
    {
      if ti < 0 || ti > |segs| {
        return false;
      }
      if ti == |segs| {
        assert segs[..ti] == segs && segs[ti..] == [];
        segs := segs + [Curveseg(curve, GetMaxT() + tlength)];
      } else if ti == 0 {
        assert segs[..0] == [] && segs[0..] == segs;
        segs := [Curveseg(curve, tlength)] + segs;
      } else {
        segs := segs[..ti] + [Curveseg(curve, segs[ti - 1].tend + tlength)] + segs[ti..];
      }
      ok := true;
    }

    /** The loop of remove_curveseg: move every end from index from on back by d. */
    method ShiftEnds(from: nat, d: real)
      modifies this`segs
      ensures segs == Shifted(old(segs), from, d)
    {
      var ti := from;
      while ti < |segs|
        invariant |segs| == |old(segs)|
        invariant forall k :: 0 <= k < |segs| ==>
          segs[k] == if k < from || k >= ti then old(segs)[k] else Curveseg(old(segs)[k].curve, old(segs)[k].tend - d)
      {
        segs := segs[ti := Curveseg(segs[ti].curve, segs[ti].tend - d)];
        ti := ti + 1;
      }
    }

    /**
     * remove_curveseg: refused outside [0, size); otherwise the segment goes,
     * every later end moves back by its length, and the cached index is reset.
     */
    method RemoveCurveseg(ti: int) returns (ok: bool)
      modifies this`segs, this`lastTi
      ensures ok <==> 0 <= ti < |old(segs)|
      ensures !ok ==> segs == old(segs) && lastTi == old(lastTi)
      ensures ok ==> segs == RemovedShifted(old(segs), ti, TLength(old(segs), ti)) && lastTi == 0
    {
      if ti < 0 || ti >= |segs| {
        return false;
      }
      var tlength := GetTlength(ti);
      segs := segs[..ti] + segs[ti + 1..];
      ShiftEnds(ti, tlength);
      lastTi := 0;
      ok := true;
    }

    /** remove_all_curvesegs. */
    method RemoveAllCurvesegs()
      modifies this`segs, this`lastTi
      ensures segs == [] && lastTi == 0 && GetMaxT() == 0.0 && !IsValid()
    {
      segs := [];
      lastTi := 0;
    }

    /**
     * set_tlength: refused outside [0, size); otherwise only segment ti's end
     * moves, by the difference between the new and the old length.
     */
    method SetTlength(ti: int, tlength: real) returns (ok: bool)
      modifies this`segs
      ensures ok <==> 0 <= ti < |old(segs)|
      ensures !ok ==> segs == old(segs)
      ensures ok ==> |segs| == |old(segs)| && TLength(segs, ti) == tlength
      ensures ok ==> forall k :: 0 <= k < |segs| && k != ti ==> segs[k] == old(segs)[k]
      ensures ok ==> segs[ti].curve == old(segs)[ti].curve
      ensures ok && ti < |segs| - 1 ==> MaxT(segs) == MaxT(old(segs))
    {
      if ti < 0 || ti >= |segs| {
        return false;
      }
      var s := segs[ti];
      segs := segs[ti := Curveseg(s.curve, s.tend + tlength - GetTlength(ti))];
      ok := true;
    }

    /**
     * make_nurbs: drop every segment, then append one for each strictly
     * increasing pair of knots i + order - 1, i + order, for i from 0 while
     * i < num_cvs - order + 1.
     */
    method MakeNurbs(order: nat, numCvs: nat, knots: seq<real>)
      requires 1 <= order && |knots| == numCvs + order
      modifies this`segs, this`lastTi
      ensures segs == NurbsSegs(knots, order, if numCvs + 1 >= order then numCvs + 1 - order else 0)
      ensures lastTi == 0
    {
      RemoveAllCurvesegs();
      var i := 0;
      while i < numCvs - order + 1
        invariant 0 <= i && (i <= numCvs + 1 - order || i == 0)
        invariant segs == NurbsSegs(knots, order, i) && lastTi == 0
      {
        if knots[i + order] > knots[i + order - 1] {
          var ti := GetNumSegs();
          var result := InsertCurveseg(ti, i, knots[i + order] - knots[i + order - 1]);
        }
        i := i + 1;
      }
    }
  }
}
