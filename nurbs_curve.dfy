/**
 * NurbsCurve's knot bookkeeping: the control vertices each carry a knot
 * value t, and the knot vector of an order-k curve with n vertices has n + k
 * entries, read through GetKnot.
 */
module NurbsCurveModel {

  /** A homogeneous control point (pfVec4). */
  datatype Vec4 = Vec4(x: real, y: real, z: real, w: real)

  /** A control vertex and the knot value stored with it. */
  datatype CV = CV(p: Vec4, t: real)

  /**
   * GetKnot: knots below the order, and every knot of a curve without
   * vertices, are 0; knot n is otherwise the t of vertex n - 1, clamped to the
   * last vertex.  The comparison with the vertex count is unsigned, so an
   * index n - 1 below zero also reads the last vertex.
   */
  function Knot(order: int, cvs: seq<CV>, n: int): (r: real)
    ensures n < order || cvs == [] ==> r == 0.0
    ensures n >= order && 1 <= n <= |cvs| ==> r == cvs[n - 1].t
    ensures n >= order && cvs != [] && (n > |cvs| || n < 1) ==> r == cvs[|cvs| - 1].t
    ensures r == 0.0 || exists i :: 0 <= i < |cvs| && r == cvs[i].t
  {
    if n < order || cvs == [] then 0.0
    else if n - 1 < 0 || n - 1 >= |cvs| then cvs[|cvs| - 1].t
    else cvs[n - 1].t
  }

  /** The vertices' knot values never decrease. */
  ghost predicate TsNondecreasing(cvs: seq<CV>)
  {
    forall i, j :: 0 <= i <= j < |cvs| ==> cvs[i].t <= cvs[j].t
  }

  /** With non-decreasing, non-negative vertex knots, the knot vector read through GetKnot never decreases. */
  lemma KnotMonotone(order: int, cvs: seq<CV>, n: int, m: int)
    requires 1 <= order && TsNondecreasing(cvs) && (forall i :: 0 <= i < |cvs| ==> cvs[i].t >= 0.0)
    requires 0 <= n <= m
    ensures Knot(order, cvs, n) <= Knot(order, cvs, m)
  {
    if cvs != [] && m >= order {
      if n >= order {
        var a := if n > |cvs| then |cvs| - 1 else n - 1;
        var b := if m > |cvs| then |cvs| - 1 else m - 1;
        assert Knot(order, cvs, n) == cvs[a].t && Knot(order, cvs, m) == cvs[b].t;
      } else {
        var b := if m > |cvs| then |cvs| - 1 else m - 1;
        assert Knot(order, cvs, m) == cvs[b].t;
      }
    }
  }

  /** The vertex append_cv adds for point p: its knot is one past GetKnot(size). */
  function Appended(order: int, cvs: seq<CV>, p: Vec4): (c: CV)
    ensures c.p == p
    ensures |cvs| < order || cvs == [] ==> c.t == 1.0
    ensures |cvs| >= order && cvs != [] ==> c.t == cvs[|cvs| - 1].t + 1.0
  {
    CV(p, Knot(order, cvs, |cvs|) + 1.0)
  }

  /** Once a curve has at least order vertices with rising knots, appending keeps them rising. */
  lemma AppendKeepsRising(order: int, cvs: seq<CV>, p: Vec4)
    requires cvs != [] && |cvs| >= order
    requires forall i :: 0 <= i < |cvs| - 1 ==> cvs[i].t < cvs[i + 1].t
    ensures var s := cvs + [Appended(order, cvs, p)];
      forall i :: 0 <= i < |s| - 1 ==> s[i].t < s[i + 1].t
  {
  }

  /**
   * Below the order the appended knot is always 1, so appending to a curve
   * whose last knot is already 1 or more does not keep the knots rising.
   */
  lemma AppendBelowOrderRestarts(order: int, cvs: seq<CV>, p: Vec4)
    requires cvs != [] && |cvs| < order && cvs[|cvs| - 1].t >= 1.0
    ensures (cvs + [Appended(order, cvs, p)])[|cvs|].t <= cvs[|cvs| - 1].t
  {
  }

  class NurbsCurve {
    var order: int
    var cvs: seq<CV>

    /** A curve of the given order without vertices. */
    constructor (order: int)
      ensures this.order == order && cvs == []
    {
      this.order := order;
      cvs := [];
    }

    /** get_num_knots: one knot per vertex plus order more. */
    function NumKnots(): (r: int)
      reads this
      ensures r - order == |cvs|
    {
      |cvs| + order
    }

    /** GetKnot(n) on this curve's vertices. */
    function GetKnot(n: int): (r: real)
      reads this
      ensures r == Knot(order, cvs, n)
      ensures n < order || cvs == [] ==> r == 0.0
    {
      Knot(order, cvs, n)
    }

    /** append_cv(pfVec4): push a vertex one knot past GetKnot(size) and return its index. */
    method AppendCv(p: Vec4) returns (index: int)
      modifies this`cvs
      ensures cvs == old(cvs) + [Appended(order, old(cvs), p)]
      ensures index == |old(cvs)| && cvs[index].p == p
    {
      cvs := cvs + [CV(p, GetKnot(|cvs|) + 1.0)];
      index := |cvs| - 1;
    }

    /** append_cv(VecType): the point with weight 1. */
    method AppendCvPoint(x: real, y: real, z: real) returns (index: int)
      modifies this`cvs
      ensures cvs == old(cvs) + [Appended(order, old(cvs), Vec4(x, y, z, 1.0))]
      ensures index == |old(cvs)|
    {
      index := AppendCv(Vec4(x, y, z, 1.0));
    }
  }
}
