/**
 * Quilt: a surface made of a num_s by num_t grid of patches.  Two arrays of
 * end times split parameter space in s and in t (segment i runs from end
 * i - 1, or 0, to end i), and a third array holds the patch of every cell,
 * row by row.  The arrays exist only while both counts are positive.
 */
module QuiltModel {
  import opened Wrappers
  import opened Arith
  import opened PiecewiseCurveModel

  /** A patch pointer's target: a bicubic patch made from knot offsets sn, tn, or any other surface. */
  datatype Surface = Bicubic(sn: nat, tn: nat) | Given(id: nat)

  // ---------------------------------------------------------------------------
  // End-time arrays as values
  // ---------------------------------------------------------------------------

  /** The width of segment i: its end, less the previous end (0 before the first). */
  function SegLength(ends: seq<real>, i: nat): real
    requires i < |ends|
  {
    if i == 0 then ends[0] else ends[i] - ends[i - 1]
  }

  /** The end times reset_quilt spreads evenly over [0, 1]. */
  function EvenEnds(n: nat): (r: seq<real>)
    ensures |r| == n
  {
    seq(n, i requires 0 <= i < n => (i + 1) as real / n as real)
  }

  /** Evenly spread ends give every segment width 1 / n and end at 1. */
  lemma EvenEndsSpread(n: nat)
    requires n > 0
    ensures EvenEnds(n)[n - 1] == 1.0
    ensures forall i :: 0 <= i < n ==> SegLength(EvenEnds(n), i) == 1.0 / n as real
  {
    forall i | 0 <= i < n
      ensures SegLength(EvenEnds(n), i) == 1.0 / n as real
    {
      if i > 0 {
        calc {
          SegLength(EvenEnds(n), i);
          (i + 1) as real / n as real - i as real / n as real;
          ((i + 1) as real - i as real) / n as real;
        }
      }
    }
  }

  /** The ends from index from on, moved later by d. */
  function AddFrom(ends: seq<real>, from: nat, d: real): (r: seq<real>)
    ensures |r| == |ends|
  {
    seq(|ends|, k requires 0 <= k < |ends| => if k < from then ends[k] else ends[k] + d)
  }

  /**
   * set_slength and set_tlength: giving segment i a new width moves every end
   * from i on by the difference, so every other segment keeps its width and
   * the last end moves by the difference.
   */
  lemma SetLengthEffect(ends: seq<real>, i: nat, len: real)
    requires i < |ends|
    ensures SegLength(AddFrom(ends, i, len - SegLength(ends, i)), i) == len
    ensures forall k :: 0 <= k < |ends| && k != i ==>
      SegLength(AddFrom(ends, i, len - SegLength(ends, i)), k) == SegLength(ends, k)
    ensures AddFrom(ends, i, len - SegLength(ends, i))[|ends| - 1] == ends[|ends| - 1] + (len - SegLength(ends, i))
  {
  }

  /** Every end multiplied by c. */
  function Scaled(ends: seq<real>, c: real): (r: seq<real>)
    ensures |r| == |ends|
  {
    seq(|ends|, k requires 0 <= k < |ends| => ends[k] * c)
  }

  /** set_max_s and set_max_t: scaling by s / last end makes the last end s and scales every width alike. */
  lemma ScaleEffect(ends: seq<real>, s: real)
    requires ends != [] && ends[|ends| - 1] != 0.0
    ensures Scaled(ends, s / ends[|ends| - 1])[|ends| - 1] == s
    ensures forall k :: 0 <= k < |ends| ==>
      SegLength(Scaled(ends, s / ends[|ends| - 1]), k) == SegLength(ends, k) * (s / ends[|ends| - 1])
  {
    var m := ends[|ends| - 1];
    assert m * (s / m) == s;
  }

  /** The loop of set_slength and set_tlength: add d to every element from index from on. */
  method AddFromInPlace(a: array<real>, from: nat, d: real)
    modifies a
    ensures a[..] == AddFrom(old(a[..]), from, d)
  {
    var i := from;
    while i < a.Length
      invariant from <= i
      invariant forall k :: 0 <= k < a.Length ==>
        a[k] == if from <= k < i then old(a[k]) + d else old(a[k])
    {
      a[i] := a[i] + d;
      i := i + 1;
    }
  }

  /** The loop of set_max_s and set_max_t: multiply every element by c. */
  method ScaleInPlace(a: array<real>, c: real)
    modifies a
    ensures a[..] == Scaled(old(a[..]), c)
  {
    var i := 0;
    while i < a.Length
      invariant 0 <= i <= a.Length
      invariant forall k :: 0 <= k < a.Length ==> a[k] == if k < i then old(a[k]) * c else old(a[k])
    {
      a[i] := a[i] * c;
      i := i + 1;
    }
    assert forall k :: 0 <= k < a.Length ==> a[..][k] == Scaled(old(a[..]), c)[k];
  }

  // ---------------------------------------------------------------------------
  // Knot counting for make_nurbs
  // ---------------------------------------------------------------------------

  /** The offsets i < n at which the knots rise, in order. */
  function RisingAt(knots: seq<real>, order: nat, n: nat): (r: seq<nat>)
    requires 1 <= order && n + order <= |knots|
    ensures |r| <= n
    ensures forall k :: 0 <= k < |r| ==> r[k] < n && Rising(knots, order, r[k])
    ensures forall k, m :: 0 <= k < m < |r| ==> r[k] < r[m]
  {
    if n == 0 then []
    else
      var prev := RisingAt(knots, order, n - 1);
      if Rising(knots, order, n - 1) then prev + [n - 1] else prev
  }

  /** The number of cvs less the order, plus one: how many knot offsets make_nurbs tries. */
  function Spans(numCvs: int, order: int): nat
  {
    if numCvs - order + 1 > 0 then numCvs - order + 1 else 0
  }

  /** make_nurbs's counting loop: the rising knot pairs among the offsets it tries. */
  method CountRising(knots: seq<real>, order: nat, numCvs: nat) returns (count: nat)
    requires 1 <= order && |knots| == numCvs + order
    ensures count == |RisingAt(knots, order, Spans(numCvs, order))|
  {
    count := 0;
    var n := 0;
    while n < numCvs - order + 1
      invariant 0 <= n <= Spans(numCvs, order)
      invariant count == |RisingAt(knots, order, n)|
    {
      if knots[n + order] > knots[n + order - 1] {
        count := count + 1;
      }
      n := n + 1;
    }
  }

  /** A curve and a quilt built from the same knots make the same segments, in the same order. */
  lemma {:induction false} NurbsSegsMatchRising(knots: seq<real>, order: nat, n: nat)
    requires 1 <= order && n + order <= |knots|
    ensures |NurbsSegs(knots, order, n)| == |RisingAt(knots, order, n)|
    ensures forall k :: 0 <= k < |RisingAt(knots, order, n)| ==> NurbsSegs(knots, order, n)[k].curve == RisingAt(knots, order, n)[k]
  {
    if n > 0 {
      NurbsSegsMatchRising(knots, order, n - 1);
      var prev := NurbsSegs(knots, order, n - 1);
      if Rising(knots, order, n - 1) {
        AppendSeg(prev, n - 1, KnotSpan(knots, order, n - 1));
      }
    }
  }

  /** The offsets make_nurbs turns into segments, for num_cvs control vertices. */
  function Offsets(knots: seq<real>, order: nat, numCvs: nat): (r: seq<nat>)
    requires 1 <= order && |knots| == numCvs + order
    ensures forall k :: 0 <= k < |r| ==> r[k] + order < |knots| && Rising(knots, order, r[k])
  {
    RisingAt(knots, order, Spans(numCvs, order))
  }

  /** The offsets found in a shorter prefix of knots begin the longer list. */
  lemma {:induction false} RisingPrefix(knots: seq<real>, order: nat, n: nat, m: nat)
    requires 1 <= order && n <= m && m + order <= |knots|
    ensures |RisingAt(knots, order, n)| <= |RisingAt(knots, order, m)|
    ensures RisingAt(knots, order, m)[..|RisingAt(knots, order, n)|] == RisingAt(knots, order, n)
  {
    if n < m {
      RisingPrefix(knots, order, n, m - 1);
      var prev := RisingAt(knots, order, m - 1);
      if Rising(knots, order, m - 1) {
        assert (prev + [m - 1])[..|RisingAt(knots, order, n)|] == prev[..|RisingAt(knots, order, n)|];
      }
    }
  }

  /** The rising offset n is the next one after those before it. */
  lemma RisingIndex(knots: seq<real>, order: nat, n: nat, m: nat)
    requires 1 <= order && n < m && m + order <= |knots| && Rising(knots, order, n)
    ensures |RisingAt(knots, order, n)| < |RisingAt(knots, order, m)|
    ensures RisingAt(knots, order, m)[|RisingAt(knots, order, n)|] == n
  {
    var p := RisingAt(knots, order, n);
    var q := RisingAt(knots, order, m);
    assert RisingAt(knots, order, n + 1) == p + [n];
    RisingPrefix(knots, order, n + 1, m);
    assert q[..|p| + 1] == p + [n];
    assert q[|p|] == q[..|p| + 1][|p|];
  }

  /** The first upto segment widths are the knot spans of the offsets rs. */
  ghost predicate SpansOf(ends: seq<real>, knots: seq<real>, order: nat, rs: seq<nat>, upto: nat)
  {
    1 <= order && upto <= |ends| && upto <= |rs| &&
    forall l :: 0 <= l < upto ==> rs[l] + order < |knots| && SegLength(ends, l) == KnotSpan(knots, order, rs[l])
  }

  /** Giving segment i its knot span keeps the spans already given and adds segment i's. */
  lemma WidthsAfterSet(ends: seq<real>, knots: seq<real>, order: nat, rs: seq<nat>, upto: nat, i: nat)
    requires SpansOf(ends, knots, order, rs, upto) && i <= upto && i < |ends| && i < |rs| && rs[i] + order < |knots|
    ensures SpansOf(AddFrom(ends, i, KnotSpan(knots, order, rs[i]) - SegLength(ends, i)), knots, order, rs,
                    if upto > i then upto else i + 1)
  {
    SetLengthEffect(ends, i, KnotSpan(knots, order, rs[i]));
  }

  /** The widths make_nurbs gives a quilt's segments in one direction are the lengths a curve's make_nurbs gives its segments. */
  lemma QuiltMatchesCurve(knots: seq<real>, order: nat, numCvs: nat)
    requires 1 <= order && |knots| == numCvs + order
    ensures |NurbsSegs(knots, order, Spans(numCvs, order))| == |Offsets(knots, order, numCvs)|
    ensures forall k :: 0 <= k < |Offsets(knots, order, numCvs)| ==>
      TLength(NurbsSegs(knots, order, Spans(numCvs, order)), k) == KnotSpan(knots, order, Offsets(knots, order, numCvs)[k])
  {
    NurbsSegsMatchRising(knots, order, Spans(numCvs, order));
    NurbsSegsFromRising(knots, order, Spans(numCvs, order));
  }

  /** A fresh array of n end times spread evenly over [0, 1]. */
  method EvenArray(n: nat) returns (a: array<real>)
    ensures fresh(a) && a[..] == EvenEnds(n)
  {
    a := new real[n];
    for i := 0 to n
      invariant a[..i] == EvenEnds(n)[..i]
    {
      a[i] := (i + 1) as real / n as real;
    }
    assert a[..] == a[..n];
  }

  class Quilt {
    var numS: int
    var numT: int
    var sends: array<real>
    var tends: array<real>
    var patches: array<Option<Surface>>
    var lastSi: int
    var lastTi: int

    /** The arrays are allocated, at their sizes, exactly while both counts are positive (empty arrays stand for NULL). */
    ghost predicate Valid()
      reads this
    {
      sends != tends &&
      if numS > 0 && numT > 0 then
        sends.Length == numS && tends.Length == numT && patches.Length == Cell(numS, 0, numT)
      else
        sends.Length == 0 && tends.Length == 0 && patches.Length == 0
    }

    /** The Quilt constructor resets the quilt to the requested size. */
    constructor (numS: int, numT: int)
      ensures Valid() && this.numS == numS && this.numT == numT && lastSi == 0 && lastTi == 0
      ensures numS > 0 && numT > 0 ==> sends[..] == EvenEnds(numS) && tends[..] == EvenEnds(numT)
      ensures forall i :: 0 <= i < patches.Length ==> patches[i].None?
    {
      this.numS := 0;
      this.numT := 0;
      sends := new real[0];
      tends := new real[0];
      patches := new Option<Surface>[0];
      lastSi := 0;
      lastTi := 0;
      new;
      ResetQuilt(numS, numT);
    }

    /** is_valid: the quilt has at least one patch. */
    function IsValid(): (r: bool)
      reads this
      ensures r <==> numS > 0 && numT > 0
    {
      numS > 0 && numT > 0
    }

    /**
     * reset_quilt: drop every patch; when both counts are positive, allocate
     * the arrays, spread the ends evenly over [0, 1] and leave every cell
     * NULL.  The cached indices go back to 0.
     */
    method ResetQuilt(ns: int, nt: int)
      modifies this
      ensures Valid() && numS == ns && numT == nt && lastSi == 0 && lastTi == 0
      ensures fresh(sends) && fresh(tends) && fresh(patches)
      ensures ns > 0 && nt > 0 ==> sends[..] == EvenEnds(ns) && tends[..] == EvenEnds(nt)
      ensures forall i :: 0 <= i < patches.Length ==> patches[i].None?
    {
      numS := ns;
      numT := nt;
      if ns > 0 && nt > 0 {
        CellInRange(0, 0, ns, nt);
        patches := new Option<Surface>[Cell(ns, 0, nt)](_ => None);
        sends := EvenArray(ns);
        tends := EvenArray(nt);
      } else {
        patches := new Option<Surface>[0];
        sends := new real[0];
        tends := new real[0];
      }
      lastSi := 0;
      lastTi := 0;
    }

    /**
     * get_max_s: 0 without s segments, otherwise the last s end.  The read
     * needs the array to be there, which reset_quilt does not ensure when
     * num_t is not positive.
     */
    function GetMaxS(): (r: real)
      requires Valid() && (numS == 0 || (numS > 0 && numT > 0))
      reads this, sends
      ensures numS == 0 ==> r == 0.0
      ensures numS > 0 ==> r == sends[..][numS - 1]
    {
      if numS == 0 then 0.0 else sends[numS - 1]
    }

    /** get_max_t: as get_max_s, in t. */
    function GetMaxT(): (r: real)
      requires Valid() && (numT == 0 || (numS > 0 && numT > 0))
      reads this, tends
      ensures numT == 0 ==> r == 0.0
      ensures numT > 0 ==> r == tends[..][numT - 1]
    {
      if numT == 0 then 0.0 else tends[numT - 1]
    }

    /** The end of s that an empty quilt reports as 0, whatever its counts. */
    function MaxSIfValid(): (r: real)
      requires Valid()
      reads this, sends
      ensures !IsValid() ==> r == 0.0
      ensures IsValid() ==> r == GetMaxS() && r == sends[..][numS - 1]
    {
      if IsValid() then sends[numS - 1] else 0.0
    }

    /** set_max_s: with s segments, scale every s end so that the last is s. */
    method SetMaxS(s: real)
      requires Valid() && (numS > 0 ==> numT > 0 && sends[numS - 1] != 0.0)
      modifies sends
      ensures numS <= 0 ==> sends[..] == old(sends[..])
      ensures numS > 0 ==> sends[..] == Scaled(old(sends[..]), s / old(sends[numS - 1])) && sends[numS - 1] == s
    {
      if numS > 0 {
        var scale := s / GetMaxS();
        ScaleEffect(sends[..], s);
        ScaleInPlace(sends, scale);
      }
    }

    /** set_max_t: as set_max_s, in t. */
    method SetMaxT(t: real)
      requires Valid() && (numT > 0 ==> numS > 0 && tends[numT - 1] != 0.0)
      modifies tends
      ensures numT <= 0 ==> tends[..] == old(tends[..])
      ensures numT > 0 ==> tends[..] == Scaled(old(tends[..]), t / old(tends[numT - 1])) && tends[numT - 1] == t
    {
      if numT > 0 {
        var scale := t / GetMaxT();
        ScaleEffect(tends[..], t);
        ScaleInPlace(tends, scale);
      }
    }

    /** get_patch: NULL outside the grid, otherwise the patch in row si, column ti. */
    function GetPatch(si: int, ti: int): (r: Option<Surface>)
      requires Valid()
      reads this, patches
      ensures !(0 <= si < numS && 0 <= ti < numT) ==> r.None?
      ensures 0 <= si < numS && 0 <= ti < numT ==>
        0 <= si * numT + ti < patches.Length && r == patches[..][si * numT + ti]
    {
      if si < 0 || si >= numS || ti < 0 || ti >= numT then None
      else
        CellInRange(si, ti, numS, numT);
        CellIsProduct(si, ti, numT);
        patches[Cell(si, ti, numT)]
    }

    /** set_patch asserts the cell is in the grid; only that cell changes. */
    method SetPatch(si: int, ti: int, patch: Option<Surface>)
      requires Valid() && 0 <= si < numS && 0 <= ti < numT
      modifies patches
      ensures GetPatch(si, ti) == patch
      ensures forall a, b :: !(a == si && b == ti) ==> GetPatch(a, b) == old(GetPatch(a, b))
    {
      CellInRange(si, ti, numS, numT);
      patches[Cell(si, ti, numT)] := patch;
      forall a, b | !(a == si && b == ti) && 0 <= a < numS && 0 <= b < numT
        ensures GetPatch(a, b) == old(GetPatch(a, b))
      {
        CellInRange(a, b, numS, numT);
        if Cell(a, b, numT) == Cell(si, ti, numT) {
          CellInjective(a, b, si, ti, numT);
        }
      }
    }

    /** get_slength asserts si is a segment. */
    function GetSLength(si: int): real
      requires Valid() && 0 <= si < numS && numT > 0
      reads this, sends
    {
      SegLength(sends[..], si)
    }

    /** get_tlength asserts ti is a segment. */
    function GetTLength(ti: int): real
      requires Valid() && 0 <= ti < numT && numS > 0
      reads this, tends
    {
      SegLength(tends[..], ti)
    }

    /**
     * set_slength: refused outside [0, num_s); otherwise every s end from si
     * on moves by the change in width.
     */
    method SetSLength(si: int, len: real) returns (ok: bool)
      requires Valid() && (numS > 0 ==> numT > 0)
      modifies sends
      ensures ok <==> 0 <= si < numS
      ensures !ok ==> sends[..] == old(sends[..])
      ensures ok ==> sends[..] == AddFrom(old(sends[..]), si, len - SegLength(old(sends[..]), si))
    {
      if si < 0 || si >= numS {
        return false;
      }
      var diff := len - GetSLength(si);
      AddFromInPlace(sends, si, diff);
      ok := true;
    }

    /** set_tlength: as set_slength, in t. */
    method SetTLength(ti: int, len: real) returns (ok: bool)
      requires Valid() && (numT > 0 ==> numS > 0)
      modifies tends
      ensures ok <==> 0 <= ti < numT
      ensures !ok ==> tends[..] == old(tends[..])
      ensures ok ==> tends[..] == AddFrom(old(tends[..]), ti, len - SegLength(old(tends[..]), ti))
    {
      if ti < 0 || ti >= numT {
        return false;
      }
      var diff := len - GetTLength(ti);
      AddFromInPlace(tends, ti, diff);
      ok := true;
    }

    /** Rows before rows, and the first cols cells of row rows, hold the patches of their offsets. */
    ghost predicate Filled(rs: seq<nat>, rt: seq<nat>, rows: int, cols: int)
      reads this, patches
    {
      Valid() && |rs| == numS && |rt| == numT &&
      forall a, b :: 0 <= a < numS && 0 <= b < numT && (a < rows || (a == rows && b < cols)) ==>
        GetPatch(a, b) == Some(Bicubic(rs[a], rt[b]))
    }

    /** Where make_nurbs's inner loop stands on row si after trying the first tn t offsets, ti of them rising. */
    ghost predicate RowProgress(si: nat, sn: nat, ti: nat, tn: nat, tOrder: nat, numTCvs: nat, tKnots: seq<real>,
                                rs: seq<nat>, rt: seq<nat>)
      reads this, tends, patches
    {
      1 <= tOrder && |tKnots| == numTCvs + tOrder && rt == Offsets(tKnots, tOrder, numTCvs) &&
      Filled(rs, rt, si, ti) && si < numS && rs[si] == sn && numT > 0 &&
      tn <= Spans(numTCvs, tOrder) && ti == |RisingAt(tKnots, tOrder, tn)| &&
      SpansOf(tends[..], tKnots, tOrder, rt, if si == 0 then ti else numT)
    }

    /** The inner loop of make_nurbs: fill row si, made from s offset sn, giving every t segment its span. */
    method FillRow(si: nat, sn: nat, tOrder: nat, numTCvs: nat, tKnots: seq<real>, ghost rs: seq<nat>, ghost rt: seq<nat>)
      requires RowProgress(si, sn, 0, 0, tOrder, numTCvs, tKnots, rs, rt)
      modifies tends, patches
      ensures Filled(rs, rt, si + 1, 0)
      ensures SpansOf(tends[..], tKnots, tOrder, rt, numT)
    {
      var ti: nat := 0;
      var tn: nat := 0;
      while tn < numTCvs - tOrder + 1
        invariant RowProgress(si, sn, ti, tn, tOrder, numTCvs, tKnots, rs, rt)
      {
        ti := RowStep(si, sn, ti, tn, tOrder, numTCvs, tKnots, rs, rt);
        tn := tn + 1;
      }
    }

    /** One pass of make_nurbs's inner loop: a rising t offset gets its span and its cell. */
    method RowStep(si: nat, sn: nat, ti: nat, tn: nat, tOrder: nat, numTCvs: nat, tKnots: seq<real>,
                   ghost rs: seq<nat>, ghost rt: seq<nat>) returns (ti': nat)
      requires RowProgress(si, sn, ti, tn, tOrder, numTCvs, tKnots, rs, rt) && tn < Spans(numTCvs, tOrder)
      modifies tends, patches
      ensures RowProgress(si, sn, ti', tn + 1, tOrder, numTCvs, tKnots, rs, rt)
    {
      ti' := ti;
      if tKnots[tn + tOrder] > tKnots[tn + tOrder - 1] {
        RisingIndex(tKnots, tOrder, tn, Spans(numTCvs, tOrder));
        SetSpanT(ti, tn, tOrder, tKnots, rt, if si == 0 then ti else numT);
        PlaceCell(si, ti, sn, tn, rs, rt);
        ti' := ti + 1;
      }
    }

    /** Segment ti gets the span of its t offset. */
    method SetSpanT(ti: nat, tn: nat, tOrder: nat, tKnots: seq<real>, ghost rt: seq<nat>, ghost upto: nat)
      requires Valid() && numS > 0 && ti < numT && ti <= upto && |rt| == numT && rt[ti] == tn && tn + tOrder < |tKnots|
      requires SpansOf(tends[..], tKnots, tOrder, rt, upto)
      modifies tends
      ensures SpansOf(tends[..], tKnots, tOrder, rt, if upto > ti then upto else ti + 1)
    {
      ghost var before := tends[..];
      var _ := SetTLength(ti, KnotSpan(tKnots, tOrder, tn));
      WidthsAfterSet(before, tKnots, tOrder, rt, upto, ti);
    }

    /** Cell (si, ti) gets the patch of its offsets. */
    method PlaceCell(si: nat, ti: nat, sn: nat, tn: nat, ghost rs: seq<nat>, ghost rt: seq<nat>)
      requires Filled(rs, rt, si, ti) && si < numS && ti < numT && rs[si] == sn && rt[ti] == tn
      modifies patches
      ensures Filled(rs, rt, si, ti + 1)
    {
      SetPatch(si, ti, Some(Bicubic(sn, tn)));
    }

    /** Where make_nurbs's outer loop stands after trying the first sn s offsets, si of them rising. */
    ghost predicate SheetProgress(si: nat, sn: nat, sOrder: nat, tOrder: nat, numSCvs: nat, numTCvs: nat,
                                  sKnots: seq<real>, tKnots: seq<real>, rs: seq<nat>, rt: seq<nat>)
      reads this, sends, tends, patches
    {
      1 <= sOrder && 1 <= tOrder && |sKnots| == numSCvs + sOrder && |tKnots| == numTCvs + tOrder &&
      rs == Offsets(sKnots, sOrder, numSCvs) && rt == Offsets(tKnots, tOrder, numTCvs) &&
      (numS == 0 || numT > 0) && Filled(rs, rt, si, 0) &&
      sn <= Spans(numSCvs, sOrder) && si == |RisingAt(sKnots, sOrder, sn)| &&
      SpansOf(sends[..], sKnots, sOrder, rs, si) &&
      SpansOf(tends[..], tKnots, tOrder, rt, if si == 0 then 0 else numT)
    }

    /** One pass of make_nurbs's outer loop: a rising s offset gets its span and its row. */
    method SheetStep(si: nat, sn: nat, sOrder: nat, tOrder: nat, numSCvs: nat, numTCvs: nat,
                     sKnots: seq<real>, tKnots: seq<real>, ghost rs: seq<nat>, ghost rt: seq<nat>) returns (si': nat)
      requires SheetProgress(si, sn, sOrder, tOrder, numSCvs, numTCvs, sKnots, tKnots, rs, rt) && sn < Spans(numSCvs, sOrder)
      modifies sends, tends, patches
      ensures SheetProgress(si', sn + 1, sOrder, tOrder, numSCvs, numTCvs, sKnots, tKnots, rs, rt)
    {
      si' := si;
      if sKnots[sn + sOrder] > sKnots[sn + sOrder - 1] {
        SheetRow(si, sn, sOrder, tOrder, numSCvs, numTCvs, sKnots, tKnots, rs, rt);
        si' := si + 1;
      }
    }

    /** A rising s offset: segment si gets its span, then row si is filled. */
    method SheetRow(si: nat, sn: nat, sOrder: nat, tOrder: nat, numSCvs: nat, numTCvs: nat,
                    sKnots: seq<real>, tKnots: seq<real>, ghost rs: seq<nat>, ghost rt: seq<nat>)
      requires SheetProgress(si, sn, sOrder, tOrder, numSCvs, numTCvs, sKnots, tKnots, rs, rt)
      requires sn < Spans(numSCvs, sOrder) && Rising(sKnots, sOrder, sn)
      modifies sends, tends, patches
      ensures SheetProgress(si + 1, sn + 1, sOrder, tOrder, numSCvs, numTCvs, sKnots, tKnots, rs, rt)
    {
      RisingIndex(sKnots, sOrder, sn, Spans(numSCvs, sOrder));
      assert RisingAt(sKnots, sOrder, sn + 1) == RisingAt(sKnots, sOrder, sn) + [sn];
      ghost var before := sends[..];
      var _ := SetSLength(si, KnotSpan(sKnots, sOrder, sn));
      WidthsAfterSet(before, sKnots, sOrder, rs, si, si);
      FillRow(si, sn, tOrder, numTCvs, tKnots, rs, rt);
    }

    /** The outer loop of make_nurbs: try every s offset in turn. */
    method FillSheet(sOrder: nat, tOrder: nat, numSCvs: nat, numTCvs: nat, sKnots: seq<real>, tKnots: seq<real>,
                     ghost rs: seq<nat>, ghost rt: seq<nat>) returns (si: nat)
      requires SheetProgress(0, 0, sOrder, tOrder, numSCvs, numTCvs, sKnots, tKnots, rs, rt)
      modifies sends, tends, patches
      ensures SheetProgress(si, Spans(numSCvs, sOrder), sOrder, tOrder, numSCvs, numTCvs, sKnots, tKnots, rs, rt)
    {
      si := 0;
      var sn: nat := 0;
      while sn < numSCvs - sOrder + 1
        invariant SheetProgress(si, sn, sOrder, tOrder, numSCvs, numTCvs, sKnots, tKnots, rs, rt)
      {
        si := SheetStep(si, sn, sOrder, tOrder, numSCvs, numTCvs, sKnots, tKnots, rs, rt);
        sn := sn + 1;
      }
    }

    /** Once every s offset is tried, every cell holds its patch and every segment its span. */
    lemma SheetDone(si: nat, sOrder: nat, tOrder: nat, numSCvs: nat, numTCvs: nat,
                    sKnots: seq<real>, tKnots: seq<real>, rs: seq<nat>, rt: seq<nat>)
      requires SheetProgress(si, Spans(numSCvs, sOrder), sOrder, tOrder, numSCvs, numTCvs, sKnots, tKnots, rs, rt)
      ensures Valid() && numS == |rs| && numT == |rt|
      ensures forall a, b :: 0 <= a < numS && 0 <= b < numT ==> GetPatch(a, b) == Some(Bicubic(rs[a], rt[b]))
      ensures forall k :: 0 <= k < numS ==> SegLength(sends[..], k) == KnotSpan(sKnots, sOrder, rs[k])
      ensures numS > 0 ==> forall k :: 0 <= k < numT ==> SegLength(tends[..], k) == KnotSpan(tKnots, tOrder, rt[k])
    {
    }

    /**
     * make_nurbs: count the rising knot pairs in each direction, reset the
     * quilt to that size, then give every segment its knot span and every
     * cell the patch made at its pair of offsets.  The source reaches through
     * the unallocated s ends when s knots rise but no t knots do; that call
     * is excluded here.
     */
    method MakeNurbs(sOrder: nat, tOrder: nat, numSCvs: nat, numTCvs: nat, sKnots: seq<real>, tKnots: seq<real>)
      requires 1 <= sOrder && 1 <= tOrder && |sKnots| == numSCvs + sOrder && |tKnots| == numTCvs + tOrder
      requires |Offsets(sKnots, sOrder, numSCvs)| == 0 || |Offsets(tKnots, tOrder, numTCvs)| > 0
      modifies this
      ensures Valid() && lastSi == 0 && lastTi == 0
      ensures numS == |Offsets(sKnots, sOrder, numSCvs)| && numT == |Offsets(tKnots, tOrder, numTCvs)|
      ensures forall a, b :: 0 <= a < numS && 0 <= b < numT ==>
        GetPatch(a, b) == Some(Bicubic(Offsets(sKnots, sOrder, numSCvs)[a], Offsets(tKnots, tOrder, numTCvs)[b]))
      ensures forall k :: 0 <= k < numS ==> SegLength(sends[..], k) == KnotSpan(sKnots, sOrder, Offsets(sKnots, sOrder, numSCvs)[k])
      ensures numS > 0 ==> forall k :: 0 <= k < numT ==> SegLength(tends[..], k) == KnotSpan(tKnots, tOrder, Offsets(tKnots, tOrder, numTCvs)[k])
    {
      var ns := CountRising(sKnots, sOrder, numSCvs);
      var nt := CountRising(tKnots, tOrder, numTCvs);
      ResetQuilt(ns, nt);
      ghost var rs := Offsets(sKnots, sOrder, numSCvs);
      ghost var rt := Offsets(tKnots, tOrder, numTCvs);
      var si := FillSheet(sOrder, tOrder, numSCvs, numTCvs, sKnots, tKnots, rs, rt);
      SheetDone(si, sOrder, tOrder, numSCvs, numTCvs, sKnots, tKnots, rs, rt);
    }
  }

  /**
   * A quilt reset to 2 by 0 keeps num_s at 2 without allocating the s ends,
   * so get_max_s, set_max_s and set_slength on it reach through a NULL array.
   */
  method UnallocatedEndsScenario() returns (q: Quilt)
    ensures q.Valid() && q.numS == 2 && q.numT == 0 && q.sends.Length == 0
    ensures !q.IsValid() && q.MaxSIfValid() == 0.0
  {
    q := new Quilt(2, 0);
  }
}
