/**
 * A COLLADA <accessor>: how the records of a source array are laid out
 * (count records from offset on, one every stride values) and which of
 * the record's values are bound to a named param.  It loads from and
 * saves to an XML element, counts its bound params and reads its
 * records out of a float array as four-component vectors.
 */
module ColladaAccessorModel {
  import opened Wrappers

  /** One <param> child: its name, type and semantic, empty when absent. */
  datatype Param = Param(name: string, typ: string, semantic: string)

  /** A <param> element as XML: each attribute present or not. */
  datatype XmlParam = XmlParam(name: Option<string>, typ: Option<string>, semantic: Option<string>)

  /**
   * An <accessor> element as XML.  An integer attribute is None when it is
   * absent or does not read as an integer; the params are the <param>
   * children in document order.
   */
  datatype XmlAccessor = XmlAccessor(
    count: Option<int>, offset: Option<int>, source: Option<string>,
    stride: Option<int>, params: seq<XmlParam>)

  /** The accessor's own settings. */
  datatype AccessorState = AccessorState(
    count: int, offset: int, source: string, stride: int, params: seq<Param>)

  /** The settings after clear: no records, offset 0, no source, stride 1, no params. */
  const Cleared := AccessorState(0, 0, "", 1, [])

  /** The kinds of COLLADA source arrays. */
  datatype ArrayType = BoolArray | FloatArray | IdRefArray | IntArray | NameArray | SidRefArray | TokenArray

  /** The array an accessor's source resolves to; only a float array's values are used. */
  datatype ColladaArray = ColladaArray(kind: ArrayType, values: seq<real>)

  /** What get_values does: fills the vectors, refuses a missing or non-float array, or throws on an index past the array. */
  datatype ValuesOutcome = Filled | Refused | OutOfRange

  /** The value of a string attribute that is absent. */
  function OrEmpty(a: Option<string>): string
  {
    if a.Some? then a.value else ""
  }

  function ReadParam(x: XmlParam): Param
  {
    Param(OrEmpty(x.name), OrEmpty(x.typ), OrEmpty(x.semantic))
  }

  function ReadParams(xs: seq<XmlParam>): (ps: seq<Param>)
    ensures |ps| == |xs|
  {
    seq(|xs|, i requires 0 <= i < |xs| => ReadParam(xs[i]))
  }

  predicate Named(p: Param)
  {
    p.name != []
  }

  // ---------------------------------------------------------------------
  // Loading and saving

  /**
   * The stride after loading: raised to the number of params when it is
   * below it, so that a record holds a value for every param.
   */
  function RaiseStride(stride: int, numParams: nat): (r: int)
    ensures r >= numParams && r >= stride
    ensures r == stride || r == numParams
  {
    if stride < numParams then numParams else stride
  }

  /**
   * The fix-up as written: the signed stride is compared with the unsigned
   * size of the param list, so a negative stride is first converted to a
   * 64-bit unsigned value and is never raised.
   */
  function RaiseStrideAsWritten(stride: int, numParams: nat): int
  {
    if stride % 0x1_0000_0000_0000_0000 < numParams then numParams else stride
  }

  /** A stride of -1 over one param is kept as written, where the fix-up raises it to 1. */
  lemma NegativeStrideKept()
    ensures RaiseStrideAsWritten(-1, 1) == -1
    ensures RaiseStride(-1, 1) == 1
  {
  }

  /**
   * load_xml applied to the settings s: a missing element or a missing
   * count fails and changes nothing; otherwise the count is taken, offset
   * and stride default to 0 and 1, the source is kept when absent, the
   * params are appended to those already there and the stride is raised
   * to cover them.
   */
  function Load(s: AccessorState, e: Option<XmlAccessor>): (r: (bool, AccessorState))
    ensures r.0 <==> e.Some? && e.value.count.Some?
    ensures !r.0 ==> r.1 == s
    ensures r.0 ==> r.1.count == e.value.count.value
    ensures r.0 ==> r.1.offset == (if e.value.offset.Some? then e.value.offset.value else 0)
    ensures r.0 ==> r.1.source == (if e.value.source.Some? then e.value.source.value else s.source)
    ensures r.0 ==> r.1.params == s.params + ReadParams(e.value.params)
    ensures r.0 ==> r.1.stride >= |r.1.params|
    ensures r.0 && e.value.stride.None? && |r.1.params| <= 1 ==> r.1.stride == 1
    ensures r.0 && e.value.stride.Some? && e.value.stride.value >= |r.1.params| ==>
      r.1.stride == e.value.stride.value
  {
    if e.None? || e.value.count.None? then (false, s)
    else
      var x := e.value;
      var ps := s.params + ReadParams(x.params);
      var stride := if x.stride.Some? then x.stride.value else 1;
      (true, AccessorState(
        x.count.value,
        if x.offset.Some? then x.offset.value else 0,
        if x.source.Some? then x.source.value else s.source,
        RaiseStride(stride, |ps|),
        ps))
  }

  /** make_xml: every setting is written; a param's name and semantic only when not empty, its type always. */
  function WriteParam(p: Param): XmlParam
  {
    XmlParam(if p.name == [] then None else Some(p.name), Some(p.typ),
             if p.semantic == [] then None else Some(p.semantic))
  }

  function ToXml(s: AccessorState): XmlAccessor
  {
    XmlAccessor(Some(s.count), Some(s.offset), Some(s.source), Some(s.stride),
                seq(|s.params|, i requires 0 <= i < |s.params| => WriteParam(s.params[i])))
  }

  /**
   * Saving and loading into a cleared accessor gives back the same
   * settings, for every state a load can leave (stride covering the
   * params).
   */
  lemma SaveLoadRoundTrip(s: AccessorState)
    requires s.stride >= |s.params|
    ensures Load(Cleared, Some(ToXml(s))) == (true, s)
  {
    var x := ToXml(s);
    var ps := ReadParams(x.params);
    forall i | 0 <= i < |s.params|
      ensures ps[i] == s.params[i]
    {
      var p := s.params[i];
      assert x.params[i] == WriteParam(p);
      assert OrEmpty(WriteParam(p).name) == p.name;
      assert OrEmpty(WriteParam(p).semantic) == p.semantic;
    }
    assert Cleared.params + ps == s.params;
  }

  // ---------------------------------------------------------------------
  // Bound params

  /** The indices below p of the named params (see BoundUpToIndices). */
  function BoundUpTo(ps: seq<Param>, p: nat): (r: seq<nat>)
    requires p <= |ps|
    ensures |r| <= p
  {
    if p == 0 then []
    else BoundUpTo(ps, p - 1) + (if Named(ps[p - 1]) then [p - 1] else [])
  }

  /** BoundUpTo lists exactly the named params below p, each once, in increasing order. */
  lemma {:induction false} BoundUpToIndices(ps: seq<Param>, p: nat)
    requires p <= |ps|
    ensures forall k :: 0 <= k < |BoundUpTo(ps, p)| ==> BoundUpTo(ps, p)[k] < p && Named(ps[BoundUpTo(ps, p)[k]])
    ensures forall j, k :: 0 <= j < k < |BoundUpTo(ps, p)| ==> BoundUpTo(ps, p)[j] < BoundUpTo(ps, p)[k]
    ensures forall q :: 0 <= q < p && Named(ps[q]) ==> q in BoundUpTo(ps, p)
  {
    if p > 0 {
      BoundUpToIndices(ps, p - 1);
    }
  }

  /** The indices of all the named params, in order: the values a record binds. */
  function BoundIndices(ps: seq<Param>): seq<nat>
  {
    BoundUpTo(ps, |ps|)
  }

  /** The named params before p come first among all the named params. */
  lemma {:induction false} BoundGrows(ps: seq<Param>, p: nat, q: nat)
    requires p <= q <= |ps|
    ensures BoundUpTo(ps, p) <= BoundUpTo(ps, q)
  {
    if p < q {
      BoundGrows(ps, p, q - 1);
    }
  }

  /** The length of the run of named params at the front of the list. */
  function LeadingRun(ps: seq<Param>): (r: nat)
    ensures r <= |ps|
    ensures forall j :: 0 <= j < r ==> Named(ps[j])
    ensures r < |ps| ==> !Named(ps[r])
  {
    if |ps| == 0 || !Named(ps[0]) then 0 else 1 + LeadingRun(ps[1..])
  }

  /**
   * get_num_bound_params as written, from iteration p with counter i: the
   * loop runs over p but tests the param at i, counting it when named.
   */
  function BoundScan(ps: seq<Param>, p: nat, i: nat): nat
    requires i <= p <= |ps|
    decreases |ps| - p
  {
    if p == |ps| then i
    else BoundScan(ps, p + 1, if Named(ps[i]) then i + 1 else i)
  }

  function Min(a: int, b: int): int
  {
    if a < b then a else b
  }

  /**
   * The counter of the loop as written equals the iteration number until
   * the first unnamed param and stays there afterwards, so the loop
   * returns the length of the leading run of named params.
   */
  lemma {:induction false} BoundScanIsLeadingRun(ps: seq<Param>, p: nat)
    requires p <= |ps|
    ensures BoundScan(ps, p, Min(p, LeadingRun(ps))) == LeadingRun(ps)
    decreases |ps| - p
  {
    var L := LeadingRun(ps);
    if p < |ps| {
      var i := Min(p, L);
      if p < L {
        assert Named(ps[i]);
      } else if L < |ps| {
        assert !Named(ps[i]);
      }
      BoundScanIsLeadingRun(ps, p + 1);
    }
  }

  /** get_num_bound_params as written returns the leading run. */
  function NumBoundParamsAsWritten(ps: seq<Param>): nat
  {
    BoundScan(ps, 0, 0)
  }

  lemma NumBoundParamsAsWrittenIsLeadingRun(ps: seq<Param>)
    ensures NumBoundParamsAsWritten(ps) == LeadingRun(ps)
  {
    BoundScanIsLeadingRun(ps, 0);
  }

  /** No named param follows an unnamed one. */
  predicate NamedFirst(ps: seq<Param>)
  {
    forall j, k :: 0 <= j < k < |ps| && !Named(ps[j]) ==> !Named(ps[k])
  }

  /**
   * Counting over a prefix: the named params below p are at least the
   * leading ones below p, and no more exactly when none of them comes
   * after the leading run.
   */
  lemma {:induction false} BoundPrefixVsLeading(ps: seq<Param>, p: nat)
    requires p <= |ps|
    ensures |BoundUpTo(ps, p)| >= Min(p, LeadingRun(ps))
    ensures |BoundUpTo(ps, p)| == Min(p, LeadingRun(ps)) <==>
      (forall k :: LeadingRun(ps) <= k < p ==> !Named(ps[k]))
  {
    if p > 0 {
      BoundPrefixVsLeading(ps, p - 1);
    }
  }

  /**
   * The leading run never exceeds the number of bound params, and equals
   * it exactly when the named params all come before the unnamed ones.
   */
  lemma LeadingRunVsBound(ps: seq<Param>)
    ensures LeadingRun(ps) <= |BoundIndices(ps)|
    ensures LeadingRun(ps) == |BoundIndices(ps)| <==> NamedFirst(ps)
  {
    var L := LeadingRun(ps);
    BoundPrefixVsLeading(ps, |ps|);
    if L == |BoundIndices(ps)| {
      forall j, k | 0 <= j < k < |ps| && !Named(ps[j])
        ensures !Named(ps[k])
      {
        assert L <= j;
      }
    }
    if NamedFirst(ps) && L < |ps| {
      assert !Named(ps[L]);
      assert forall k :: L <= k < |ps| ==> !Named(ps[k]);
    }
  }

  // ---------------------------------------------------------------------
  // Records

  /** The vector a record starts from: the last component defaults to 1. */
  const Default: seq<real> := [0.0, 0.0, 0.0, 1.0]

  /** Where record a starts in the source array. */
  function RecordStart(offset: int, stride: int, a: int): int
  {
    offset + a * stride
  }

  /** The bound values among the first p values of the record at pos lie inside the array. */
  predicate FitsUpTo(ps: seq<Param>, values: seq<real>, pos: int, p: nat)
    requires p <= |ps|
  {
    var b := BoundUpTo(ps, p);
    forall k :: 0 <= k < |b| ==> 0 <= pos + b[k] < |values|
  }

  /** Every bound value of the record at pos lies inside the array. */
  predicate RecordFits(ps: seq<Param>, values: seq<real>, pos: int)
  {
    FitsUpTo(ps, values, pos, |ps|)
  }

  /** The vector once the first p values of the record at pos are read. */
  function PartialRecord(ps: seq<Param>, values: seq<real>, pos: int, p: nat): (v: seq<real>)
    requires p <= |ps|
    ensures |v| == 4
  {
    var b := BoundUpTo(ps, p);
    seq(4, k requires 0 <= k < 4 =>
      if k < |b| && 0 <= pos + b[k] < |values| then values[pos + b[k]] else Default[k])
  }

  /**
   * The vector read from the record at pos: its k-th bound value becomes
   * component k, unbound values are skipped, and the remaining components
   * keep (0, 0, 0, 1).
   */
  function Record(ps: seq<Param>, values: seq<real>, pos: int): (v: seq<real>)
    ensures |v| == 4
    ensures forall k :: |BoundIndices(ps)| <= k < 4 ==> v[k] == Default[k]
    ensures RecordFits(ps, values, pos) ==>
      forall k :: 0 <= k < 4 && k < |BoundIndices(ps)| ==>
        v[k] == values[pos + BoundIndices(ps)[k]]
  {
    PartialRecord(ps, values, pos, |ps|)
  }

  /**
   * Reading value p of a record: an unnamed param changes nothing; a named
   * one must lie inside the array and fills the next component.
   */
  lemma RecordStep(ps: seq<Param>, values: seq<real>, pos: int, p: nat)
    requires p < |ps|
    ensures !Named(ps[p]) ==>
      PartialRecord(ps, values, pos, p + 1) == PartialRecord(ps, values, pos, p) &&
      (FitsUpTo(ps, values, pos, p + 1) <==> FitsUpTo(ps, values, pos, p))
    ensures Named(ps[p]) ==>
      (FitsUpTo(ps, values, pos, p + 1) <==> FitsUpTo(ps, values, pos, p) && 0 <= pos + p < |values|)
    ensures Named(ps[p]) && FitsUpTo(ps, values, pos, p + 1) && |BoundUpTo(ps, p)| < 4 ==>
      PartialRecord(ps, values, pos, p + 1) ==
      PartialRecord(ps, values, pos, p)[|BoundUpTo(ps, p)| := values[pos + p]]
  {
    var b := BoundUpTo(ps, p);
    if Named(ps[p]) {
      var b' := BoundUpTo(ps, p + 1);
      assert b' == b + [p];
      assert forall k :: 0 <= k < |b| ==> b'[k] == b[k];
      assert b'[|b|] == p;
      if FitsUpTo(ps, values, pos, p + 1) {
        assert 0 <= pos + b'[|b|] < |values|;
      }
    } else {
      assert BoundUpTo(ps, p + 1) == b;
    }
  }

  /** A record whose first q values fit has its first p values fit, for p <= q. */
  lemma FitsShrink(ps: seq<Param>, values: seq<real>, pos: int, p: nat, q: nat)
    requires p <= q <= |ps|
    ensures FitsUpTo(ps, values, pos, q) ==> FitsUpTo(ps, values, pos, p)
  {
    BoundGrows(ps, p, q);
  }

  /** The first n records, one every stride values from offset. */
  function Records(n: nat, offset: int, stride: int, ps: seq<Param>, values: seq<real>): (r: seq<seq<real>>)
    ensures |r| == n
    ensures forall a :: 0 <= a < n ==> r[a] == Record(ps, values, RecordStart(offset, stride, a))
  {
    seq(n, a requires 0 <= a < n => Record(ps, values, RecordStart(offset, stride, a)))
  }

  /**
   * The record as get_values writes it: the counter equals the iteration
   * number through the leading run of named params and is stuck after it,
   * so only the leading run is read, from the values right after pos.
   */
  function RecordAsWritten(ps: seq<Param>, values: seq<real>, pos: int): (v: seq<real>)
    ensures |v| == 4
  {
    var L := LeadingRun(ps);
    seq(4, k requires 0 <= k < 4 =>
      if k < L && 0 <= pos + k < |values| then values[pos + k] else Default[k])
  }

  /** Through the leading run, the named params are the first ones. */
  lemma {:induction false} LeadingBound(ps: seq<Param>, p: nat)
    requires p <= LeadingRun(ps)
    ensures |BoundUpTo(ps, p)| == p
    ensures forall k :: 0 <= k < p ==> BoundUpTo(ps, p)[k] == k
  {
    if p > 0 {
      LeadingBound(ps, p - 1);
      assert Named(ps[p - 1]);
    }
  }

  /**
   * When every named param comes before the unnamed ones, get_values as
   * written reads the same vector as the corrected one.
   */
  lemma AsWrittenAgreesWhenNamedFirst(ps: seq<Param>, values: seq<real>, pos: int)
    requires NamedFirst(ps)
    ensures RecordAsWritten(ps, values, pos) == Record(ps, values, pos)
  {
    var L := LeadingRun(ps);
    LeadingRunVsBound(ps);
    LeadingBound(ps, L);
    BoundGrows(ps, L, |ps|);
    var b := BoundIndices(ps);
    assert BoundUpTo(ps, L) == b;
    assert forall k :: 0 <= k < 4 ==> RecordAsWritten(ps, values, pos)[k] == Record(ps, values, pos)[k];
  }

  /**
   * An unnamed param followed by a named one: as written no param is
   * bound and the record keeps the default vector, where the named
   * param's value belongs in the first component.
   */
  lemma UnnamedFirstParam()
    ensures var ps := [Param("", "float", ""), Param("X", "float", "")];
      NumBoundParamsAsWritten(ps) == 0 && |BoundIndices(ps)| == 1 &&
      RecordAsWritten(ps, [1.5, 2.5], 0) == Default &&
      Record(ps, [1.5, 2.5], 0) == [2.5, 0.0, 0.0, 1.0]
  {
    var ps := [Param("", "float", ""), Param("X", "float", "")];
    NumBoundParamsAsWrittenIsLeadingRun(ps);
    assert !Named(ps[0]) && Named(ps[1]);
    assert BoundUpTo(ps, 1) == [];
    assert BoundIndices(ps) == [1];
    assert RecordAsWritten(ps, [1.5, 2.5], 0)[0] == 0.0;
  }

  /** The array of vectors get_values fills. */
  class Vec4Array {
    var items: seq<seq<real>>

    constructor ()
      ensures items == []
    {
      items := [];
    }
  }

  class ColladaAccessor {
    var count: int
    var offset: int
    var source: string
    var stride: int
    var params: seq<Param>

    function State(): AccessorState
      reads this
    {
      AccessorState(count, offset, source, stride, params)
    }

    /** A new accessor starts cleared. */
    constructor ()
      ensures State() == Cleared
    {
      count, offset, source, stride, params := 0, 0, "", 1, [];
    }

    /** clear: no records, offset 0, no source, stride 1, no params. */
    method Clear()
      modifies this
      ensures State() == Cleared
    {
      count, offset, source, stride, params := 0, 0, "", 1, [];
    }

    /**
     * load_xml: fails without an element or a count, leaving everything
     * as it was; otherwise reads the attributes and appends the params.
     */
    method LoadXml(e: Option<XmlAccessor>) returns (ok: bool)
      modifies this
      ensures (ok, State()) == Load(old(State()), e)
    {
      if e.None? || e.value.count.None? {
        return false;
      }
      var x := e.value;
      count := x.count.value;
      offset := if x.offset.Some? then x.offset.value else 0;
      if x.source.Some? {
        source := x.source.value;
      }
      stride := if x.stride.Some? then x.stride.value else 1;
      var k := 0;
      while k < |x.params|
        invariant 0 <= k <= |x.params|
        invariant params == old(params) + ReadParams(x.params[..k])
        invariant count == x.count.value && offset == (if x.offset.Some? then x.offset.value else 0)
        invariant source == (if x.source.Some? then x.source.value else old(source))
        invariant stride == (if x.stride.Some? then x.stride.value else 1)
      {
        assert ReadParams(x.params[..k + 1]) == ReadParams(x.params[..k]) + [ReadParam(x.params[k])];
        params := params + [ReadParam(x.params[k])];
        k := k + 1;
      }
      assert x.params[..k] == x.params;
      if stride < |params| {
        stride := |params|;
      }
      return true;
    }

    /** get_num_bound_params: how many params are named, the values a record binds. */
    method NumBoundParams() returns (n: int)
      ensures n == |BoundIndices(params)|
      ensures n == LeadingRun(params) <==> NamedFirst(params)
    {
      n := 0;
      var p := 0;
      while p < |params|
        invariant 0 <= p <= |params|
        invariant n == |BoundUpTo(params, p)|
      {
        if Named(params[p]) {
          n := n + 1;
        }
        p := p + 1;
      }
      LeadingRunVsBound(params);
    }

    /**
     * Reads the record at pos into a vector, or reports that one of its
     * bound values lies outside the array (where the source's checked
     * element access throws).
     */
    method ReadRecord(values: seq<real>, pos: int) returns (v: seq<real>, fits: bool)
      requires |BoundIndices(params)| <= 4
      ensures fits == RecordFits(params, values, pos)
      ensures fits ==> v == Record(params, values, pos)
    {
      var ps := params;
      v := Default;
      var i := 0;
      var p := 0;
      while p < |ps|
        invariant 0 <= p <= |ps|
        invariant i == |BoundUpTo(ps, p)| && i <= |BoundIndices(ps)|
        invariant FitsUpTo(ps, values, pos, p)
        invariant v == PartialRecord(ps, values, pos, p)
      {
        RecordStep(ps, values, pos, p);
        if Named(ps[p]) {
          BoundGrows(ps, p + 1, |ps|);
          if !(0 <= pos + p < |values|) {
            FitsShrink(ps, values, pos, p + 1, |ps|);
            return v, false;
          }
          v := v[i := values[pos + p]];
          i := i + 1;
        }
        p := p + 1;
      }
      fits := true;
    }

    /**
     * get_values: refuses a missing or non-float array and leaves the
     * vectors as they were; otherwise clears them and appends one vector
     * per record, stopping with the records read so far at the first
     * record that reaches outside the array.
     */
    method GetValues(resolved: Option<ColladaArray>, into: Vec4Array) returns (r: ValuesOutcome)
      requires |BoundIndices(params)| <= 4
      modifies into
      ensures r == Refused <==> resolved.None? || resolved.value.kind != FloatArray
      ensures r == Refused ==> into.items == old(into.items)
      ensures r == Filled ==>
        into.items == Records(if count < 0 then 0 else count, offset, stride, params, resolved.value.values) &&
        forall a :: 0 <= a < count ==> RecordFits(params, resolved.value.values, RecordStart(offset, stride, a))
      ensures r == OutOfRange ==>
        |into.items| < count &&
        into.items == Records(|into.items|, offset, stride, params, resolved.value.values) &&
        !RecordFits(params, resolved.value.values, RecordStart(offset, stride, |into.items|))
    {
      if resolved.None? || resolved.value.kind != FloatArray {
        return Refused;
      }
      var values := resolved.value.values;
      into.items := [];
      var pos := offset;
      var a: nat := 0;
      while a < count
        invariant count >= 0 ==> a <= count
        invariant count < 0 ==> a == 0
        invariant pos == RecordStart(offset, stride, a)
        invariant into.items == Records(a, offset, stride, params, values)
        invariant forall j :: 0 <= j < a ==> RecordFits(params, values, RecordStart(offset, stride, j))
      {
        var v, fits := ReadRecord(values, pos);
        if !fits {
          return OutOfRange;
        }
        into.items := into.items + [v];
        assert (a + 1) * stride == a * stride + stride;
        pos := pos + stride;
        a := a + 1;
      }
      return Filled;
    }
  }
}
