/**
 * GraphicsStateGuardian: the attribute state vector it edits in place while
 * merging requested states, the frame-clear and colour flags it keeps, and
 * the sets of prepared textures, geoms and geom nodes.  Commands sent to the
 * hardware are recorded in order in `issues`.
 */
module GraphicsStateGuardianModel {
  import opened Wrappers
  import opened GsgStateModel

  /** RenderBuffer type bits; only the back and depth buffers matter here. */
  datatype BufferBit = TBack | TDepth | OtherBuffer(bit: nat)

  /** ColorAttrib types. */
  datatype ColorType = TFlat | TOff | TVertex

  /** The number of slots of a sorted vector below type t: where lower_bound lands. */
  function LowerBound(s: seq<Slot>, t: nat): (i: nat)
    ensures i <= |s|
    ensures forall k :: 0 <= k < i ==> s[k].t < t
    ensures i < |s| ==> t <= s[i].t || exists k :: 0 <= k < i && s[k].t >= t
  {
    if s == [] || s[0].t >= t then 0 else 1 + LowerBound(s[1..], t)
  }

  /** In a sorted vector, lower_bound finds a type's slot exactly where Lookup does. */
  lemma {:induction false} LowerBoundLookup(s: seq<Slot>, t: nat)
    requires Sorted(s)
    ensures LowerBound(s, t) < |s| && s[LowerBound(s, t)].t == t ==> Lookup(s, t) == Some(s[LowerBound(s, t)].trans)
    ensures !(LowerBound(s, t) < |s| && s[LowerBound(s, t)].t == t) ==> Lookup(s, t).None?
  {
    if s != [] {
      TailAbove(s);
      if s[0].t > t {
        LookupBelow(s, t);
      } else if s[0].t < t {
        LowerBoundLookup(s[1..], t);
      }
    }
  }

  /** Overwriting the transition of a slot, keeping its type, changes the lookup of that type only. */
  lemma {:induction false} LookupUpdate(s: seq<Slot>, i: nat, x: Slot, u: nat)
    requires Sorted(s) && i < |s| && s[i].t == x.t
    ensures Sorted(s[i := x])
    ensures Lookup(s[i := x], u) == if u == x.t then Some(x.trans) else Lookup(s, u)
  {
    var s' := s[i := x];
    assert forall k :: 0 <= k < |s| ==> s'[k].t == s[k].t;
    if i == 0 {
      if u != x.t {
        assert s'[1..] == s[1..];
      }
    } else {
      TailAbove(s);
      assert s'[1..] == s[1..][i - 1 := x];
      assert s[i].t in Types(s[1..]) by { assert s[1..][i - 1] == s[i]; }
      LookupUpdate(s[1..], i - 1, x, u);
    }
  }

  /**
   * Inserting into a prepared set, as std::set::insert: the flag is true
   * exactly when the element was not there, that is, when the set changed.
   */
  function Insert(s: set<nat>, x: nat): (r: (bool, set<nat>))
    ensures r.1 == s + {x}
    ensures r.0 <==> x !in s
    ensures r.0 <==> r.1 != s
  {
    if x in s then (false, s) else (true, s + {x})
  }

  /**
   * Erasing from a prepared set, as std::set::erase compared with 0: the flag
   * is true exactly when the element was there, that is, when the set changed.
   */
  function Erase(s: set<nat>, x: nat): (r: (bool, set<nat>))
    ensures r.1 == s - {x}
    ensures r.0 <==> x in s
    ensures r.0 <==> r.1 != s
  {
    if x in s then (true, s - {x}) else (false, s)
  }

  /** Marking then unmarking a context that was not prepared leaves the set as it was. */
  lemma MarkThenUnmark(s: set<nat>, x: nat)
    requires x !in s
    ensures Insert(s, x).0 && Erase(Insert(s, x).1, x) == (true, s)
  {
  }

  /** Which of the two merges a loop carries out. */
  datatype MergeKind = ModifyKind | SetKind

  function MergeOf(kind: MergeKind, cur: seq<Slot>, req: seq<Slot>, byPointer: bool): Merge
  {
    match kind
    case ModifyKind => ModifyMerge(cur, req, byPointer)
    case SetKind => SetMerge(cur, req, byPointer)
  }

  /** The merge of what is left: vector slots from ci on, request slots from ni on. */
  function Rest(kind: MergeKind, s: seq<Slot>, ci: nat, req: seq<Slot>, ni: nat, byPointer: bool): Merge
    requires ci <= |s| && ni <= |req|
  {
    MergeOf(kind, s[ci..], req[ni..], byPointer)
  }

  /**
   * A merge loop's invariant: the vector slots before ci, the commands issued
   * and the request entries passed, each followed by the merge of what is
   * left, give the merge of the whole.
   */
  ghost predicate Progress(kind: MergeKind, s: seq<Slot>, issues: seq<Issue>, source: seq<Slot>, req: seq<Slot>,
                           ci: nat, ni: nat, byPointer: bool, whole: Merge, issues0: seq<Issue>)
  {
    ci <= |s| && ni <= |req| &&
    var rest := Rest(kind, s, ci, req, ni, byPointer);
    s[..ci] + rest.state == whole.state &&
    issues + rest.issues == issues0 + whole.issues &&
    source + rest.source == whole.source
  }

  /** Moving the head of what is left onto what is done keeps the invariant. */
  lemma Advance(kind: MergeKind, s: seq<Slot>, issues: seq<Issue>, source: seq<Slot>, req: seq<Slot>, ci: nat, ni: nat,
                s': seq<Slot>, ci': nat, ni': nat, hs: seq<Slot>, hi: seq<Issue>, hsrc: seq<Slot>,
                byPointer: bool, whole: Merge, issues0: seq<Issue>)
    requires Progress(kind, s, issues, source, req, ci, ni, byPointer, whole, issues0)
    requires ci' <= |s'| && ni' <= |req| && s'[..ci'] == s[..ci] + hs
    requires Rest(kind, s, ci, req, ni, byPointer) ==
      var r := Rest(kind, s', ci', req, ni', byPointer); Merge(hs + r.state, hi + r.issues, hsrc + r.source)
    ensures Progress(kind, s', issues + hi, source + hsrc, req, ci', ni', byPointer, whole, issues0)
  {
    var r := Rest(kind, s', ci', req, ni', byPointer);
    assert s'[..ci'] + r.state == s[..ci] + (hs + r.state);
    assert (issues + hi) + r.issues == issues + (hi + r.issues);
    assert (source + hsrc) + r.source == source + (hsrc + r.source);
  }

  /** The slices one slot further on. */
  lemma SliceHeads(s: seq<Slot>, ci: nat, req: seq<Slot>, ni: nat)
    requires ci < |s| && ni <= |req|
    ensures s[ci..] == [s[ci]] + s[ci + 1..] && s[ci..][1..] == s[ci + 1..] && s[ci..][0] == s[ci]
    ensures ni < |req| ==> req[ni..][1..] == req[ni + 1..] && req[ni..][0] == req[ni]
  {
  }

  /** A requested type below the vector's next slot (or past its end) is inserted there and issued. */
  lemma UnfoldInsert(kind: MergeKind, s: seq<Slot>, req: seq<Slot>, ci: nat, ni: nat, byPointer: bool)
    requires ci <= |s| && ni < |req| && (ci == |s| || req[ni].t < s[ci].t) && req[ni].trans.Some?
    ensures var s' := s[..ci] + [req[ni]] + s[ci..];
      s'[..ci + 1] == s[..ci] + [req[ni]] &&
      Rest(kind, s, ci, req, ni, byPointer) ==
        var r := Rest(kind, s', ci + 1, req, ni + 1, byPointer);
        Merge([req[ni]] + r.state, [Issued(req[ni].t, req[ni].trans.value)] + r.issues, [req[ni]] + r.source)
  {
    var s' := s[..ci] + [req[ni]] + s[ci..];
    assert s'[ci + 1..] == s[ci..];
    assert req[ni..][1..] == req[ni + 1..] && req[ni..][0] == req[ni];
    if ci < |s| {
      assert s[ci..][0] == s[ci];
    }
  }

  /** A NULL request for a type below the vector's next slot (or past its end) is passed over. */
  lemma UnfoldSkipNull(kind: MergeKind, s: seq<Slot>, req: seq<Slot>, ci: nat, ni: nat, byPointer: bool)
    requires ci <= |s| && ni < |req| && (ci == |s| || req[ni].t < s[ci].t) && req[ni].trans.None?
    ensures Rest(kind, s, ci, req, ni, byPointer) ==
      var r := Rest(kind, s, ci, req, ni + 1, byPointer); Merge([] + r.state, [] + r.issues, [req[ni]] + r.source)
    ensures s[..ci] == s[..ci] + []
  {
    assert req[ni..][1..] == req[ni + 1..] && req[ni..][0] == req[ni];
    if ci < |s| {
      assert s[ci..][0] == s[ci];
    }
  }

  /** modify_state passes over a vector slot whose type the request does not reach. */
  lemma UnfoldPass(s: seq<Slot>, req: seq<Slot>, ci: nat, ni: nat, byPointer: bool)
    requires ci < |s| && ni < |req| && s[ci].t < req[ni].t
    ensures s[..ci + 1] == s[..ci] + [s[ci]]
    ensures Rest(ModifyKind, s, ci, req, ni, byPointer) ==
      var r := Rest(ModifyKind, s, ci + 1, req, ni, byPointer); Merge([s[ci]] + r.state, [] + r.issues, [] + r.source)
  {
    SliceHeads(s, ci, req, ni);
    assert req[ni..][0] == req[ni];
  }

  /** set_state resets a vector slot whose type the request does not reach, when it is set. */
  lemma UnfoldReset(s: seq<Slot>, req: seq<Slot>, ci: nat, ni: nat, byPointer: bool)
    requires ci < |s| && ni <= |req| && (ni == |req| || s[ci].t < req[ni].t)
    ensures var x := if s[ci].trans.Some? then Slot(s[ci].t, None) else s[ci];
      var s' := s[ci := x];
      s'[..ci + 1] == s[..ci] + [x] &&
      Rest(SetKind, s, ci, req, ni, byPointer) ==
        var r := Rest(SetKind, s', ci + 1, req, ni, byPointer);
        Merge([x] + r.state, (if s[ci].trans.Some? then [ResetInitial(s[ci].t)] else []) + r.issues, [] + r.source)
  {
    var x := if s[ci].trans.Some? then Slot(s[ci].t, None) else s[ci];
    var s' := s[ci := x];
    SliceHeads(s, ci, req, ni);
    assert s'[ci + 1..] == s[ci + 1..];
    assert s'[..ci + 1] == s[..ci] + [x];
    if ni < |req| {
      assert req[ni..][0] == req[ni];
    }
  }

  /** modify_state's NULL slot of a requested type takes the request and is visited again. */
  lemma UnfoldFill(s: seq<Slot>, req: seq<Slot>, ci: nat, ni: nat, byPointer: bool)
    requires ci < |s| && ni < |req| && s[ci].t == req[ni].t && s[ci].trans.None? && req[ni].trans.Some?
    ensures var s' := s[ci := req[ni]];
      s'[..ci] == s[..ci] + [] &&
      Rest(ModifyKind, s, ci, req, ni, byPointer) ==
        var r := Rest(ModifyKind, s', ci, req, ni, byPointer);
        Merge([] + r.state, [Issued(req[ni].t, req[ni].trans.value)] + r.issues, [] + r.source)
  {
    var s' := s[ci := req[ni]];
    SliceHeads(s, ci, req, ni);
    SliceHeads(s', ci, req, ni);
    assert s'[ci + 1..] == s[ci + 1..];
    assert s'[..ci] == s[..ci];
  }

  /** A NULL request for a type the vector has: modify_state keeps the slot, set_state resets it. */
  lemma UnfoldEqualNull(kind: MergeKind, s: seq<Slot>, req: seq<Slot>, ci: nat, ni: nat, byPointer: bool)
    requires ci < |s| && ni < |req| && s[ci].t == req[ni].t && req[ni].trans.None?
    ensures var x := if kind.SetKind? && s[ci].trans.Some? then Slot(s[ci].t, None) else s[ci];
      var s' := s[ci := x];
      s'[..ci + 1] == s[..ci] + [x] &&
      Rest(kind, s, ci, req, ni, byPointer) ==
        var r := Rest(kind, s', ci + 1, req, ni + 1, byPointer);
        Merge([x] + r.state, (if kind.SetKind? && s[ci].trans.Some? then [ResetInitial(s[ci].t)] else []) + r.issues,
              [req[ni]] + r.source)
  {
    var x := if kind.SetKind? && s[ci].trans.Some? then Slot(s[ci].t, None) else s[ci];
    var s' := s[ci := x];
    SliceHeads(s, ci, req, ni);
    assert s'[ci + 1..] == s[ci + 1..];
    assert s'[..ci + 1] == s[..ci] + [x];
  }

  /** A requested transition the vector's slot does not keep replaces it and is issued. */
  lemma UnfoldReplace(kind: MergeKind, s: seq<Slot>, req: seq<Slot>, ci: nat, ni: nat, byPointer: bool)
    requires ci < |s| && ni < |req| && s[ci].t == req[ni].t && req[ni].trans.Some?
    requires Reissues(Some(s[ci].trans), req[ni].trans.value, byPointer)
    requires kind.SetKind? || s[ci].trans.Some?
    ensures var s' := s[ci := req[ni]];
      s'[..ci + 1] == s[..ci] + [req[ni]] &&
      Rest(kind, s, ci, req, ni, byPointer) ==
        var r := Rest(kind, s', ci + 1, req, ni + 1, byPointer);
        Merge([req[ni]] + r.state, [Issued(req[ni].t, req[ni].trans.value)] + r.issues, [req[ni]] + r.source)
  {
    var s' := s[ci := req[ni]];
    SliceHeads(s, ci, req, ni);
    assert s'[ci + 1..] == s[ci + 1..];
    assert s'[..ci + 1] == s[..ci] + [req[ni]];
  }

  /** A requested transition the slot keeps changes nothing but the request's entry. */
  lemma UnfoldKeep(kind: MergeKind, s: seq<Slot>, req: seq<Slot>, ci: nat, ni: nat, byPointer: bool)
    requires ci < |s| && ni < |req| && s[ci].t == req[ni].t && req[ni].trans.Some? && s[ci].trans.Some?
    requires !Reissues(Some(s[ci].trans), req[ni].trans.value, byPointer)
    ensures s[..ci + 1] == s[..ci] + [s[ci]]
    ensures Rest(kind, s, ci, req, ni, byPointer) ==
      var r := Rest(kind, s, ci + 1, req, ni + 1, byPointer); Merge([s[ci]] + r.state, [] + r.issues, [s[ci]] + r.source)
  {
    SliceHeads(s, ci, req, ni);
  }

  /** Once the request is used up, modify_state has merged everything. */
  lemma FinishModify(s: seq<Slot>, issues: seq<Issue>, source: seq<Slot>, req: seq<Slot>, ci: nat,
                     byPointer: bool, whole: Merge, issues0: seq<Issue>)
    requires Progress(ModifyKind, s, issues, source, req, ci, |req|, byPointer, whole, issues0)
    ensures s == whole.state && issues == issues0 + whole.issues && source == whole.source
  {
    assert req[|req|..] == [];
    assert s[..ci] + s[ci..] == s;
  }

  /** Once both are used up, set_state has merged everything. */
  lemma FinishSet(s: seq<Slot>, issues: seq<Issue>, source: seq<Slot>, req: seq<Slot>,
                  byPointer: bool, whole: Merge, issues0: seq<Issue>)
    requires Progress(SetKind, s, issues, source, req, |s|, |req|, byPointer, whole, issues0)
    ensures s == whole.state && issues == issues0 + whole.issues && source == whole.source
  {
    assert s[|s|..] == [] && req[|req|..] == [] && s[..|s|] == s;
  }

  class Gsg {
    /** _state: the current transition of every type set so far, sorted by type. */
    var state: seq<Slot>
    var issues: seq<Issue>
    /** The compare-state-by-pointer configuration variable. */
    const byPointer: bool
    var bufferMask: set<BufferBit>
    var clearBufferType: set<BufferBit>
    var sceneGraphColor: int
    var hasSceneGraphColor: bool
    var vertexColorsEnabled: bool
    var issuedColorStale: bool
    var preparedTextures: set<nat>
    var preparedGeoms: set<nat>
    var preparedGeomNodes: set<nat>

    ghost predicate Valid()
      reads this
    {
      Sorted(state)
    }

    /** The constructor calls reset: no state, back and depth cleared each frame, vertex colours on. */
    constructor (byPointer: bool)
      ensures Valid() && this.byPointer == byPointer
      ensures state == [] && issues == [] && bufferMask == {} && clearBufferType == {TBack, TDepth}
      ensures !hasSceneGraphColor && !issuedColorStale && vertexColorsEnabled
      ensures preparedTextures == {} && preparedGeoms == {} && preparedGeomNodes == {}
    {
      this.byPointer := byPointer;
      state := [];
      issues := [];
      bufferMask := {};
      clearBufferType := {TBack, TDepth};
      sceneGraphColor := 0;
      hasSceneGraphColor := false;
      vertexColorsEnabled := true;
      issuedColorStale := false;
      preparedTextures := {};
      preparedGeoms := {};
      preparedGeomNodes := {};
    }

    // -------------------------------------------------------------------------
    // modify_state and set_state
    // -------------------------------------------------------------------------

    /**
     * modify_state: walk the request and the vector together, inserting new
     * types, filling NULL slots, and replacing transitions that differ; types
     * the request does not mention are left alone.
     */
    method ModifyState(req: seq<Slot>) returns (source: seq<Slot>)
      requires Valid() && Sorted(req)
      modifies this`state, this`issues
      ensures Valid()
      ensures state == ModifyMerge(old(state), req, byPointer).state
      ensures issues == old(issues) + ModifyMerge(old(state), req, byPointer).issues
      ensures source == ModifyMerge(old(state), req, byPointer).source
    {
      ghost var whole := ModifyMerge(state, req, byPointer);
      ghost var issues0 := issues;
      ModifySorted(state, req, byPointer);
      assert state[..0] == [] && state[0..] == state && req[0..] == req;
      source := [];
      var ci: nat, ni: nat := 0, 0;
      while ni < |req| && ci < |state|
        invariant Progress(ModifyKind, state, issues, source, req, ci, ni, byPointer, whole, issues0)
        decreases |req| - ni + |state| - ci, if ci < |state| && state[ci].trans.None? then 1 else 0
      {
        ci, ni, source := MergeStep(ModifyKind, req, ci, ni, source, whole, issues0);
      }
      while ni < |req|
        invariant Progress(ModifyKind, state, issues, source, req, ci, ni, byPointer, whole, issues0)
        invariant ni < |req| ==> ci == |state|
      {
        ci, ni, source := PushRequested(ModifyKind, req, ci, ni, source, whole, issues0);
      }
      FinishModify(state, issues, source, req, ci, byPointer, whole, issues0);
    }

    /**
     * set_state: the same walk, except that every set type the request leaves
     * out or NULLs is reset to its initial value and NULLed.
     */
    method SetState(req: seq<Slot>) returns (source: seq<Slot>)
      requires Valid() && Sorted(req)
      modifies this`state, this`issues
      ensures Valid()
      ensures state == SetMerge(old(state), req, byPointer).state
      ensures issues == old(issues) + SetMerge(old(state), req, byPointer).issues
      ensures source == SetMerge(old(state), req, byPointer).source
    {
      ghost var whole := SetMerge(state, req, byPointer);
      ghost var issues0 := issues;
      SetStateSorted(state, req, byPointer);
      assert state[..0] == [] && state[0..] == state && req[0..] == req;
      source := [];
      var ci: nat, ni: nat := 0, 0;
      while ni < |req| && ci < |state|
        invariant Progress(SetKind, state, issues, source, req, ci, ni, byPointer, whole, issues0)
        decreases |req| - ni + |state| - ci
      {
        ci, ni, source := MergeStep(SetKind, req, ci, ni, source, whole, issues0);
      }
      while ci < |state|
        invariant Progress(SetKind, state, issues, source, req, ci, ni, byPointer, whole, issues0)
        invariant ci < |state| ==> ni == |req|
      {
        ResetUnrequested(req, ci, ni, source, whole, issues0);
        ci := ci + 1;
      }
      while ni < |req|
        invariant Progress(SetKind, state, issues, source, req, ci, ni, byPointer, whole, issues0)
        invariant ci == |state|
      {
        ci, ni, source := PushRequested(SetKind, req, ci, ni, source, whole, issues0);
      }
      FinishSet(state, issues, source, req, byPointer, whole, issues0);
    }

    /** One pass of either merge loop, with both sides not yet used up. */
    method MergeStep(kind: MergeKind, req: seq<Slot>, ci: nat, ni: nat, source0: seq<Slot>, ghost whole: Merge, ghost issues0: seq<Issue>)
      returns (ci': nat, ni': nat, source: seq<Slot>)
      requires ci < |state| && ni < |req|
      requires Progress(kind, state, issues, source0, req, ci, ni, byPointer, whole, issues0)
      modifies this`state, this`issues
      ensures Progress(kind, state, issues, source, req, ci', ni', byPointer, whole, issues0)
      ensures |req| - ni' + |state| - ci' < |req| - ni + |old(state)| - ci ||
        (kind.ModifyKind? && |req| - ni' + |state| - ci' == |req| - ni + |old(state)| - ci &&
         old(state)[ci].trans.None? && ci' < |state| && state[ci'].trans.Some?)
    {
      if req[ni].t < state[ci].t {
        ci', ni', source := PushRequested(kind, req, ci, ni, source0, whole, issues0);
      } else if state[ci].t < req[ni].t {
        if kind.ModifyKind? {
          // A type set before that the request does not mention is left alone.
          UnfoldPass(state, req, ci, ni, byPointer);
          Advance(kind, state, issues, source0, req, ci, ni, state, ci + 1, ni, [state[ci]], [], [], byPointer, whole, issues0);
          assert issues + [] == issues && source0 + [] == source0;
        } else {
          ResetUnrequested(req, ci, ni, source0, whole, issues0);
        }
        ci', ni', source := ci + 1, ni, source0;
      } else {
        ci', ni', source := MatchRequested(kind, req, ci, ni, source0, whole, issues0);
      }
    }

    /**
     * A requested type below the vector's next slot, or past its end: a
     * non-NULL request is issued and inserted; the request's entry is passed.
     */
    method PushRequested(kind: MergeKind, req: seq<Slot>, ci: nat, ni: nat, source0: seq<Slot>, ghost whole: Merge, ghost issues0: seq<Issue>)
      returns (ci': nat, ni': nat, source: seq<Slot>)
      requires ci <= |state| && ni < |req| && (ci == |state| || req[ni].t < state[ci].t)
      requires Progress(kind, state, issues, source0, req, ci, ni, byPointer, whole, issues0)
      modifies this`state, this`issues
      ensures ni' == ni + 1 && |state| - ci' == |old(state)| - ci
      ensures Progress(kind, state, issues, source, req, ci', ni', byPointer, whole, issues0)
    {
      var r := req[ni];
      if r.trans.Some? {
        UnfoldInsert(kind, state, req, ci, ni, byPointer);
        var s' := state[..ci] + [r] + state[ci..];
        Advance(kind, state, issues, source0, req, ci, ni, s', ci + 1, ni + 1, [r], [Issued(r.t, r.trans.value)], [r],
                byPointer, whole, issues0);
        issues := issues + [Issued(r.t, r.trans.value)];
        state := s';
        ci' := ci + 1;
      } else {
        UnfoldSkipNull(kind, state, req, ci, ni, byPointer);
        Advance(kind, state, issues, source0, req, ci, ni, state, ci, ni + 1, [], [], [r], byPointer, whole, issues0);
        assert issues + [] == issues;
        ci' := ci;
      }
      source := source0 + [r];
      ni' := ni + 1;
    }

    /** The request and the vector hold the same type. */
    method MatchRequested(kind: MergeKind, req: seq<Slot>, ci: nat, ni: nat, source0: seq<Slot>, ghost whole: Merge, ghost issues0: seq<Issue>)
      returns (ci': nat, ni': nat, source: seq<Slot>)
      requires ci < |state| && ni < |req| && state[ci].t == req[ni].t
      requires Progress(kind, state, issues, source0, req, ci, ni, byPointer, whole, issues0)
      modifies this`state, this`issues
      ensures Progress(kind, state, issues, source, req, ci', ni', byPointer, whole, issues0)
      ensures |state| == |old(state)|
      ensures (ci' == ci + 1 && ni' == ni + 1) ||
        (kind.ModifyKind? && ci' == ci && ni' == ni && old(state)[ci].trans.None? && state[ci].trans.Some?)
    {
      var cur, r := state[ci], req[ni];
      if r.trans.None? {
        MatchNull(kind, req, ci, ni, source0, whole, issues0);
        ci', ni', source := ci + 1, ni + 1, source0 + [r];
      } else if cur.trans.None? && kind.ModifyKind? {
        FillNull(req, ci, ni, source0, whole, issues0);
        ci', ni', source := ci, ni, source0;
      } else if cur.trans.None? || (r.trans.value != cur.trans.value && !(!byPointer && r.trans.value.value == cur.trans.value.value)) {
        // A NULL slot (set_state) or a different transition: issue and store it.
        ReplaceSlot(kind, req, ci, ni, source0, whole, issues0);
        ci', ni', source := ci + 1, ni + 1, source0 + [r];
      } else {
        // The same transition, or (comparing by value) an equal one whose
        // pointer the request takes over.
        UnfoldKeep(kind, state, req, ci, ni, byPointer);
        Advance(kind, state, issues, source0, req, ci, ni, state, ci + 1, ni + 1, [cur], [], [cur], byPointer, whole, issues0);
        assert issues + [] == issues;
        ci', ni', source := ci + 1, ni + 1, source0 + [cur];
      }
    }

    /** A NULL request for a type the vector holds: modify_state ignores it, set_state resets the type. */
    method MatchNull(kind: MergeKind, req: seq<Slot>, ci: nat, ni: nat, source0: seq<Slot>, ghost whole: Merge, ghost issues0: seq<Issue>)
      requires ci < |state| && ni < |req| && state[ci].t == req[ni].t && req[ni].trans.None?
      requires Progress(kind, state, issues, source0, req, ci, ni, byPointer, whole, issues0)
      modifies this`state, this`issues
      ensures |state| == |old(state)|
      ensures Progress(kind, state, issues, source0 + [req[ni]], req, ci + 1, ni + 1, byPointer, whole, issues0)
    {
      var cur := state[ci];
      UnfoldEqualNull(kind, state, req, ci, ni, byPointer);
      var reset := kind.SetKind? && cur.trans.Some?;
      var x := if reset then Slot(cur.t, None) else cur;
      var hi := if reset then [ResetInitial(cur.t)] else [];
      Advance(kind, state, issues, source0, req, ci, ni, state[ci := x], ci + 1, ni + 1, [x], hi, [req[ni]], byPointer, whole, issues0);
      issues := issues + hi;
      state := state[ci := x];
    }

    /** modify_state fills a NULL slot with the requested transition, issues it, and visits the pair again. */
    method FillNull(req: seq<Slot>, ci: nat, ni: nat, source0: seq<Slot>, ghost whole: Merge, ghost issues0: seq<Issue>)
      requires ci < |state| && ni < |req| && state[ci].t == req[ni].t && state[ci].trans.None? && req[ni].trans.Some?
      requires Progress(ModifyKind, state, issues, source0, req, ci, ni, byPointer, whole, issues0)
      modifies this`state, this`issues
      ensures |state| == |old(state)| && state[ci].trans.Some?
      ensures Progress(ModifyKind, state, issues, source0, req, ci, ni, byPointer, whole, issues0)
    {
      var r := req[ni];
      UnfoldFill(state, req, ci, ni, byPointer);
      Advance(ModifyKind, state, issues, source0, req, ci, ni, state[ci := r], ci, ni, [], [Issued(r.t, r.trans.value)], [],
              byPointer, whole, issues0);
      issues := issues + [Issued(r.t, r.trans.value)];
      state := state[ci := r];
      assert source0 + [] == source0;
    }

    /** A requested transition the slot does not keep: issue it and store it in the slot. */
    method ReplaceSlot(kind: MergeKind, req: seq<Slot>, ci: nat, ni: nat, source0: seq<Slot>, ghost whole: Merge, ghost issues0: seq<Issue>)
      requires ci < |state| && ni < |req| && state[ci].t == req[ni].t && req[ni].trans.Some?
      requires Reissues(Some(state[ci].trans), req[ni].trans.value, byPointer)
      requires kind.SetKind? || state[ci].trans.Some?
      requires Progress(kind, state, issues, source0, req, ci, ni, byPointer, whole, issues0)
      modifies this`state, this`issues
      ensures |state| == |old(state)|
      ensures Progress(kind, state, issues, source0 + [req[ni]], req, ci + 1, ni + 1, byPointer, whole, issues0)
    {
      var r := req[ni];
      UnfoldReplace(kind, state, req, ci, ni, byPointer);
      Advance(kind, state, issues, source0, req, ci, ni, state[ci := r], ci + 1, ni + 1, [r], [Issued(r.t, r.trans.value)], [r],
              byPointer, whole, issues0);
      issues := issues + [Issued(r.t, r.trans.value)];
      state := state[ci := r];
    }

    /** set_state: reset the slot at ci, which the request does not reach, if it is set. */
    method ResetUnrequested(req: seq<Slot>, ci: nat, ni: nat, source: seq<Slot>, ghost whole: Merge, ghost issues0: seq<Issue>)
      requires ci < |state| && ni <= |req| && (ni == |req| || state[ci].t < req[ni].t)
      requires Progress(SetKind, state, issues, source, req, ci, ni, byPointer, whole, issues0)
      modifies this`state, this`issues
      ensures |state| == |old(state)|
      ensures Progress(SetKind, state, issues, source, req, ci + 1, ni, byPointer, whole, issues0)
    {
      var cur := state[ci];
      UnfoldReset(state, req, ci, ni, byPointer);
      var x := if cur.trans.Some? then Slot(cur.t, None) else cur;
      var hi := if cur.trans.Some? then [ResetInitial(cur.t)] else [];
      Advance(SetKind, state, issues, source, req, ci, ni, state[ci := x], ci + 1, ni, [x], hi, [], byPointer, whole, issues0);
      assert source + [] == source;
      issues := issues + hi;
      state := state[ci := x];
    }

    // -------------------------------------------------------------------------
    // Single attributes
    // -------------------------------------------------------------------------

    /**
     * clear_attribute: find the type by lower_bound; if it is there and set,
     * issue its initial value and NULL it.  Nothing else changes.
     */
    method ClearAttribute(t: nat)
      requires Valid()
      modifies this`state, this`issues
      ensures Valid() && |state| == |old(state)|
      ensures forall u :: u != t ==> Lookup(state, u) == Lookup(old(state), u)
      ensures Lookup(state, t) == if Lookup(old(state), t).Some? then Some(None) else None
      ensures issues == old(issues) +
        if Lookup(old(state), t).Some? && Lookup(old(state), t).value.Some? then [ResetInitial(t)] else []
    {
      var i := LowerBound(state, t);
      LowerBoundLookup(state, t);
      if i < |state| && state[i].t == t {
        if state[i].trans.Some? {
          ghost var s0 := state;
          issues := issues + [ResetInitial(t)];
          state := state[i := Slot(t, None)];
          forall u
            ensures Lookup(state, u) == if u == t then Some(None) else Lookup(s0, u)
          {
            LookupUpdate(s0, i, Slot(t, None), u);
          }
          LookupUpdate(s0, i, Slot(t, None), t);
        }
      }
    }

    /** get_attribute: the transition set for the type, NULL when it has none. */
    function GetAttribute(t: nat): (r: Option<Trans>)
      requires Valid()
      reads this
      ensures Lookup(state, t).None? ==> r.None?
      ensures Lookup(state, t).Some? ==> r == Lookup(state, t).value
    {
      LowerBoundLookup(state, t);
      var i := LowerBound(state, t);
      if i < |state| && state[i].t == t then state[i].trans else None
    }

    // -------------------------------------------------------------------------
    // Frame buffers and colour
    // -------------------------------------------------------------------------

    /** enable_frame_clear: clear the back buffer iff asked to clear colour, the depth buffer iff asked to clear depth. */
    method EnableFrameClear(clearColor: bool, clearDepth: bool)
      modifies this`clearBufferType
      ensures clearBufferType <= {TBack, TDepth}
      ensures TBack in clearBufferType <==> clearColor
      ensures TDepth in clearBufferType <==> clearDepth
    {
      clearBufferType := {};
      if clearColor {
        clearBufferType := clearBufferType + {TBack};
      }
      if clearDepth {
        clearBufferType := clearBufferType + {TDepth};
      }
    }

    /** get_render_buffer: the requested buffers the window actually has. */
    function GetRenderBuffer(bufferType: set<BufferBit>): (r: set<BufferBit>)
      reads this
      ensures r <= bufferType && r <= bufferMask
      ensures forall b :: b in bufferType && b in bufferMask ==> b in r
    {
      bufferType * bufferMask
    }

    /**
     * issue_color: a flat colour overrides vertex colours and marks the issued
     * colour stale; off disables both; vertex reveals vertex colours only.
     */
    method IssueColor(colorType: ColorType, color: int)
      modifies this`sceneGraphColor, this`hasSceneGraphColor, this`vertexColorsEnabled, this`issuedColorStale
      ensures colorType.TFlat? ==>
        sceneGraphColor == color && hasSceneGraphColor && !vertexColorsEnabled && issuedColorStale
      ensures colorType.TOff? ==>
        sceneGraphColor == old(sceneGraphColor) && !hasSceneGraphColor && !vertexColorsEnabled && !issuedColorStale
      ensures colorType.TVertex? ==>
        sceneGraphColor == old(sceneGraphColor) && !hasSceneGraphColor && vertexColorsEnabled && !issuedColorStale
    {
      match colorType
      case TFlat =>
        sceneGraphColor := color;
        hasSceneGraphColor := true;
        vertexColorsEnabled := false;
        issuedColorStale := true;
      case TOff =>
        hasSceneGraphColor := false;
        issuedColorStale := false;
        vertexColorsEnabled := false;
      case TVertex =>
        hasSceneGraphColor := false;
        issuedColorStale := false;
        vertexColorsEnabled := true;
    }

    // -------------------------------------------------------------------------
    // Prepared contexts
    // -------------------------------------------------------------------------

    method MarkPreparedTexture(tc: nat) returns (prepared: bool)
      modifies this`preparedTextures
      ensures preparedTextures == old(preparedTextures) + {tc}
      ensures prepared <==> tc !in old(preparedTextures)
    {
      prepared, preparedTextures := Insert(preparedTextures, tc).0, Insert(preparedTextures, tc).1;
    }

    method UnmarkPreparedTexture(tc: nat) returns (removed: bool)
      modifies this`preparedTextures
      ensures preparedTextures == old(preparedTextures) - {tc}
      ensures removed <==> tc in old(preparedTextures)
    {
      removed, preparedTextures := Erase(preparedTextures, tc).0, Erase(preparedTextures, tc).1;
    }

    method MarkPreparedGeom(gc: nat) returns (prepared: bool)
      modifies this`preparedGeoms
      ensures preparedGeoms == old(preparedGeoms) + {gc}
      ensures prepared <==> gc !in old(preparedGeoms)
    {
      prepared, preparedGeoms := Insert(preparedGeoms, gc).0, Insert(preparedGeoms, gc).1;
    }

    method UnmarkPreparedGeom(gc: nat) returns (removed: bool)
      modifies this`preparedGeoms
      ensures preparedGeoms == old(preparedGeoms) - {gc}
      ensures removed <==> gc in old(preparedGeoms)
    {
      removed, preparedGeoms := Erase(preparedGeoms, gc).0, Erase(preparedGeoms, gc).1;
    }

    method MarkPreparedGeomNode(gnc: nat) returns (prepared: bool)
      modifies this`preparedGeomNodes
      ensures preparedGeomNodes == old(preparedGeomNodes) + {gnc}
      ensures prepared <==> gnc !in old(preparedGeomNodes)
    {
      prepared, preparedGeomNodes := Insert(preparedGeomNodes, gnc).0, Insert(preparedGeomNodes, gnc).1;
    }

    method UnmarkPreparedGeomNode(gnc: nat) returns (removed: bool)
      modifies this`preparedGeomNodes
      ensures preparedGeomNodes == old(preparedGeomNodes) - {gnc}
      ensures removed <==> gnc in old(preparedGeomNodes)
    {
      removed, preparedGeomNodes := Erase(preparedGeomNodes, gnc).0, Erase(preparedGeomNodes, gnc).1;
    }
  }
}
