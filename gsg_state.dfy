/**
 * The attribute state of a GraphicsStateGuardian, as values: a vector of
 * (type, transition) slots sorted by type, and the two merges that apply a
 * requested state to it.  modify_state leaves types the request does not
 * mention alone; set_state resets them to their initial value.  Each merge
 * also yields the commands it issues and the request as it leaves it (an
 * equal-valued transition in the request is swapped for the current one).
 */
module GsgStateModel {
  import opened Wrappers

  /** A transition: its address, and the value compare_to_ignore_priority compares. */
  datatype Trans = Trans(ptr: nat, value: int)

  /** A slot of the state vector or of a request: a type and a transition, NULL as None. */
  datatype Slot = Slot(t: nat, trans: Option<Trans>)

  /** A command sent to the hardware: a transition issued, or a type reset to its initial value. */
  datatype Issue = Issued(t: nat, trans: Trans) | ResetInitial(t: nat)

  /** The outcome of a merge: the new state vector, the commands issued, the request as left. */
  datatype Merge = Merge(state: seq<Slot>, issues: seq<Issue>, source: seq<Slot>)

  /** Slots in strictly increasing type order. */
  ghost predicate Sorted(s: seq<Slot>)
  {
    forall i, j :: 0 <= i < j < |s| ==> s[i].t < s[j].t
  }

  /** The types a sequence of slots mentions. */
  function Types(s: seq<Slot>): set<nat>
  {
    set i | 0 <= i < |s| :: s[i].t
  }

  /** The slot of type t: None when the type has no slot, Some(trans) otherwise. */
  function Lookup(s: seq<Slot>, t: nat): Option<Option<Trans>>
  {
    if s == [] then None
    else if s[0].t == t then Some(s[0].trans)
    else Lookup(s[1..], t)
  }

  /**
   * Whether a requested transition leaves the current one in place: the same
   * pointer, or, unless states are compared by pointer, an equal value.
   */
  predicate Keeps(cur: Trans, req: Trans, byPointer: bool)
  {
    req == cur || (!byPointer && req.value == cur.value)
  }

  /** The transition a type ends with when the request sets it. */
  function Chosen(cur: Option<Option<Trans>>, req: Trans, byPointer: bool): Trans
  {
    if cur.Some? && cur.value.Some? && Keeps(cur.value.value, req, byPointer) then cur.value.value else req
  }

  /** Whether setting a type to req issues it. */
  predicate Reissues(cur: Option<Option<Trans>>, req: Trans, byPointer: bool)
  {
    !(cur.Some? && cur.value.Some? && Keeps(cur.value.value, req, byPointer))
  }

  /** A type's slot after modify_state, from its slot before and its slot in the request. */
  function ModifiedSlot(cur: Option<Option<Trans>>, req: Option<Option<Trans>>, byPointer: bool): Option<Option<Trans>>
  {
    if req.Some? && req.value.Some? then Some(Some(Chosen(cur, req.value.value, byPointer))) else cur
  }

  /** A type's slot after set_state: a set type not set by the request is NULL. */
  function SetSlot(cur: Option<Option<Trans>>, req: Option<Option<Trans>>, byPointer: bool): Option<Option<Trans>>
  {
    if req.Some? && req.value.Some? then Some(Some(Chosen(cur, req.value.value, byPointer)))
    else if cur.Some? then Some(None)
    else None
  }

  /** modify_state's merge of the current state cur with the request req. */
  function ModifyMerge(cur: seq<Slot>, req: seq<Slot>, byPointer: bool): Merge
    decreases |cur| + |req|
  {
    if req == [] then Merge(cur, [], [])
    else if cur == [] || req[0].t < cur[0].t then
      var r := ModifyMerge(cur, req[1..], byPointer);
      if req[0].trans.Some? then
        Merge([req[0]] + r.state, [Issued(req[0].t, req[0].trans.value)] + r.issues, [req[0]] + r.source)
      else Merge(r.state, r.issues, [req[0]] + r.source)
    else if cur[0].t < req[0].t then
      var r := ModifyMerge(cur[1..], req, byPointer);
      Merge([cur[0]] + r.state, r.issues, r.source)
    else
      var r := ModifyMerge(cur[1..], req[1..], byPointer);
      if req[0].trans.None? then Merge([cur[0]] + r.state, r.issues, [req[0]] + r.source)
      else if Reissues(Some(cur[0].trans), req[0].trans.value, byPointer) then
        Merge([req[0]] + r.state, [Issued(req[0].t, req[0].trans.value)] + r.issues, [req[0]] + r.source)
      else Merge([cur[0]] + r.state, r.issues, [cur[0]] + r.source)
  }

  /** set_state's merge: like modify_state, but set types the request leaves out or NULLs are reset. */
  function SetMerge(cur: seq<Slot>, req: seq<Slot>, byPointer: bool): Merge
    decreases |cur| + |req|
  {
    if req == [] && cur == [] then Merge([], [], [])
    else if req == [] || (cur != [] && cur[0].t < req[0].t) then
      var r := SetMerge(cur[1..], req, byPointer);
      if cur[0].trans.Some? then
        Merge([Slot(cur[0].t, None)] + r.state, [ResetInitial(cur[0].t)] + r.issues, r.source)
      else Merge([cur[0]] + r.state, r.issues, r.source)
    else if cur == [] || req[0].t < cur[0].t then
      var r := SetMerge(cur, req[1..], byPointer);
      if req[0].trans.Some? then
        Merge([req[0]] + r.state, [Issued(req[0].t, req[0].trans.value)] + r.issues, [req[0]] + r.source)
      else Merge(r.state, r.issues, [req[0]] + r.source)
    else
      var r := SetMerge(cur[1..], req[1..], byPointer);
      if req[0].trans.None? then
        if cur[0].trans.Some? then
          Merge([Slot(cur[0].t, None)] + r.state, [ResetInitial(cur[0].t)] + r.issues, [req[0]] + r.source)
        else Merge([cur[0]] + r.state, r.issues, [req[0]] + r.source)
      else if Reissues(Some(cur[0].trans), req[0].trans.value, byPointer) then
        Merge([req[0]] + r.state, [Issued(req[0].t, req[0].trans.value)] + r.issues, [req[0]] + r.source)
      else Merge([cur[0]] + r.state, r.issues, [cur[0]] + r.source)
  }

  // ---------------------------------------------------------------------------
  // Basic facts about sorted slot sequences
  // ---------------------------------------------------------------------------

  /** A type below the first slot of a sorted sequence has no slot. */
  lemma {:induction false} LookupBelow(s: seq<Slot>, t: nat)
    requires Sorted(s) && (s == [] || t < s[0].t)
    ensures Lookup(s, t).None?
  {
    if |s| > 1 {
      LookupBelow(s[1..], t);
    }
  }

  /** Prepending a slot below every type of a sorted sequence keeps it sorted. */
  lemma ConsSorted(x: Slot, s: seq<Slot>)
    requires Sorted(s) && forall u :: u in Types(s) ==> x.t < u
    ensures Sorted([x] + s)
  {
    forall i, j | 0 <= i < j < |[x] + s|
      ensures ([x] + s)[i].t < ([x] + s)[j].t
    {
      if i == 0 {
        assert s[j - 1].t in Types(s);
      }
    }
  }

  /** The tail of a sorted sequence is sorted and above its head. */
  lemma TailAbove(s: seq<Slot>)
    requires Sorted(s) && s != []
    ensures Sorted(s[1..]) && forall u :: u in Types(s[1..]) ==> s[0].t < u
  {
    forall u | u in Types(s[1..])
      ensures s[0].t < u
    {
      var i :| 0 <= i < |s[1..]| && s[1..][i].t == u;
    }
  }

  /** The types of a slot put in front. */
  lemma TypesCons(x: Slot, s: seq<Slot>)
    ensures Types([x] + s) == {x.t} + Types(s)
  {
    forall u | u in Types([x] + s)
      ensures u in {x.t} + Types(s)
    {
      var i :| 0 <= i < |[x] + s| && ([x] + s)[i].t == u;
      if i > 0 {
        assert s[i - 1].t == u;
      }
    }
    assert ([x] + s)[0].t == x.t;
    forall u | u in Types(s)
      ensures u in Types([x] + s)
    {
      var i :| 0 <= i < |s| && s[i].t == u;
      assert ([x] + s)[i + 1].t == u;
    }
  }

  /** The types of a sequence are those of its head and of its tail. */
  lemma TypesSplit(s: seq<Slot>)
    requires s != []
    ensures Types(s) == {s[0].t} + Types(s[1..])
  {
    assert s == [s[0]] + s[1..];
    TypesCons(s[0], s[1..]);
  }

  // ---------------------------------------------------------------------------
  // modify_state
  // ---------------------------------------------------------------------------

  /** modify_state's new vector mentions only types of the old vector or of the request. */
  lemma {:induction false} ModifyTypes(cur: seq<Slot>, req: seq<Slot>, byPointer: bool)
    decreases |cur| + |req|
    ensures Types(ModifyMerge(cur, req, byPointer).state) <= Types(cur) + Types(req)
  {
    var m := ModifyMerge(cur, req, byPointer);
    if req == [] {
    } else if cur == [] || req[0].t < cur[0].t {
      ModifyTypes(cur, req[1..], byPointer);
      TypesSplit(req);
      var r := ModifyMerge(cur, req[1..], byPointer);
      TypesCons(req[0], r.state);
    } else if cur[0].t < req[0].t {
      ModifyTypes(cur[1..], req, byPointer);
      TypesSplit(cur);
      TypesCons(cur[0], ModifyMerge(cur[1..], req, byPointer).state);
    } else {
      ModifyTypes(cur[1..], req[1..], byPointer);
      TypesSplit(cur);
      TypesSplit(req);
      var r := ModifyMerge(cur[1..], req[1..], byPointer);
      TypesCons(cur[0], r.state);
      TypesCons(req[0], r.state);
    }
  }

  /** modify_state keeps the vector sorted by type, so lower_bound lookups stay correct. */
  lemma {:induction false} ModifySorted(cur: seq<Slot>, req: seq<Slot>, byPointer: bool)
    requires Sorted(cur) && Sorted(req)
    decreases |cur| + |req|
    ensures Sorted(ModifyMerge(cur, req, byPointer).state)
  {
    if req == [] {
    } else if cur == [] || req[0].t < cur[0].t {
      TailAbove(req);
      ModifySorted(cur, req[1..], byPointer);
      ModifyTypes(cur, req[1..], byPointer);
      if cur != [] {
        TailAbove(cur);
        TypesSplit(cur);
      }
      ConsSorted(req[0], ModifyMerge(cur, req[1..], byPointer).state);
    } else if cur[0].t < req[0].t {
      TailAbove(cur);
      ModifySorted(cur[1..], req, byPointer);
      ModifyTypes(cur[1..], req, byPointer);
      TailAbove(req);
      TypesSplit(req);
      ConsSorted(cur[0], ModifyMerge(cur[1..], req, byPointer).state);
    } else {
      TailAbove(cur);
      TailAbove(req);
      ModifySorted(cur[1..], req[1..], byPointer);
      ModifyTypes(cur[1..], req[1..], byPointer);
      var r := ModifyMerge(cur[1..], req[1..], byPointer);
      ConsSorted(cur[0], r.state);
      ConsSorted(req[0], r.state);
    }
  }

  /**
   * After modify_state a type holds the requested transition (or the current
   * one, when that is kept) if the request sets it; every other type, NULL
   * requests included, keeps its slot or its absence.
   */
  lemma {:induction false} ModifyLookup(cur: seq<Slot>, req: seq<Slot>, byPointer: bool, t: nat)
    requires Sorted(cur) && Sorted(req)
    decreases |cur| + |req|
    ensures Lookup(ModifyMerge(cur, req, byPointer).state, t) == ModifiedSlot(Lookup(cur, t), Lookup(req, t), byPointer)
  {
    if req == [] {
    } else if cur == [] || req[0].t < cur[0].t {
      TailAbove(req);
      ModifyLookup(cur, req[1..], byPointer, t);
      if t == req[0].t {
        LookupBelow(req[1..], t);
        LookupBelow(cur, t);
      }
    } else if cur[0].t < req[0].t {
      TailAbove(cur);
      ModifyLookup(cur[1..], req, byPointer, t);
      if t == cur[0].t {
        LookupBelow(req, t);
      }
    } else {
      TailAbove(cur);
      TailAbove(req);
      ModifyLookup(cur[1..], req[1..], byPointer, t);
      if t == cur[0].t {
        LookupBelow(req[1..], t);
        LookupBelow(cur[1..], t);
      }
    }
  }

  /**
   * modify_state issues a transition exactly for the types the request sets
   * to something the current state does not already keep, and never resets.
   */
  lemma {:induction false} ModifyIssues(cur: seq<Slot>, req: seq<Slot>, byPointer: bool, t: nat, x: Trans)
    requires Sorted(cur) && Sorted(req)
    decreases |cur| + |req|
    ensures ResetInitial(t) !in ModifyMerge(cur, req, byPointer).issues
    ensures Issued(t, x) in ModifyMerge(cur, req, byPointer).issues <==>
      Lookup(req, t) == Some(Some(x)) && Reissues(Lookup(cur, t), x, byPointer)
  {
    if req == [] {
    } else if cur == [] || req[0].t < cur[0].t {
      TailAbove(req);
      ModifyIssues(cur, req[1..], byPointer, t, x);
      if t == req[0].t {
        LookupBelow(req[1..], t);
        LookupBelow(cur, t);
      }
    } else if cur[0].t < req[0].t {
      TailAbove(cur);
      ModifyIssues(cur[1..], req, byPointer, t, x);
      if t == cur[0].t {
        LookupBelow(req, t);
      }
    } else {
      TailAbove(cur);
      TailAbove(req);
      ModifyIssues(cur[1..], req[1..], byPointer, t, x);
      if t == cur[0].t {
        LookupBelow(req[1..], t);
        LookupBelow(cur[1..], t);
      }
    }
  }

  // ---------------------------------------------------------------------------
  // set_state
  // ---------------------------------------------------------------------------

  /** set_state's new vector mentions only types of the old vector or of the request. */
  lemma {:induction false} SetStateTypes(cur: seq<Slot>, req: seq<Slot>, byPointer: bool)
    decreases |cur| + |req|
    ensures Types(SetMerge(cur, req, byPointer).state) <= Types(cur) + Types(req)
  {
    if req == [] && cur == [] {
    } else if req == [] || (cur != [] && cur[0].t < req[0].t) {
      SetStateTypes(cur[1..], req, byPointer);
      TypesSplit(cur);
      var r := SetMerge(cur[1..], req, byPointer);
      TypesCons(cur[0], r.state);
      TypesCons(Slot(cur[0].t, None), r.state);
    } else if cur == [] || req[0].t < cur[0].t {
      SetStateTypes(cur, req[1..], byPointer);
      TypesSplit(req);
      TypesCons(req[0], SetMerge(cur, req[1..], byPointer).state);
    } else {
      SetStateTypes(cur[1..], req[1..], byPointer);
      TypesSplit(cur);
      TypesSplit(req);
      var r := SetMerge(cur[1..], req[1..], byPointer);
      TypesCons(cur[0], r.state);
      TypesCons(req[0], r.state);
      TypesCons(Slot(cur[0].t, None), r.state);
    }
  }

  /** set_state keeps the vector sorted by type. */
  lemma {:induction false} SetStateSorted(cur: seq<Slot>, req: seq<Slot>, byPointer: bool)
    requires Sorted(cur) && Sorted(req)
    decreases |cur| + |req|
    ensures Sorted(SetMerge(cur, req, byPointer).state)
  {
    if req == [] && cur == [] {
    } else if req == [] || (cur != [] && cur[0].t < req[0].t) {
      TailAbove(cur);
      SetStateSorted(cur[1..], req, byPointer);
      SetStateTypes(cur[1..], req, byPointer);
      if req != [] {
        TailAbove(req);
        TypesSplit(req);
      }
      var r := SetMerge(cur[1..], req, byPointer);
      ConsSorted(cur[0], r.state);
      ConsSorted(Slot(cur[0].t, None), r.state);
    } else if cur == [] || req[0].t < cur[0].t {
      TailAbove(req);
      SetStateSorted(cur, req[1..], byPointer);
      SetStateTypes(cur, req[1..], byPointer);
      if cur != [] {
        TailAbove(cur);
        TypesSplit(cur);
      }
      ConsSorted(req[0], SetMerge(cur, req[1..], byPointer).state);
    } else {
      TailAbove(cur);
      TailAbove(req);
      SetStateSorted(cur[1..], req[1..], byPointer);
      SetStateTypes(cur[1..], req[1..], byPointer);
      var r := SetMerge(cur[1..], req[1..], byPointer);
      ConsSorted(cur[0], r.state);
      ConsSorted(req[0], r.state);
      ConsSorted(Slot(cur[0].t, None), r.state);
    }
  }

  /**
   * After set_state a type the request sets holds the requested (or kept)
   * transition; a type the vector had but the request leaves out or NULLs is
   * NULL; any other type stays absent.
   */
  lemma {:induction false} SetStateLookup(cur: seq<Slot>, req: seq<Slot>, byPointer: bool, t: nat)
    requires Sorted(cur) && Sorted(req)
    decreases |cur| + |req|, 1
    ensures Lookup(SetMerge(cur, req, byPointer).state, t) == SetSlot(Lookup(cur, t), Lookup(req, t), byPointer)
  {
    if req == [] && cur == [] {
    } else if req == [] || (cur != [] && cur[0].t < req[0].t) {
      SetStateLookupReset(cur, req, byPointer, t);
    } else {
      SetStateLookupRequest(cur, req, byPointer, t);
    }
  }

  /** SetStateLookup when the first slot of the vector comes before any the request has. */
  lemma {:induction false} SetStateLookupReset(cur: seq<Slot>, req: seq<Slot>, byPointer: bool, t: nat)
    requires Sorted(cur) && Sorted(req)
    requires cur != [] && (req == [] || cur[0].t < req[0].t)
    decreases |cur| + |req|, 0
    ensures Lookup(SetMerge(cur, req, byPointer).state, t) == SetSlot(Lookup(cur, t), Lookup(req, t), byPointer)
  {
    TailAbove(cur);
    SetStateLookup(cur[1..], req, byPointer, t);
    if t == cur[0].t {
      LookupBelow(req, t);
      LookupBelow(cur[1..], t);
    }
  }

  /** SetStateLookup when the request's first slot comes first or matches the vector's. */
  lemma {:induction false} SetStateLookupRequest(cur: seq<Slot>, req: seq<Slot>, byPointer: bool, t: nat)
    requires Sorted(cur) && Sorted(req)
    requires req != [] && (cur == [] || req[0].t <= cur[0].t)
    decreases |cur| + |req|, 0
    ensures Lookup(SetMerge(cur, req, byPointer).state, t) == SetSlot(Lookup(cur, t), Lookup(req, t), byPointer)
  {
    TailAbove(req);
    if cur == [] || req[0].t < cur[0].t {
      SetStateLookup(cur, req[1..], byPointer, t);
      if t == req[0].t {
        LookupBelow(req[1..], t);
        LookupBelow(cur, t);
      }
    } else {
      TailAbove(cur);
      SetStateLookup(cur[1..], req[1..], byPointer, t);
      if t == cur[0].t {
        LookupBelow(req[1..], t);
        LookupBelow(cur[1..], t);
      }
    }
  }

  /**
   * set_state issues transitions as modify_state does, and resets exactly the
   * types that were set and that the request leaves out or NULLs.
   */
  lemma {:induction false} SetStateIssues(cur: seq<Slot>, req: seq<Slot>, byPointer: bool, t: nat, x: Trans)
    requires Sorted(cur) && Sorted(req)
    decreases |cur| + |req|
    ensures Issued(t, x) in SetMerge(cur, req, byPointer).issues <==>
      Lookup(req, t) == Some(Some(x)) && Reissues(Lookup(cur, t), x, byPointer)
    ensures ResetInitial(t) in SetMerge(cur, req, byPointer).issues <==>
      Lookup(cur, t).Some? && Lookup(cur, t).value.Some? && !(Lookup(req, t).Some? && Lookup(req, t).value.Some?)
  {
    if req == [] && cur == [] {
    } else if req == [] || (cur != [] && cur[0].t < req[0].t) {
      TailAbove(cur);
      SetStateIssues(cur[1..], req, byPointer, t, x);
      if t == cur[0].t {
        LookupBelow(req, t);
        LookupBelow(cur[1..], t);
      }
    } else if cur == [] || req[0].t < cur[0].t {
      TailAbove(req);
      SetStateIssues(cur, req[1..], byPointer, t, x);
      if t == req[0].t {
        LookupBelow(req[1..], t);
        LookupBelow(cur, t);
      }
    } else {
      TailAbove(cur);
      TailAbove(req);
      SetStateIssues(cur[1..], req[1..], byPointer, t, x);
      if t == cur[0].t {
        LookupBelow(req[1..], t);
        LookupBelow(cur[1..], t);
      }
    }
  }
}
