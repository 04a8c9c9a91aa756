/**
 * DoInterestManager: the client's table of open interests by handle, the table
 * of completion holds, the rolling handle and scope counters, and the add and
 * remove requests it sends.  Each interest runs the machines of InterestFsm;
 * sent datagrams go to an outbox.
 */
module InterestManagerModel {
  import opened Wrappers
  import opened InterestMessages
  import opened InterestFsm

  /** Handles are 15-bit: the high bit of the 16-bit field is reserved for server interests. */
  const HANDLE_MASK: nat := 0x7FFF
  /** Scope ids are kept to 30 bits. */
  const SCOPE_ID_MASK: nat := 0x3FFFFFFF
  /** The scope counter's first value. */
  const FIRST_SCOPE_SERIAL: nat := 100

  /** `x & HANDLE_MASK`: the mask is 2^15 - 1, so the bitwise and is the remainder by 2^15. */
  function MaskHandle(x: nat): (r: nat)
    ensures r <= HANDLE_MASK
    ensures x <= HANDLE_MASK ==> r == x
  {
    x % (HANDLE_MASK + 1)
  }

  /** `x & SCOPE_ID_MASK`, likewise the remainder by 2^30. */
  function MaskScope(x: nat): (r: nat)
    ensures r <= SCOPE_ID_MASK
    ensures x <= SCOPE_ID_MASK ==> r == x
  {
    x % (SCOPE_ID_MASK + 1)
  }

  /** The k-th handle tried after `serial`. */
  function Candidate(serial: nat, k: nat): (h: nat)
    ensures h <= HANDLE_MASK
  {
    MaskHandle(serial + k)
  }

  /** Masking the previous candidate and then adding one is the same as masking the running sum. */
  lemma MaskHandleStep(serial: nat, k: nat)
    ensures MaskHandle(Candidate(serial, k) + 1) == Candidate(serial, k + 1)
  {
  }

  /** The candidates serial+1, serial+2, ... reach every handle within one full turn. */
  lemma EveryHandleReached(serial: nat, f: nat) returns (k: nat)
    requires f <= HANDLE_MASK
    ensures 1 <= k <= HANDLE_MASK + 1 && Candidate(serial, k) == f
  {
    var m := HANDLE_MASK + 1;
    var q := serial / m;
    var rem := serial % m;
    if f > rem {
      k := f - rem;
      assert serial + k == q * m + f;
    } else {
      k := m - rem + f;
      assert serial + k == (q + 1) * m + f;
    }
  }

  /**
   * Every open handle names an object that carries that handle, and object ids
   * below `nextObj` are the only ones used.
   */
  ghost predicate Registered(interests: map<nat, ObjId>, objects: map<ObjId, Interest>, nextObj: ObjId)
  {
    (forall h :: h in interests ==> interests[h] in objects && objects[interests[h]].handle == h) &&
    (forall o :: o in objects ==> o < nextObj)
  }

  /** Constructing object `nextObj` (and registering it when it opens) keeps the registry consistent. */
  lemma ConstructRegistered(interests: map<nat, ObjId>, h: Heap, nextObj: ObjId, handle: nat, description: string,
                            scopeId: nat, event: Option<string>, parent: Option<ObjId>)
    requires Registered(interests, h.objects, nextObj) && handle !in interests
    ensures nextObj !in h.objects
    ensures var r := Construct(h, nextObj, handle, description, scopeId, event, parent);
      Registered(interests, r.heap.objects, nextObj + 1) &&
      Registered(interests[handle := nextObj], r.heap.objects, nextObj + 1)
  {
    var r := Construct(h, nextObj, handle, description, scopeId, event, parent);
    RegisteredAfterAdding(interests, h.objects, r.heap.objects, nextObj, handle);
  }

  /**
   * A new object `nextObj` carrying `handle`, with every other object keeping its
   * handle, keeps the registry consistent with or without the new handle.
   */
  lemma RegisteredAfterAdding(interests: map<nat, ObjId>, before: map<ObjId, Interest>, after: map<ObjId, Interest>,
                              nextObj: ObjId, handle: nat)
    requires Registered(interests, before, nextObj) && handle !in interests
    requires after.Keys == before.Keys + {nextObj} && after[nextObj].handle == handle
    requires forall q :: q in before ==> after[q].handle == before[q].handle
    ensures Registered(interests, after, nextObj + 1) && Registered(interests[handle := nextObj], after, nextObj + 1)
  {
    forall k | k in interests
      ensures interests[k] in after && after[interests[k]].handle == k
    {
    }
  }

  class DoInterestManager {
    /** Every Interest object made so far, and the messenger's event log. */
    var heap: Heap
    /** _interests: open interests by handle. */
    var interests: map<nat, ObjId>
    /** _interestCompleteHolds: the handle each hold id holds up. */
    var holds: map<nat, nat>
    /** The last handle given out (a class-level counter in the source). */
    var handleSerial: nat
    /** The last scope id given out (a class-level counter in the source). */
    var scopeSerial: nat
    /** The next hold id (the class-level SerialNum). */
    var holdSerial: nat
    /** The id the next Interest object gets. */
    var nextObj: ObjId
    /** Datagrams sent, oldest first. */
    var outbox: seq<seq<Field>>

    ghost predicate Valid()
      reads this
    {
      Registered(interests, heap.objects, nextObj) && (forall id :: id in holds ==> id < holdSerial)
    }

    constructor ()
      ensures Valid()
      ensures heap == Heap(map[], []) && interests == map[] && holds == map[] && outbox == []
      ensures handleSerial == 0 && scopeSerial == FIRST_SCOPE_SERIAL && holdSerial == 0
    {
      heap := Heap(map[], []);
      interests := map[];
      holds := map[];
      handleSerial := 0;
      scopeSerial := FIRST_SCOPE_SERIAL;
      holdSerial := 0;
      nextObj := 0;
      outbox := [];
    }

    /**
     * _getNextHandle: the first handle after the last one given out, counting
     * round modulo 2^15, that is not in use.
     */
    method NextHandle() returns (handle: nat)
      requires exists f :: 0 <= f <= HANDLE_MASK && f !in interests
      modifies this
      ensures handle <= HANDLE_MASK && handle !in interests && handleSerial == handle
      ensures exists k ::
        (1 <= k <= HANDLE_MASK + 1 && handle == Candidate(old(handleSerial), k) &&
         forall j :: 1 <= j < k ==> Candidate(old(handleSerial), j) in interests)
      ensures heap == old(heap) && interests == old(interests) && holds == old(holds) && outbox == old(outbox)
      ensures scopeSerial == old(scopeSerial) && holdSerial == old(holdSerial) && nextObj == old(nextObj)
    {
      ghost var f :| 0 <= f <= HANDLE_MASK && f !in interests;
      ghost var serial := handleSerial;
      ghost var last := EveryHandleReached(serial, f);
      handle := MaskHandle(handleSerial + 1);
      ghost var k := 1;
      while handle in interests
        invariant unchanged(this)
        invariant 1 <= k <= last
        invariant handle == Candidate(serial, k)
        invariant forall j :: 1 <= j < k ==> Candidate(serial, j) in interests
        decreases last - k
      {
        MaskHandleStep(serial, k);
        handle := MaskHandle(handle + 1);
        k := k + 1;
      }
      handleSerial := handle;
    }

    /** _getNextScopeId: the last scope id plus one, modulo 2^30, skipping NO_SCOPE. */
    method NextScopeId() returns (scopeId: nat)
      modifies this
      ensures scopeId != NO_SCOPE && scopeId <= SCOPE_ID_MASK && scopeSerial == scopeId
      ensures MaskScope(old(scopeSerial) + 1) != NO_SCOPE ==> scopeId == MaskScope(old(scopeSerial) + 1)
      ensures MaskScope(old(scopeSerial) + 1) == NO_SCOPE ==> scopeId == 1
      ensures heap == old(heap) && interests == old(interests) && holds == old(holds) && outbox == old(outbox)
      ensures handleSerial == old(handleSerial) && holdSerial == old(holdSerial) && nextObj == old(nextObj)
    {
      scopeId := MaskScope(scopeSerial + 1);
      while scopeId == NO_SCOPE
        invariant scopeId == MaskScope(old(scopeSerial) + 1) || (MaskScope(old(scopeSerial) + 1) == NO_SCOPE && scopeId == 1)
        decreases if scopeId == NO_SCOPE then 1 else 0
      {
        scopeId := MaskScope(scopeId + 1);
      }
      scopeSerial := scopeId;
    }

    /** The scope a request uses: a fresh one when there is an event to send, NO_SCOPE otherwise. */
    method RequestScope(event: Option<string>) returns (scopeId: nat)
      modifies this
      ensures event.None? ==> scopeId == NO_SCOPE && scopeSerial == old(scopeSerial)
      ensures event.Some? ==>
        (scopeId != NO_SCOPE && scopeSerial == scopeId &&
         (MaskScope(old(scopeSerial) + 1) != NO_SCOPE ==> scopeId == MaskScope(old(scopeSerial) + 1)))
      ensures heap == old(heap) && interests == old(interests) && holds == old(holds) && outbox == old(outbox)
      ensures handleSerial == old(handleSerial) && holdSerial == old(holdSerial) && nextObj == old(nextObj)
    {
      scopeId := NO_SCOPE;
      if event.Some? {
        scopeId := NextScopeId();
      }
    }

    /** The Interest object a parent handle names, if that handle is open. */
    function ParentObject(parentInterest: Option<nat>): (p: Option<ObjId>)
      reads this
      ensures p.Some? <==> parentInterest.Some? && parentInterest.value in interests
      ensures p.Some? ==> p.value == interests[parentInterest.value]
    {
      if parentInterest.Some? && parentInterest.value in interests then Some(interests[parentInterest.value]) else None
    }

    /**
     * `self._interests[handle] = Interest(...)`: a new Interest object opens with
     * the given configuration and, unless its constructor raises, is registered
     * under `handle`.
     */
    method OpenInterest(handle: nat, description: string, scopeId: nat, event: Option<string>, parent: Option<ObjId>)
      returns (status: Status)
      requires Valid() && handle !in interests
      modifies this
      ensures Valid()
      ensures status == Raised(NoChildrenAttribute) <==>
        parent.Some? && (parent.value !in old(heap.objects) || ChildrenOf(old(heap.objects[parent.value]).phase).None?)
      ensures status.Raised? ==> status == Raised(NoChildrenAttribute) || status == Raised(RequestDenied)
      ensures status.Raised? ==> interests == old(interests)
      ensures status.Returned? ==>
        (handle in interests && interests == old(interests)[handle := interests[handle]] &&
         interests[handle] !in old(heap.objects) && heap.objects[interests[handle]].phase.Active? &&
         heap.objects[interests[handle]].phase.completion == OpenCompletion(scopeId))
      ensures old(heap.events) <= heap.events
      ensures holds == old(holds) && outbox == old(outbox)
      ensures handleSerial == old(handleSerial) && scopeSerial == old(scopeSerial) && holdSerial == old(holdSerial)
    {
      var o := nextObj;
      ConstructRegistered(interests, heap, o, handle, description, scopeId, event, parent);
      var r := Construct(heap, o, handle, description, scopeId, event, parent);
      nextObj := nextObj + 1;
      heap := r.heap;
      status := r.status;
      if status.Returned? {
        interests := interests[handle := o];
      }
    }

    /**
     * addInterest: a fresh handle, a scope when there is an event, a new Interest
     * opened under the parent interest (if its handle is open), registered, and
     * the add request sent.  A fault while opening leaves the handle unused; parent
     * id 0 raises after registration, without a request.
     */
    method AddInterest(parentId: nat, zones: ZoneSpec, description: string, event: Option<string>,
                       parentInterest: Option<nat>) returns (handle: nat, status: Status)
      requires Valid()
      requires exists f :: 0 <= f <= HANDLE_MASK && f !in interests
      modifies this
      ensures Valid()
      ensures handle <= HANDLE_MASK && handle !in old(interests) && handleSerial == handle
      ensures event.None? ==> scopeSerial == old(scopeSerial)
      ensures event.Some? ==> scopeSerial != NO_SCOPE
      ensures status == Raised(NoChildrenAttribute) <==>
        parentInterest.Some? && parentInterest.value in old(interests) &&
        ChildrenOf(old(heap.objects[interests[parentInterest.value]]).phase).None?
      ensures status.Raised? && status != Raised(InvalidParentId) ==>
        interests == old(interests) && outbox == old(outbox)
      ensures status.Returned? || status == Raised(InvalidParentId) ==>
        (handle in interests && interests == old(interests)[handle := interests[handle]] &&
         interests[handle] !in old(heap.objects) && heap.objects[interests[handle]].phase.Active? &&
         heap.objects[interests[handle]].phase.completion == OpenCompletion(if event.Some? then scopeSerial else NO_SCOPE))
      ensures status == Raised(InvalidParentId) ==> parentId == 0 && outbox == old(outbox)
      ensures status.Returned? ==>
        (parentId != 0 &&
         outbox == old(outbox) + [AddInterestMessage(handle, if event.Some? then scopeSerial else NO_SCOPE, parentId, zones).value])
      ensures old(heap.events) <= heap.events && holds == old(holds)
    {
      handle := NextHandle();
      var scopeId := RequestScope(event);
      status := OpenInterest(handle, description, scopeId, event, ParentObject(parentInterest));
      if status.Raised? {
        return;
      }
      var msg := AddInterestMessage(handle, scopeId, parentId, zones);
      if msg.Err? {
        status := Raised(InvalidParentId);
        return;
      }
      outbox := outbox + [msg.value];
      status := Returned;
    }

    /**
     * alterInterest: an open handle is re-opened with the new configuration
     * (exitActive then enterActive) and a new add request is sent; an unknown
     * handle only gives False.
     */
    method AlterInterest(handle: nat, parentId: nat, zones: ZoneSpec, description: Option<string>,
                         event: Option<string>, parentInterest: Option<nat>) returns (known: bool, status: Status)
      requires Valid()
      modifies this
      ensures Valid()
      ensures known <==> handle in old(interests)
      ensures !known ==> status.Returned? && heap == old(heap) && outbox == old(outbox) && scopeSerial == old(scopeSerial)
      ensures interests == old(interests) && holds == old(holds) && handleSerial == old(handleSerial)
      ensures known && (old(heap.objects[interests[handle]]).phase.Closing? || old(heap.objects[interests[handle]]).phase.Broken?) ==>
        status == Raised(RequestDenied) && heap == old(heap) && outbox == old(outbox)
      ensures known && !old(heap.objects[interests[handle]]).phase.Closing? && status.Raised? && status != Raised(InvalidParentId) ==>
        heap.objects[interests[handle]].phase.Broken? && outbox == old(outbox)
      ensures known && status.Returned? ==>
        parentId != 0 && heap.objects[interests[handle]].phase.Active? &&
        heap.objects[interests[handle]].phase.completion == OpenCompletion(if event.Some? then scopeSerial else NO_SCOPE) &&
        outbox == old(outbox) + [AddInterestMessage(handle, if event.Some? then scopeSerial else NO_SCOPE, parentId, zones).value]
      ensures old(heap.events) <= heap.events
    {
      if handle !in interests {
        known, status := false, Returned;
        return;
      }
      known := true;
      var o := interests[handle];
      var scopeId := RequestScope(event);
      var parent := ParentObject(parentInterest);
      var r := InterestChange(heap, o, scopeId, event, parent, description);
      heap := r.heap;
      if r.status.Raised? {
        status := r.status;
        return;
      }
      var msg := AddInterestMessage(handle, scopeId, parentId, zones);
      if msg.Err? {
        status := Raised(InvalidParentId);
        return;
      }
      outbox := outbox + [msg.value];
      status := Returned;
    }

    /** _handleInterestDone: the done callback drops the handle. */
    method HandleInterestDone(handle: nat) returns (status: Status)
      modifies this
      ensures status.Returned? <==> handle in old(interests)
      ensures interests == old(interests) - {handle}
      ensures heap == old(heap) && holds == old(holds) && outbox == old(outbox) && nextObj == old(nextObj)
      ensures handleSerial == old(handleSerial) && scopeSerial == old(scopeSerial) && holdSerial == old(holdSerial)
    {
      if handle !in interests {
        status := Raised(UnknownHandle);
        return;
      }
      interests := interests - {handle};
      status := Returned;
    }

    /**
     * removeInterest: an open interest is asked to close and the remove request
     * is sent.  Without an event it closes at once and its handle is dropped;
     * with one it waits in Closing for the ack of the new scope.  An unknown
     * handle only gives False.
     */
    method RemoveInterest(handle: nat, event: Option<string>) returns (existed: bool, status: Status)
      requires Valid()
      modifies this
      ensures Valid()
      ensures existed <==> handle in old(interests)
      ensures !existed ==> status.Returned? && heap == old(heap) && outbox == old(outbox) && interests == old(interests)
      ensures existed && !old(heap.objects[interests[handle]]).phase.Active? ==>
        status == Raised(RequestDenied) && interests == old(interests) && outbox == old(outbox)
      ensures existed && old(heap.objects[interests[handle]]).phase.Active? && status.Raised? ==>
        interests == old(interests) && outbox == old(outbox) && heap.objects[interests[handle]].phase.Broken?
      ensures existed && status.Returned? && event.None? ==> interests == old(interests) - {handle}
      ensures existed && status.Returned? && event.Some? ==>
        interests == old(interests) && heap.objects[interests[handle]].phase.Closing? &&
        heap.objects[interests[handle]].phase.ackScope == scopeSerial
      ensures existed && status.Returned? ==>
        outbox == old(outbox) + [RemoveInterestMessage(handle, if event.Some? then scopeSerial else NO_SCOPE)]
      ensures heap.events == old(heap.events) && holds == old(holds) && handleSerial == old(handleSerial)
    {
      if handle !in interests {
        existed, status := false, Returned;
        return;
      }
      existed := true;
      var o := interests[handle];
      var scopeId := RequestScope(event);
      var r := InterestRemove(heap, o, scopeId, event);
      heap := r.heap;
      if r.status.Raised? {
        status := r.status;
        return;
      }
      if heap.objects[o].phase.Off? {
        var done := HandleInterestDone(heap.objects[o].handle);
      }
      outbox := outbox + [RemoveInterestMessage(handle, scopeId)];
      status := Returned;
    }

    /**
     * handleInterestDoneMessage: the server's ack for (handle, scope) goes to the
     * interest; an ack that closes a Closing interest drops its handle.
     */
    method HandleInterestDoneMessage(handle: nat, scopeId: nat) returns (status: Status)
      requires Valid()
      modifies this
      ensures Valid()
      ensures handle !in old(interests) ==> status == Raised(UnknownHandle) && heap == old(heap) && interests == old(interests)
      ensures handle in old(interests) ==>
        var x := old(heap.objects[interests[handle]]);
        (!x.phase.HasMachine() ==> status == Raised(NoCompleteState) && heap == old(heap) && interests == old(interests)) &&
        (x.phase.HasMachine() && scopeId != x.phase.ackScope ==>
           status.Returned? && heap == old(heap) && interests == old(interests)) &&
        (x.phase.Closing? && scopeId == x.phase.ackScope && status.Returned? ==>
           interests == old(interests) - {handle}) &&
        (x.phase.Closing? && scopeId == x.phase.ackScope && status.Returned? && x.phase.event.Some? ==>
           |heap.events| > |old(heap.events)| && heap.events[|old(heap.events)|] == x.phase.event.value)
      ensures handle in old(interests) && old(heap.objects[interests[handle]]).phase.Active? ==> interests == old(interests)
      ensures old(heap.events) <= heap.events
      ensures outbox == old(outbox) && holds == old(holds) && handleSerial == old(handleSerial) && scopeSerial == old(scopeSerial)
    {
      if handle !in interests {
        status := Raised(UnknownHandle);
        return;
      }
      var o := interests[handle];
      var wasClosing := heap.objects[o].phase.Closing?;
      var r := InterestComplete(heap, o, scopeId);
      heap := r.heap;
      status := r.status;
      if wasClosing && status.Returned? && heap.objects[o].phase.Off? {
        var done := HandleInterestDone(heap.objects[o].handle);
      }
    }

    /**
     * addInterestHold as written: the hold id is drawn, then Interest.addHold is
     * called with an argument it does not take, so the call always raises and no
     * hold is recorded.
     */
    method AddInterestHoldAsWritten(handle: nat) returns (holdId: nat, status: Status)
      requires Valid()
      modifies this
      ensures Valid()
      ensures holdId == old(holdSerial) && holdSerial == holdId + 1
      ensures handle !in old(interests) ==> status == Raised(UnknownHandle)
      ensures handle in old(interests) ==> status == Raised(TypeError)
      ensures heap == old(heap) && holds == old(holds) && interests == old(interests) && outbox == old(outbox)
    {
      holdId := holdSerial;
      holdSerial := holdSerial + 1;
      if handle !in interests {
        status := Raised(UnknownHandle);
      } else {
        status := Raised(TypeError);
      }
    }

    /**
     * addInterestHold as intended: a fresh hold id holds up the completion of an
     * Active interest and is recorded against its handle.
     */
    method AddInterestHold(handle: nat) returns (holdId: nat, status: Status)
      requires Valid()
      modifies this
      ensures Valid()
      ensures holdId == old(holdSerial) && holdSerial == holdId + 1 && holdId !in old(holds)
      ensures status.Returned? <==> handle in old(interests) && old(heap.objects[interests[handle]]).phase.Active?
      ensures interests == old(interests) && outbox == old(outbox) && heap.events == old(heap.events)
      ensures status.Returned? ==>
        (var o := interests[handle];
         holds == old(holds)[holdId := handle] && heap.objects[o].phase.Active? &&
         heap.objects[o].phase.holdCount == old(heap.objects[o]).phase.holdCount + 1)
      ensures status.Raised? ==> holds == old(holds) && heap == old(heap)
    {
      holdId := holdSerial;
      holdSerial := holdSerial + 1;
      if handle !in interests {
        status := Raised(UnknownHandle);
        return;
      }
      var r := AddHold(heap, interests[handle]);
      status := r.status;
      if status.Returned? {
        heap := r.heap;
        holds := holds[holdId := handle];
      }
    }

    /**
     * removeInterestHold: the hold id is forgotten and its interest counts one
     * hold fewer, completing once no hold remains.
     */
    method RemoveInterestHold(holdId: nat) returns (status: Status)
      requires Valid()
      modifies this
      ensures Valid()
      ensures holdId !in old(holds) ==> status == Raised(UnknownHold) && holds == old(holds) && heap == old(heap)
      ensures holds == old(holds) - {holdId}
      ensures interests == old(interests) && outbox == old(outbox) && old(heap.events) <= heap.events
      ensures holdId in old(holds) && old(holds[holdId]) in interests ==>
        var o := interests[old(holds[holdId])];
        old(heap.objects[o]).phase.Active? ==>
          heap.objects[o].phase.Active? && heap.objects[o].phase.holdCount == old(heap.objects[o]).phase.holdCount - 1
    {
      if holdId !in holds {
        status := Raised(UnknownHold);
        return;
      }
      var handle := holds[holdId];
      holds := holds - {holdId};
      if handle !in interests {
        status := Raised(UnknownHandle);
        return;
      }
      var r := RemoveHold(heap, interests[handle]);
      heap := r.heap;
      status := r.status;
    }
  }
}
