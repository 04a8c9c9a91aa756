/**
 * The state machines of one interest: the Interest machine (Off, Active,
 * Closing) and the completion machine it runs while Active (PendingComplete,
 * PendingHold, PendingChildren, Complete), with the completion of a child
 * re-evaluating its parent.  Interests refer to each other by object id; the
 * heap maps every object id to the interest's current fields.
 */
module InterestFsm {
  import opened Wrappers
  import opened InterestMessages

  type ObjId = nat

  /** States of the completion machine of an Active interest (CompleteOff is its 'Off'). */
  datatype Completion = CompleteOff | PendingComplete | PendingHold | PendingChildren | Complete

  /**
   * Where an interest is.  Active carries the interest's scope and event, its
   * children, the completion state, the hold count and the scope the completion
   * machine waits for; Closing carries the scope and event of the removal and
   * the scope its closing machine waits for.  Broken is where an exception out
   * of enterActive or exitActive leaves the interest: the FSM is in its error
   * state, the completion machine is gone, the scope and event last assigned
   * stay, and `kept` is the children set when that attribute still exists.
   */
  datatype Phase =
    | Off
    | Active(scopeId: nat, event: Option<string>, children: set<ObjId>, completion: Completion,
             holdCount: int, ackScope: nat)
    | Closing(scopeId: nat, event: Option<string>, ackScope: nat)
    | Broken(scopeId: nat, event: Option<string>, kept: Option<set<ObjId>>)
  {
    /** The interest runs a completion machine that takes acks. */
    predicate HasMachine()
    {
      Active? || Closing?
    }
  }

  datatype Interest = Interest(handle: nat, description: string, parent: Option<ObjId>, phase: Phase)

  /** What Python raises on the way (assertions are taken as stripped). */
  datatype Fault =
    | RequestDenied       // an FSM request outside the machine's transition table
    | NoChildrenAttribute // addChild/removeChild on a parent that is not Active
    | ChildNotFound       // removeChild of an interest the parent does not list
    | NoCompleteState     // a completion or hold call on an interest that has no such machine
    | UnknownHandle       // a handle missing from the manager's table
    | UnknownHold         // a hold id missing from the manager's table
    | TypeError           // a call with the wrong number of arguments
    | InvalidParentId     // an add request for parent 0

  datatype Status = Returned | Raised(fault: Fault)

  datatype Heap = Heap(objects: map<ObjId, Interest>, events: seq<string>)

  datatype Step = Step(heap: Heap, status: Status)

  /** The active completion machine's transition table. */
  predicate CompletionAllowed(from: Completion, to: Completion)
  {
    match from
    case CompleteOff => to == PendingComplete || to == Complete
    case PendingComplete => true
    case PendingHold => to != PendingHold
    case PendingChildren => to != PendingChildren
    case Complete => to == CompleteOff || to == PendingComplete || to == Complete
  }

  /** Interest's own table: Off to Active, Active to Closing or Active, Closing to Off. */
  predicate InterestAllowed(from: Phase, to: Phase)
  {
    match from
    case Off => to.Active?
    case Active(_, _, _, _, _, _) => to.Active? || to.Closing?
    case Closing(_, _, _) => to.Off?
    case Broken(_, _, _) => false
  }

  /** The `_children` attribute: an Active interest has one, a Broken one may have kept it. */
  function ChildrenOf(ph: Phase): Option<set<ObjId>>
  {
    match ph
    case Active(_, _, children, _, _, _) => Some(children)
    case Broken(_, _, kept) => kept
    case _ => None
  }

  /** The phase with its `_children` attribute replaced. */
  function WithChildren(ph: Phase, cs: set<ObjId>): (r: Phase)
    requires ChildrenOf(ph).Some?
    ensures ChildrenOf(r) == Some(cs) && r.Active? == ph.Active? && r.Broken? == ph.Broken?
    ensures ph.Active? ==> r == ph.(children := cs)
    ensures ph.Broken? ==> r == ph.(kept := Some(cs))
  {
    if ph.Active? then ph.(children := cs) else ph.(kept := Some(cs))
  }

  /** An Active interest whose transition raised: its scope, event and children stay, its machine is gone. */
  function Break(x: Interest): Interest
    requires x.phase.Active?
  {
    x.(phase := Broken(x.phase.scopeId, x.phase.event, Some(x.phase.children)))
  }

  /** The state a freshly opened completion machine enters. */
  function OpenCompletion(scopeId: nat): (c: Completion)
    ensures c == PendingComplete <==> scopeId != NO_SCOPE
    ensures c == Complete <==> scopeId == NO_SCOPE
    ensures CompletionAllowed(CompleteOff, c)
  {
    if scopeId != NO_SCOPE then PendingComplete else Complete
  }

  /** _maybeComplete's choice: waiting children first, then holds, else complete. */
  function CompletionTarget(hasChildren: bool, holdCount: int): (c: Completion)
    ensures c == PendingChildren <==> hasChildren
    ensures c == PendingHold <==> !hasChildren && holdCount > 0
    ensures c == Complete <==> !hasChildren && holdCount <= 0
  {
    if hasChildren then PendingChildren
    else if holdCount > 0 then PendingHold
    else Complete
  }

  /** The Active interests whose completion machine has not completed. */
  ghost function Incomplete(objs: map<ObjId, Interest>): set<ObjId>
  {
    set o | o in objs && objs[o].phase.Active? && objs[o].phase.completion != Complete
  }

  lemma CompletingShrinks(objs: map<ObjId, Interest>, p: ObjId, x: Interest)
    requires p in objs && objs[p].phase.Active? && objs[p].phase.completion != Complete
    requires x.phase.Active? && x.phase.completion == Complete
    ensures |Incomplete(objs[p := x])| < |Incomplete(objs)|
  {
    assert Incomplete(objs[p := x]) == Incomplete(objs) - {p};
  }

  lemma SameProgress(objs: map<ObjId, Interest>, o: ObjId, x: Interest)
    requires o in objs && objs[o].phase.Active? == x.phase.Active?
    requires x.phase.Active? ==> x.phase.completion == objs[o].phase.completion
    ensures Incomplete(objs[o := x]) == Incomplete(objs)
  {
  }

  /** The interest with its complete event consumed: no event, no scope. */
  function ClearEvent(x: Interest): (y: Interest)
    requires !x.phase.Off?
    ensures !y.phase.Off? && y.phase.event == None && y.phase.scopeId == NO_SCOPE
    ensures y.handle == x.handle && y.parent == x.parent && y.description == x.description
  {
    x.(phase := x.phase.(scopeId := NO_SCOPE, event := None))
  }

  /**
   * _sendCompleteEvent: the event, if any, is sent and cleared together with the
   * scope; then an Active parent re-evaluates its completion.
   */
  function SendCompleteEvent(h: Heap, o: ObjId): Step
    requires o in h.objects && h.objects[o].phase.HasMachine()
    decreases |Incomplete(h.objects)|, 1
  {
    var x := h.objects[o];
    var h1 := if x.phase.event.Some? then
      SameProgress(h.objects, o, ClearEvent(x));
      Heap(h.objects[o := ClearEvent(x)], h.events + [x.phase.event.value])
    else h;
    match x.parent
    case Some(p) =>
      if p in h1.objects && h1.objects[p].phase.Active? then MaybeComplete(h1, p) else Step(h1, Returned)
    case None => Step(h1, Returned)
  }

  /**
   * _maybeComplete on an Active interest: move to the target state when it
   * differs (a move outside the table raises); entering Complete sends the
   * complete event.
   */
  function MaybeComplete(h: Heap, p: ObjId): Step
    requires p in h.objects && h.objects[p].phase.Active?
    decreases |Incomplete(h.objects)|, 0
  {
    var x := h.objects[p];
    var target := CompletionTarget(x.phase.children != {}, x.phase.holdCount);
    if target == x.phase.completion then Step(h, Returned)
    else if !CompletionAllowed(x.phase.completion, target) then Step(h, Raised(RequestDenied))
    else
      var y := x.(phase := x.phase.(completion := target));
      if target == Complete then
        CompletingShrinks(h.objects, p, y);
        SendCompleteEvent(Heap(h.objects[p := y], h.events), p)
      else
        Step(Heap(h.objects[p := y], h.events), Returned)
  }

  /** The same interests, each under the handle it had. */
  ghost predicate SameHandles(a: map<ObjId, Interest>, b: map<ObjId, Interest>)
  {
    a.Keys == b.Keys && forall q :: q in a ==> b[q].handle == a[q].handle
  }

  /** Which fields a completion cascade may change: completion (only ever towards Complete), scope and event (only ever cleared). */
  ghost predicate Evolves(a: map<ObjId, Interest>, b: map<ObjId, Interest>)
  {
    a.Keys == b.Keys &&
    forall q :: q in a ==> EvolvesTo(a[q], b[q])
  }

  ghost predicate EvolvesTo(x: Interest, y: Interest)
  {
    y.handle == x.handle && y.description == x.description && y.parent == x.parent &&
    (x.phase.Active? <==> y.phase.Active?) && (x.phase.Closing? <==> y.phase.Closing?) &&
    (!x.phase.HasMachine() ==> y.phase == x.phase) &&
    (x.phase.HasMachine() ==> y.phase.ackScope == x.phase.ackScope) &&
    (!x.phase.Off? ==>
      (y.phase.event == x.phase.event && y.phase.scopeId == x.phase.scopeId) ||
      (y.phase.event.None? && y.phase.scopeId == NO_SCOPE)) &&
    (x.phase.Active? ==> y.phase.children == x.phase.children && y.phase.holdCount == x.phase.holdCount) &&
    (x.phase.Active? && x.phase.completion == Complete ==> y.phase.completion == Complete)
  }

  lemma EvolvesTrans(a: map<ObjId, Interest>, b: map<ObjId, Interest>, c: map<ObjId, Interest>)
    requires Evolves(a, b) && Evolves(b, c)
    ensures Evolves(a, c)
  {
  }

  /** A cascade only completes machines and consumes events; the event log only grows. */
  lemma {:induction false} SendCompleteEventEvolves(h: Heap, o: ObjId)
    requires o in h.objects && h.objects[o].phase.HasMachine()
    ensures var r := SendCompleteEvent(h, o);
      Evolves(h.objects, r.heap.objects) && h.events <= r.heap.events &&
      (r.status.Returned? || r.status == Raised(RequestDenied))
    decreases |Incomplete(h.objects)|, 1
  {
    var x := h.objects[o];
    var h1 := if x.phase.event.Some? then
      Heap(h.objects[o := ClearEvent(x)], h.events + [x.phase.event.value])
    else h;
    if x.phase.event.Some? {
      SameProgress(h.objects, o, ClearEvent(x));
    }
    assert Evolves(h.objects, h1.objects);
    if x.parent.Some? && x.parent.value in h1.objects && h1.objects[x.parent.value].phase.Active? {
      MaybeCompleteEvolves(h1, x.parent.value);
      EvolvesTrans(h.objects, h1.objects, MaybeComplete(h1, x.parent.value).heap.objects);
    }
  }

  lemma {:induction false} MaybeCompleteEvolves(h: Heap, p: ObjId)
    requires p in h.objects && h.objects[p].phase.Active?
    ensures var r := MaybeComplete(h, p);
      Evolves(h.objects, r.heap.objects) && h.events <= r.heap.events &&
      (r.status.Returned? || r.status == Raised(RequestDenied))
    decreases |Incomplete(h.objects)|, 0
  {
    var x := h.objects[p];
    var target := CompletionTarget(x.phase.children != {}, x.phase.holdCount);
    if target != x.phase.completion && CompletionAllowed(x.phase.completion, target) {
      var y := x.(phase := x.phase.(completion := target));
      assert Evolves(h.objects, h.objects[p := y]);
      if target == Complete {
        CompletingShrinks(h.objects, p, y);
        SendCompleteEventEvolves(Heap(h.objects[p := y], h.events), p);
        EvolvesTrans(h.objects, h.objects[p := y], SendCompleteEvent(Heap(h.objects[p := y], h.events), p).heap.objects);
      }
    }
  }

  /**
   * Complete sends the event once: an interest holding an event has it appended
   * to the log, and afterwards holds neither event nor scope.
   */
  lemma SendCompleteEventSendsOnce(h: Heap, o: ObjId)
    requires o in h.objects && h.objects[o].phase.HasMachine() && h.objects[o].phase.event.Some?
    ensures var r := SendCompleteEvent(h, o);
      |r.heap.events| > |h.events| && r.heap.events[|h.events|] == h.objects[o].phase.event.value &&
      o in r.heap.objects && !r.heap.objects[o].phase.Off? &&
      r.heap.objects[o].phase.event == None && r.heap.objects[o].phase.scopeId == NO_SCOPE
  {
    var x := h.objects[o];
    var h1 := Heap(h.objects[o := ClearEvent(x)], h.events + [x.phase.event.value]);
    SameProgress(h.objects, o, ClearEvent(x));
    var r := SendCompleteEvent(h, o);
    if x.parent.Some? && x.parent.value in h1.objects && h1.objects[x.parent.value].phase.Active? {
      MaybeCompleteEvolves(h1, x.parent.value);
    }
    assert h1.events <= r.heap.events;
    assert EvolvesTo(h1.objects[o], r.heap.objects[o]);
  }

  lemma SendsOnceIfEvent(h: Heap, o: ObjId)
    requires o in h.objects && h.objects[o].phase.HasMachine()
    ensures h.objects[o].phase.event.Some? ==> var r := SendCompleteEvent(h, o);
      |r.heap.events| > |h.events| && r.heap.events[|h.events|] == h.objects[o].phase.event.value
  {
    if h.objects[o].phase.event.Some? {
      SendCompleteEventSendsOnce(h, o);
    }
  }

  /**
   * A parent that still lists an interest among its children never completes on
   * re-evaluation: it waits in PendingChildren, or raises when already Complete.
   */
  lemma ListedChildHoldsParent(h: Heap, p: ObjId, c: ObjId)
    requires p in h.objects && h.objects[p].phase.Active? && c in h.objects[p].phase.children
    requires h.objects[p].phase.completion != CompleteOff
    ensures var r := MaybeComplete(h, p);
      r.status.Returned? <==> h.objects[p].phase.completion != Complete
    ensures var r := MaybeComplete(h, p);
      r.status.Returned? ==> r.heap.objects[p].phase.completion == PendingChildren && r.heap.events == h.events
  {
  }

  /**
   * enterActive: the interest takes its new fields, joins its parent's children
   * (a parent without a children set raises, leaving the interest Broken with
   * the fields already assigned), and opens its completion machine; opening
   * straight into Complete sends the complete event, and a raise from that
   * cascade leaves the interest Broken too.
   */
  function EnterActive(h: Heap, o: ObjId, description: string, scopeId: nat, event: Option<string>,
                       parent: Option<ObjId>): (r: Step)
    requires o in h.objects && h.objects[o].phase.Off?
    ensures r.status.Returned? ==>
      (o in r.heap.objects && r.heap.objects[o].phase.Active? &&
       r.heap.objects[o].phase.completion == OpenCompletion(scopeId) &&
       r.heap.objects[o].parent == parent && r.heap.objects[o].description == description &&
       r.heap.objects[o].phase.children == {} && r.heap.objects[o].phase.holdCount == 0 &&
       r.heap.objects[o].phase.ackScope == scopeId)
    ensures r.status.Returned? && parent.Some? ==>
      (parent.value in r.heap.objects && ChildrenOf(r.heap.objects[parent.value].phase).Some? &&
       o in ChildrenOf(r.heap.objects[parent.value].phase).value && parent.value in h.objects &&
       r.heap.objects[parent.value].phase.Active? == h.objects[parent.value].phase.Active?)
    ensures r.status == Raised(NoChildrenAttribute) <==>
      parent.Some? && (parent.value !in h.objects || ChildrenOf(h.objects[parent.value].phase).None?)
    ensures r.status == Raised(NoChildrenAttribute) ==>
      r.heap == Heap(h.objects[o := Interest(h.objects[o].handle, description, parent, Broken(scopeId, event, None))], h.events)
    ensures r.status.Raised? ==>
      (o in r.heap.objects && r.heap.objects[o].phase.Broken? &&
       r.heap.objects[o].parent == parent && r.heap.objects[o].description == description)
    ensures SameHandles(h.objects, r.heap.objects) && h.events <= r.heap.events
  {
    var x := h.objects[o];
    if parent.Some? && (parent.value !in h.objects || ChildrenOf(h.objects[parent.value].phase).None?) then
      Step(Heap(h.objects[o := Interest(x.handle, description, parent, Broken(scopeId, event, None))], h.events),
           Raised(NoChildrenAttribute))
    else
      var objs := if parent.Some? then JoinParent(h.objects, o, parent.value) else h.objects;
      var y := Interest(x.handle, description, parent, Active(scopeId, event, {}, OpenCompletion(scopeId), 0, scopeId));
      BreakOnRaise(OpenMachine(Heap(objs[o := y], h.events), o), o)
  }

  /** The end of enterActive: a raise out of the opening cascade leaves the interest Broken. */
  function BreakOnRaise(s: Step, o: ObjId): (r: Step)
    requires o in s.heap.objects && s.heap.objects[o].phase.Active?
    ensures r.status == s.status && r.heap.events == s.heap.events && SameHandles(s.heap.objects, r.heap.objects)
    ensures s.status.Returned? ==> r == s
    ensures s.status.Raised? ==>
      (o in r.heap.objects && r.heap.objects[o].phase.Broken? &&
       r.heap.objects[o].parent == s.heap.objects[o].parent && r.heap.objects[o].description == s.heap.objects[o].description)
  {
    if s.status.Raised? then Step(Heap(s.heap.objects[o := Break(s.heap.objects[o])], s.heap.events), s.status)
    else s
  }

  /**
   * addChild: `o` joins the children set of `p`, which an Active interest has
   * and a Broken one may have kept; nothing else changes.
   */
  function JoinParent(objs: map<ObjId, Interest>, o: ObjId, p: ObjId): (r: map<ObjId, Interest>)
    requires p in objs && ChildrenOf(objs[p].phase).Some?
    ensures SameHandles(objs, r)
    ensures ChildrenOf(r[p].phase) == Some(ChildrenOf(objs[p].phase).value + {o})
    ensures r[p].phase.Active? == objs[p].phase.Active?
    ensures forall q :: q in objs && q != p ==> r[q] == objs[q]
  {
    var q := objs[p];
    objs[p := q.(phase := WithChildren(q.phase, ChildrenOf(q.phase).value + {o}))]
  }

  /** The event sent on opening does not undo the opening: what the cascade may touch it leaves alone. */
  /**
   * handleInterestOpen: a machine that opens in Complete sends the complete
   * event straight away; one that opens in PendingComplete waits for the ack.
   */
  function OpenMachine(h: Heap, o: ObjId): (r: Step)
    requires o in h.objects && h.objects[o].phase.Active?
    ensures Evolves(h.objects, r.heap.objects) && h.events <= r.heap.events
    ensures r.status.Returned? || r.status == Raised(RequestDenied)
    ensures h.objects[o].phase.completion != Complete ==> r == Step(h, Returned)
  {
    if h.objects[o].phase.completion == Complete then
      SendCompleteEventEvolves(h, o);
      SendCompleteEvent(h, o)
    else Step(h, Returned)
  }

  lemma EvolvesSameHandles(a: map<ObjId, Interest>, b: map<ObjId, Interest>)
    requires Evolves(a, b)
    ensures SameHandles(a, b)
  {
  }

  /**
   * exitActive: the completion machine is dropped and the interest leaves its
   * parent's children; the interest keeps its parent for the Closing state.  A
   * parent without a children set, or one that does not list the interest,
   * raises after the machine is gone: the interest is left Broken with its
   * scope, event and children.
   */
  function ExitActive(objs: map<ObjId, Interest>, o: ObjId): (r: (map<ObjId, Interest>, Status))
    requires o in objs && objs[o].phase.Active?
    ensures r.1.Returned? ==>
      (o in r.0 && r.0[o].phase.Off? && r.0[o].parent == objs[o].parent &&
       r.0[o].handle == objs[o].handle && r.0[o].description == objs[o].description)
    ensures r.1.Returned? && objs[o].parent.Some? && objs[o].parent.value != o ==>
      (var p := objs[o].parent.value;
       p in objs && p in r.0 && ChildrenOf(objs[p].phase).Some? &&
       ChildrenOf(r.0[p].phase) == Some(ChildrenOf(objs[p].phase).value - {o}) &&
       r.0[p].phase.Active? == objs[p].phase.Active?)
    ensures r.1 == Raised(NoChildrenAttribute) <==>
      objs[o].parent.Some? && (objs[o].parent.value !in objs || ChildrenOf(objs[objs[o].parent.value].phase).None?)
    ensures r.1 == Raised(ChildNotFound) <==>
      objs[o].parent.Some? && objs[o].parent.value in objs && ChildrenOf(objs[objs[o].parent.value].phase).Some? &&
      o !in ChildrenOf(objs[objs[o].parent.value].phase).value
    ensures r.1.Raised? ==> r.0 == objs[o := Break(objs[o])]
    ensures r.1 == Raised(ChildNotFound) || r.1 == Raised(NoChildrenAttribute) || r.1.Returned?
    ensures forall q :: q in objs && q != o && Some(q) != objs[o].parent ==> q in r.0 && r.0[q] == objs[q]
    ensures SameHandles(objs, r.0)
  {
    var x := objs[o];
    match x.parent
    case None => (objs[o := x.(phase := Off)], Returned)
    case Some(p) =>
      if p !in objs || ChildrenOf(objs[p].phase).None? then (objs[o := Break(x)], Raised(NoChildrenAttribute))
      else if o !in ChildrenOf(objs[p].phase).value then (objs[o := Break(x)], Raised(ChildNotFound))
      else
        var q := objs[p];
        var objs1 := objs[p := q.(phase := WithChildren(q.phase, ChildrenOf(q.phase).value - {o}))];
        (objs1[o := objs1[o].(phase := Off)], Returned)
  }

  /**
   * handleInterestChange: request Active with the new configuration; from Active
   * this is exitActive then enterActive, from Closing or Broken the request is
   * refused.  A missing description keeps the current one.  A raise on the way
   * leaves the interest Broken.
   */
  function InterestChange(h: Heap, o: ObjId, scopeId: nat, event: Option<string>, parent: Option<ObjId>,
                          description: Option<string>): (r: Step)
    requires o in h.objects
    ensures h.objects[o].phase.Closing? || h.objects[o].phase.Broken? ==> r == Step(h, Raised(RequestDenied))
    ensures r.status.Returned? ==>
      (o in r.heap.objects && r.heap.objects[o].phase.Active? &&
       r.heap.objects[o].phase.completion == OpenCompletion(scopeId) &&
       r.heap.objects[o].phase.ackScope == scopeId)
    ensures r.status.Returned? ==> InterestAllowed(h.objects[o].phase, r.heap.objects[o].phase)
    ensures h.objects[o].phase.Off? ==>
      (r.status == Raised(NoChildrenAttribute) <==>
       parent.Some? && (parent.value !in h.objects || ChildrenOf(h.objects[parent.value].phase).None?))
    ensures h.objects[o].phase.Off? && r.status.Raised? ==>
      r.status == Raised(NoChildrenAttribute) || r.status == Raised(RequestDenied)
    ensures (h.objects[o].phase.Off? || h.objects[o].phase.Active?) && r.status.Raised? ==>
      o in r.heap.objects && r.heap.objects[o].phase.Broken?
    ensures SameHandles(h.objects, r.heap.objects) && h.events <= r.heap.events
  {
    var x := h.objects[o];
    var desc := if description.Some? then description.value else x.description;
    match x.phase
    case Closing(_, _, _) => Step(h, Raised(RequestDenied))
    case Broken(_, _, _) => Step(h, Raised(RequestDenied))
    case Off => EnterActive(h, o, desc, scopeId, event, parent)
    case Active(_, _, _, _, _, _) =>
      var (objs, status) := ExitActive(h.objects, o);
      if status.Raised? then Step(Heap(objs, h.events), status)
      else
        EnterActive(Heap(objs, h.events), o, desc, scopeId, event, parent)
  }

  /**
   * handleInterestRemove: request Closing.  With an event the interest waits in
   * Closing for the acknowledgement of `scopeId`; without one it goes straight on
   * to Off and drops its parent.  Only an Active interest can close; when
   * exitActive raises, the interest is left Broken.
   */
  function InterestRemove(h: Heap, o: ObjId, scopeId: nat, event: Option<string>): (r: Step)
    requires o in h.objects
    ensures !h.objects[o].phase.Active? ==> r == Step(h, Raised(RequestDenied))
    ensures r.heap.events == h.events
    ensures r.status.Returned? ==>
      (o in r.heap.objects && r.heap.objects[o].handle == h.objects[o].handle &&
       (event.None? ==> r.heap.objects[o].phase.Off? && r.heap.objects[o].parent.None?) &&
       (event.Some? ==> r.heap.objects[o].phase == Closing(scopeId, event, scopeId)))
    ensures h.objects[o].phase.Active? && r.status.Raised? ==>
      r.heap.objects == h.objects[o := Break(h.objects[o])] &&
      (r.status == Raised(NoChildrenAttribute) || r.status == Raised(ChildNotFound))
    ensures SameHandles(h.objects, r.heap.objects)
  {
    var x := h.objects[o];
    if !x.phase.Active? then Step(h, Raised(RequestDenied))
    else
      var (objs, status) := ExitActive(h.objects, o);
      if status.Raised? then Step(Heap(objs, h.events), status)
      else if event.Some? then
        Step(Heap(objs[o := objs[o].(phase := Closing(scopeId, event, scopeId))], h.events), Returned)
      else
        Step(Heap(objs[o := objs[o].(parent := None)], h.events), Returned)
  }

  /**
   * handleInterestComplete: an acknowledgement for another scope is ignored.  A
   * matching one re-evaluates an Active interest's completion; for a Closing
   * interest it sends the complete event and then closes it to Off.  An Off or
   * Broken interest has no machine to take it and raises.
   */
  function InterestComplete(h: Heap, o: ObjId, scopeId: nat): (r: Step)
    requires o in h.objects
    ensures !h.objects[o].phase.HasMachine() ==> r == Step(h, Raised(NoCompleteState))
    ensures h.objects[o].phase.HasMachine() && scopeId != h.objects[o].phase.ackScope ==> r == Step(h, Returned)
    ensures h.objects[o].phase.Active? ==> o in r.heap.objects && r.heap.objects[o].phase.Active?
    ensures SameHandles(h.objects, r.heap.objects) && h.events <= r.heap.events
    ensures h.objects[o].phase.Closing? && scopeId == h.objects[o].phase.ackScope && r.status.Returned? ==>
      o in r.heap.objects && r.heap.objects[o].phase.Off? && r.heap.objects[o].parent.None? &&
      r.heap.objects[o].handle == h.objects[o].handle &&
      (h.objects[o].phase.event.Some? ==> |r.heap.events| > |h.events| && r.heap.events[|h.events|] == h.objects[o].phase.event.value)
  {
    var x := h.objects[o];
    match x.phase
    case Off => Step(h, Raised(NoCompleteState))
    case Broken(_, _, _) => Step(h, Raised(NoCompleteState))
    case Active(_, _, _, _, _, ack) =>
      if scopeId != ack then Step(h, Returned)
      else MaybeCompleteEvolves(h, o); MaybeComplete(h, o)
    case Closing(_, ev, ack) =>
      if scopeId != ack then Step(h, Returned)
      else
        var s := SendCompleteEvent(h, o);
        SendCompleteEventEvolves(h, o);
        SendsOnceIfEvent(h, o);
        if s.status.Raised? then s
        else
          var y := s.heap.objects[o];
          Step(Heap(s.heap.objects[o := y.(parent := None, phase := Off)], s.heap.events), Returned)
  }

  /**
   * addHold on the completion machine: an Active interest counts one more hold;
   * an interest in any other state has no completion machine to hold.
   */
  function AddHold(h: Heap, o: ObjId): (r: Step)
    requires o in h.objects
    ensures h.objects[o].phase.Active? <==> r.status.Returned?
    ensures r.status.Returned? ==>
      (r.heap.objects.Keys == h.objects.Keys && r.heap.objects[o].phase.Active? &&
       r.heap.objects[o].phase.holdCount == h.objects[o].phase.holdCount + 1 && r.heap.events == h.events)
    ensures SameHandles(h.objects, r.heap.objects)
  {
    var x := h.objects[o];
    if !x.phase.Active? then Step(h, Raised(NoCompleteState))
    else Step(Heap(h.objects[o := x.(phase := x.phase.(holdCount := x.phase.holdCount + 1))], h.events), Returned)
  }

  /**
   * removeHold: one hold fewer, and once no hold is active the completion is
   * re-evaluated.
   */
  function RemoveHold(h: Heap, o: ObjId): (r: Step)
    requires o in h.objects
    ensures !h.objects[o].phase.Active? <==> r == Step(h, Raised(NoCompleteState))
    ensures h.objects[o].phase.Active? ==>
      (o in r.heap.objects && r.heap.objects[o].phase.Active? &&
       r.heap.objects[o].phase.holdCount == h.objects[o].phase.holdCount - 1)
    ensures h.objects[o].phase.Active? && h.objects[o].phase.holdCount > 1 ==>
      r.heap.events == h.events && r.heap.objects[o].phase.completion == h.objects[o].phase.completion
    ensures SameHandles(h.objects, r.heap.objects) && h.events <= r.heap.events
  {
    var x := h.objects[o];
    if !x.phase.Active? then Step(h, Raised(NoCompleteState))
    else
      var y := x.(phase := x.phase.(holdCount := x.phase.holdCount - 1));
      var h1 := Heap(h.objects[o := y], h.events);
      if y.phase.holdCount > 0 then Step(h1, Returned)
      else
        SameProgress(h.objects, o, y);
        MaybeCompleteEvolves(h1, o);
        MaybeComplete(h1, o)
  }

  /** A hold taken and released leaves the count where it was. */
  lemma HoldRoundTrip(h: Heap, o: ObjId)
    requires o in h.objects && h.objects[o].phase.Active?
    ensures var a := AddHold(h, o);
      a.status.Returned? && RemoveHold(a.heap, o).heap.objects[o].phase.holdCount == h.objects[o].phase.holdCount
  {
  }

  /** A fresh Interest object before its constructor requests Active. */
  function Created(handle: nat, description: string): (x: Interest)
    ensures x.phase.Off? && x.parent.None? && x.handle == handle
  {
    Interest(handle, description, None, Off)
  }

  /**
   * The Interest constructor: a new object `o`, Off with no parent, asked to
   * open with the given configuration.
   */
  function Construct(h: Heap, o: ObjId, handle: nat, description: string, scopeId: nat, event: Option<string>,
                     parent: Option<ObjId>): (r: Step)
    requires o !in h.objects
    ensures r.heap.objects.Keys == h.objects.Keys + {o} && r.heap.objects[o].handle == handle
    ensures forall q :: q in h.objects ==> r.heap.objects[q].handle == h.objects[q].handle
    ensures r.status == Raised(NoChildrenAttribute) <==>
      parent.Some? && (parent.value !in h.objects || ChildrenOf(h.objects[parent.value].phase).None?)
    ensures r.status.Raised? ==> r.status == Raised(NoChildrenAttribute) || r.status == Raised(RequestDenied)
    ensures r.status.Returned? ==>
      r.heap.objects[o].phase.Active? && r.heap.objects[o].phase.completion == OpenCompletion(scopeId)
    ensures h.events <= r.heap.events
  {
    var h0 := Heap(h.objects[o := Created(handle, description)], h.events);
    InterestChange(h0, o, scopeId, event, parent, Some(description))
  }

  /**
   * An interest opened with scope 23 and an event ignores the ack for scope 22,
   * sends its event on the ack for 23 and stays Active; removing it without an
   * event then closes it at once.
   */
  lemma AckThenRemoveScenario()
    ensures var h0 := Heap(map[1 := Created(1122, "test interest")], []);
      var a := InterestChange(h0, 1, 23, Some("doneEvent"), None, Some("test interest"));
      a.status.Returned? && a.heap.objects[1].phase.Active? && a.heap.events == [] &&
      InterestComplete(a.heap, 1, 22) == Step(a.heap, Returned) &&
      var c := InterestComplete(a.heap, 1, 23);
      c.status.Returned? && c.heap.objects[1].phase.Active? && c.heap.events == ["doneEvent"] &&
      var d := InterestRemove(c.heap, 1, NO_SCOPE, None);
      d.status.Returned? && d.heap.objects[1].phase.Off? && d.heap.events == ["doneEvent"]
  {
    var h0 := Heap(map[1 := Created(1122, "test interest")], []);
    var a := InterestChange(h0, 1, 23, Some("doneEvent"), None, Some("test interest"));
    assert a.heap.objects == map[1 := Interest(1122, "test interest", None,
      Active(23, Some("doneEvent"), {}, PendingComplete, 0, 23))];
    var y := a.heap.objects[1].(phase := a.heap.objects[1].phase.(completion := Complete));
    assert MaybeComplete(a.heap, 1) == SendCompleteEvent(Heap(map[1 := y], []), 1);
  }

  /**
   * An interest opened without an event is removed with scope 23 and an event:
   * it waits in Closing without sending, and the ack for 23 sends the event and
   * turns it Off.
   */
  lemma RemoveWithEventScenario()
    ensures var h0 := Heap(map[1 := Created(1122, "test interest")], []);
      var a := InterestChange(h0, 1, NO_SCOPE, None, None, Some("test interest"));
      a.status.Returned? && a.heap.objects[1].phase.completion == Complete && a.heap.events == [] &&
      var b := InterestRemove(a.heap, 1, 23, Some("doneEvent"));
      b.status.Returned? && b.heap.objects[1].phase.Closing? && b.heap.events == [] &&
      var c := InterestComplete(b.heap, 1, 23);
      c.status.Returned? && c.heap.objects[1].phase.Off? && c.heap.events == ["doneEvent"]
  {
    var h0 := Heap(map[1 := Created(1122, "test interest")], []);
    var a := InterestChange(h0, 1, NO_SCOPE, None, None, Some("test interest"));
    assert a.heap.objects == map[1 := Interest(1122, "test interest", None,
      Active(NO_SCOPE, None, {}, Complete, 0, NO_SCOPE))];
    var b := InterestRemove(a.heap, 1, 23, Some("doneEvent"));
    assert b.heap.objects == map[1 := Interest(1122, "test interest", None, Closing(23, Some("doneEvent"), 23))];
  }
  /**
   * A parent removed before its child leaves the child without a completion
   * machine: the child's removal raises on the parent's missing children set,
   * and the later ack for the child's scope raises too, so its event is never
   * sent.
   */
  lemma ParentRemovedFirstScenario()
    ensures var h0 := Heap(map[1 := Created(1, "parent")], []);
      var a := InterestChange(h0, 1, NO_SCOPE, None, None, Some("parent"));
      var h1 := Heap(a.heap.objects[2 := Created(2, "child")], a.heap.events);
      var b := InterestChange(h1, 2, 7, Some("childDone"), Some(1), Some("child"));
      var c := InterestRemove(b.heap, 1, NO_SCOPE, None);
      var d := InterestRemove(c.heap, 2, 8, Some("childGone"));
      var e := InterestComplete(d.heap, 2, 7);
      a.status.Returned? && b.status.Returned? && c.status.Returned? &&
      d.status == Raised(NoChildrenAttribute) && d.heap.objects[2].phase == Broken(7, Some("childDone"), Some({})) &&
      e == Step(d.heap, Raised(NoCompleteState)) && e.heap.events == []
  {
    var h0 := Heap(map[1 := Created(1, "parent")], []);
    var a := InterestChange(h0, 1, NO_SCOPE, None, None, Some("parent"));
    assert a.heap.objects == map[1 := Interest(1, "parent", None, Active(NO_SCOPE, None, {}, Complete, 0, NO_SCOPE))];
    var h1 := Heap(a.heap.objects[2 := Created(2, "child")], a.heap.events);
    var b := InterestChange(h1, 2, 7, Some("childDone"), Some(1), Some("child"));
    assert h1.objects[1].phase == Active(NO_SCOPE, None, {}, Complete, 0, NO_SCOPE);
    assert {} + {2} == {2};
    assert WithChildren(h1.objects[1].phase, {} + {2}) == Active(NO_SCOPE, None, {2}, Complete, 0, NO_SCOPE);
    assert JoinParent(h1.objects, 2, 1) == map[1 := Interest(1, "parent", None, Active(NO_SCOPE, None, {2}, Complete, 0, NO_SCOPE)),
                                               2 := Created(2, "child")];
    assert b.heap.objects == map[1 := Interest(1, "parent", None, Active(NO_SCOPE, None, {2}, Complete, 0, NO_SCOPE)),
                                 2 := Interest(2, "child", Some(1), Active(7, Some("childDone"), {}, PendingComplete, 0, 7))];
    var c := InterestRemove(b.heap, 1, NO_SCOPE, None);
    assert c.heap.objects[1].phase.Off?;
  }
}
