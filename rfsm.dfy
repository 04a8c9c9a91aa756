/**
 * RFSM: a state machine that lets callers queue work for after the transition
 * under way.  A call made while no state is set is queued; otherwise it runs at
 * once.  When the transition completes the queue runs in order and is emptied.
 */
module ReentrantFsm {
  import opened Wrappers

  /** A queued call: the machine's own cleanup, or a caller's functor (its body is not modelled). */
  datatype Functor = CleanupMachine | Callback(id: nat)

  class Rfsm {
    /** The current state; None while a transition is under way. */
    var state: Option<string>
    /** Calls waiting for the current transition to complete. */
    var postTransFuncs: seq<Functor>
    /** Every call run so far, in the order it ran. */
    var called: seq<Functor>

    constructor (initial: string)
      ensures state == Some(initial) && postTransFuncs == [] && called == []
    {
      state := Some(initial);
      postTransFuncs := [];
      called := [];
    }

    /** Python's `not self.state`: no state, or the empty state name. */
    predicate InTransition()
      reads this
    {
      state.None? || state == Some("")
    }

    /** callAfterTrans: queue during a transition, run at once otherwise. */
    method CallAfterTrans(f: Functor)
      modifies this
      ensures state == old(state)
      ensures old(InTransition()) ==> postTransFuncs == old(postTransFuncs) + [f] && called == old(called)
      ensures !old(InTransition()) ==> called == old(called) + [f] && postTransFuncs == old(postTransFuncs)
    {
      if InTransition() {
        postTransFuncs := postTransFuncs + [f];
      } else {
        called := called + [f];
      }
    }

    /** cleanup: the machine's cleanup is itself deferred past any transition. */
    method Cleanup()
      modifies this
      ensures state == old(state)
      ensures old(InTransition()) ==> postTransFuncs == old(postTransFuncs) + [CleanupMachine] && called == old(called)
      ensures !old(InTransition()) ==> called == old(called) + [CleanupMachine] && postTransFuncs == old(postTransFuncs)
    {
      CallAfterTrans(CleanupMachine);
    }

    /** _setStateCompleted: every queued call runs once, in queue order, and the queue empties. */
    method SetStateCompleted()
      modifies this
      ensures state == old(state)
      ensures called == old(called) + old(postTransFuncs) && postTransFuncs == []
    {
      var i := 0;
      while i < |postTransFuncs|
        invariant 0 <= i <= |postTransFuncs|
        invariant postTransFuncs == old(postTransFuncs) && state == old(state)
        invariant called == old(called) + postTransFuncs[..i]
      {
        called := called + [postTransFuncs[i]];
        i := i + 1;
      }
      postTransFuncs := [];
    }
  }

  /** A call made during a transition runs exactly when the transition completes, after those queued before it. */
  method QueuedCallRunsAfterTransition(f: Functor) returns (m: Rfsm)
    ensures m.InTransition() && m.called == [f] && m.postTransFuncs == []
  {
    m := new Rfsm("Off");
    m.state := None;
    m.CallAfterTrans(f);
    assert m.called == [] && m.postTransFuncs == [f];
    m.SetStateCompleted();
  }
}
