/**
 * DistributedObjectOV: the owner view of a distributed object.  Its life is a
 * small state machine over activeState, plus a delay-delete counter that lets
 * holders postpone a requested delete until the last of them lets go.
 * Announcements sent through the messenger are recorded in order.
 */
module DistributedObjectOVModel {
  import opened Wrappers

  /** The activeState values; those up to ESDisabled count as disabled, from ESGenerating up as generated. */
  const ES_NEW: int := 1
  const ES_DELETED: int := 2
  const ES_DISABLING: int := 3
  const ES_DISABLED: int := 4
  const ES_GENERATING: int := 5
  const ES_GENERATED: int := 6

  /** A message sent on the messenger. */
  datatype Announcement = DisableAnnounced | GenerateAnnounced

  /** notify.error raises; these are the two reasons delayDelete does so. */
  datatype DelayDeleteError = InvalidFlag | NegativeCount

  /** The counter after delayDelete(flag): 1 holds, 0 lets go, anything else is refused. */
  function DelayDeleteCount(count: int, flag: int): (r: Result<int, DelayDeleteError>)
    ensures r.Err? <==> flag != 0 && flag != 1
    ensures flag == 1 ==> r == Ok(count + 1)
    ensures flag == 0 ==> r == Ok(count - 1)
  {
    if flag == 1 then Ok(count + 1) else if flag == 0 then Ok(count - 1) else Err(InvalidFlag)
  }

  /** Holding and letting go restores the counter. */
  lemma HoldThenRelease(count: int)
    ensures DelayDeleteCount(count, 1).Ok? && DelayDeleteCount(DelayDeleteCount(count, 1).value, 0) == Ok(count)
  {
  }

  class ObjectOV {
    var delayDeleteCount: int
    var deleteImminent: bool
    var activeState: int
    /** Set by delete (the DistributedObjectOV_deleted flag; cr and dclass dropped). */
    var deleted: bool
    /** Every value activeState has been given, in order. */
    var stateLog: seq<int>
    var announcements: seq<Announcement>

    constructor ()
      ensures delayDeleteCount == 0 && !deleteImminent && activeState == ES_NEW && !deleted
      ensures stateLog == [ES_NEW] && announcements == []
    {
      delayDeleteCount := 0;
      deleteImminent := false;
      activeState := ES_NEW;
      deleted := false;
      stateLog := [ES_NEW];
      announcements := [];
    }

    /** isDisabled: disabled, deleted, or not yet generated. */
    predicate IsDisabled()
      reads this
    {
      activeState < ES_GENERATING
    }

    /** isGenerated: fully generated and not yet disabled. */
    predicate IsGenerated()
      reads this
    {
      activeState == ES_GENERATED
    }

    method SetState(s: int)
      modifies this`activeState, this`stateLog
      ensures activeState == s && stateLog == old(stateLog) + [s]
    {
      activeState := s;
      stateLog := stateLog + [s];
    }

    /** disable: the object ends disabled. */
    method Disable()
      modifies this`activeState, this`stateLog
      ensures activeState == ES_DISABLED
      ensures old(activeState) == ES_DISABLED ==> stateLog == old(stateLog)
      ensures old(activeState) != ES_DISABLED ==> stateLog == old(stateLog) + [ES_DISABLED]
    {
      if activeState != ES_DISABLED {
        SetState(ES_DISABLED);
      }
    }

    /**
     * disableAndAnnounce: unless already disabled, announce the disable while in
     * ESDisabling, then disable.
     */
    method DisableAndAnnounce()
      modifies this`activeState, this`stateLog, this`announcements
      ensures activeState == ES_DISABLED
      ensures old(activeState) == ES_DISABLED ==> stateLog == old(stateLog) && announcements == old(announcements)
      ensures old(activeState) != ES_DISABLED ==>
        stateLog == old(stateLog) + [ES_DISABLING, ES_DISABLED] && announcements == old(announcements) + [DisableAnnounced]
    {
      if activeState != ES_DISABLED {
        SetState(ES_DISABLING);
        announcements := announcements + [DisableAnnounced];
        Disable();
      }
    }

    /** delete: the object gives up its repository; doing it again changes nothing. */
    method Delete()
      modifies this`deleted
      ensures deleted
    {
      if !deleted {
        deleted := true;
      }
    }

    method DisableAnnounceAndDelete()
      modifies this`activeState, this`stateLog, this`announcements, this`deleted
      ensures activeState == ES_DISABLED && deleted
      ensures old(activeState) == ES_DISABLED ==> stateLog == old(stateLog) && announcements == old(announcements)
      ensures old(activeState) != ES_DISABLED ==>
        stateLog == old(stateLog) + [ES_DISABLING, ES_DISABLED] && announcements == old(announcements) + [DisableAnnounced]
    {
      DisableAndAnnounce();
      Delete();
    }

    /** deleteOrDelay: while someone holds the object, only mark the delete as imminent. */
    method DeleteOrDelay()
      modifies this
      ensures delayDeleteCount == old(delayDeleteCount)
      ensures old(delayDeleteCount) > 0 ==>
        deleteImminent && activeState == old(activeState) && deleted == old(deleted) &&
        stateLog == old(stateLog) && announcements == old(announcements)
      ensures old(delayDeleteCount) <= 0 ==>
        deleteImminent == old(deleteImminent) && activeState == ES_DISABLED && deleted
      ensures old(delayDeleteCount) <= 0 && old(activeState) != ES_DISABLED ==>
        stateLog == old(stateLog) + [ES_DISABLING, ES_DISABLED] && announcements == old(announcements) + [DisableAnnounced]
    {
      if delayDeleteCount > 0 {
        deleteImminent := true;
      } else {
        DisableAnnounceAndDelete();
      }
    }

    /**
     * delayDelete: 1 holds the object, 0 lets go.  Any other flag is refused with
     * the counter unchanged; letting go below zero is refused after the counter
     * has moved.  The last release of an object whose delete is imminent
     * deletes it.
     */
    method DelayDelete(flag: int) returns (r: Result<int, DelayDeleteError>)
      modifies this
      ensures deleteImminent == old(deleteImminent)
      ensures DelayDeleteCount(old(delayDeleteCount), flag).Err? ==>
        r == Err(InvalidFlag) && delayDeleteCount == old(delayDeleteCount)
      ensures DelayDeleteCount(old(delayDeleteCount), flag).Ok? ==>
        delayDeleteCount == DelayDeleteCount(old(delayDeleteCount), flag).value
      ensures r.Ok? <==> DelayDeleteCount(old(delayDeleteCount), flag).Ok? && delayDeleteCount >= 0
      ensures r.Ok? ==> r.value == delayDeleteCount
      ensures r.Err? && DelayDeleteCount(old(delayDeleteCount), flag).Ok? ==> r == Err(NegativeCount)
      ensures r.Ok? && delayDeleteCount == 0 && deleteImminent ==> activeState == ES_DISABLED && deleted
      ensures r.Ok? && delayDeleteCount == 0 && deleteImminent && old(activeState) != ES_DISABLED ==>
        stateLog == old(stateLog) + [ES_DISABLING, ES_DISABLED] && announcements == old(announcements) + [DisableAnnounced]
      ensures !(r.Ok? && delayDeleteCount == 0 && deleteImminent) ==>
        activeState == old(activeState) && deleted == old(deleted) &&
        stateLog == old(stateLog) && announcements == old(announcements)
    {
      if flag == 1 {
        delayDeleteCount := delayDeleteCount + 1;
      } else if flag == 0 {
        delayDeleteCount := delayDeleteCount - 1;
      } else {
        return Err(InvalidFlag);
      }
      if delayDeleteCount < 0 {
        return Err(NegativeCount);
      } else if delayDeleteCount == 0 {
        if deleteImminent {
          DisableAnnounceAndDelete();
        }
      }
      r := Ok(delayDeleteCount);
    }

    /** announceGenerate: the generate announcement goes out only on the first call. */
    method AnnounceGenerate()
      modifies this`activeState, this`stateLog, this`announcements
      ensures activeState == ES_GENERATED
      ensures old(activeState) == ES_GENERATED ==> stateLog == old(stateLog) && announcements == old(announcements)
      ensures old(activeState) != ES_GENERATED ==>
        stateLog == old(stateLog) + [ES_GENERATED] && announcements == old(announcements) + [GenerateAnnounced]
    {
      if activeState != ES_GENERATED {
        SetState(ES_GENERATED);
        announcements := announcements + [GenerateAnnounced];
      }
    }

    /** generate and generateInit: the object is being generated. */
    method Generate()
      modifies this`activeState, this`stateLog
      ensures activeState == ES_GENERATING && stateLog == old(stateLog) + [ES_GENERATING]
    {
      SetState(ES_GENERATING);
    }
  }

  /** The disabled and generated tests split the states: generated objects are never disabled. */
  lemma StateClasses(s: int)
    requires ES_NEW <= s <= ES_GENERATED
    ensures (s < ES_GENERATING) != (s == ES_GENERATING || s == ES_GENERATED)
  {
  }

  /**
   * A delete requested while the object is held waits for the holder to let go,
   * and then happens exactly once, announced once.
   */
  method DelayedDeleteScenario() returns (o: ObjectOV, held: Result<int, DelayDeleteError>, released: Result<int, DelayDeleteError>)
    ensures held == Ok(1) && released == Ok(0)
    ensures o.IsDisabled() && o.deleted && o.announcements == [DisableAnnounced]
    ensures o.stateLog == [ES_NEW, ES_DISABLING, ES_DISABLED]
  {
    o := new ObjectOV();
    held := o.DelayDelete(1);
    o.DeleteOrDelay();
    assert !o.deleted && o.deleteImminent && o.announcements == [];
    released := o.DelayDelete(0);
  }
}
