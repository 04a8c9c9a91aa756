/**
 * The effect pool: a table from filenames to loaded effect files, where a
 * filename that was looked up and not found is kept with a null entry so
 * that it is not searched for again.  Effects are added, loaded, released
 * and garbage-collected when nothing but the pool refers to them.
 */
module EffectPoolModel {
  import opened Wrappers

  /** A loaded effect file: its full path and how many references to it exist. */
  datatype EffectRef = EffectRef(fullpath: string, refCount: nat)

  /** An entry of the table: an effect, or null for a file that could not be loaded. */
  type Entry = Option<EffectRef>

  type Table = map<string, Entry>

  /** has_effect: the filename is in the table with a non-null entry. */
  predicate Has(t: Table, f: string)
  {
    f in t && t[f].Some?
  }

  /** The entries garbage_collect drops: null ones and those only the pool refers to. */
  predicate Unused(e: Entry)
  {
    e.None? || e.value.refCount == 1
  }

  function Released(t: Table): (r: set<string>)
    ensures forall f :: f in r <==> f in t && Unused(t[f])
  {
    set f | f in t && Unused(t[f])
  }

  /** The table garbage_collect leaves: the entries still in use, unchanged. */
  function Collect(t: Table): (r: Table)
    ensures r.Keys !! Released(t) && r.Keys + Released(t) == t.Keys
    ensures forall f :: f in r ==> r[f] == t[f]
  {
    map f | f in t && !Unused(t[f]) :: t[f]
  }

  /** Collecting twice drops nothing more: no unused entry survives the first. */
  lemma CollectIdempotent(t: Table)
    ensures Released(Collect(t)) == {}
    ensures Collect(Collect(t)) == Collect(t)
  {
  }

  /** The entries kept and the entries dropped together account for the whole table. */
  lemma CollectCount(t: Table)
    ensures |Collect(t).Keys| + |Released(t)| == |t.Keys|
  {
    var kept := Collect(t).Keys;
    assert kept + Released(t) == t.Keys;
    assert kept !! Released(t);
  }

  /** After collection a filename still has its effect exactly when the effect was in use. */
  lemma CollectKeepsLive(t: Table, f: string)
    ensures Has(Collect(t), f) <==> Has(t, f) && t[f].value.refCount != 1
  {
  }

  /**
   * The second half of load_effect: if an entry for the filename appeared
   * while the loader ran, that entry wins and the table is unchanged;
   * otherwise the loaded node (possibly null) is stored.  Either way the
   * result is the filename's entry afterwards.
   */
  function Settle(t: Table, f: string, node: Entry): (r: (Table, Entry))
    ensures f in r.0 && r.1 == r.0[f]
    ensures f in t ==> r.0 == t
    ensures f !in t ==> r.0 == t[f := node]
  {
    if f in t then (t, t[f]) else (t[f := node], node)
  }

  /** The node stored for a loaded file: the loader's effect with its full path set to the filename, or null. */
  function Node(f: string, loaded: Option<EffectRef>): (e: Entry)
    ensures e.Some? <==> loaded.Some?
    ensures e.Some? ==> e.value.fullpath == f
  {
    if loaded.None? then None else Some(loaded.value.(fullpath := f))
  }

  /**
   * load_effect: a filename already in the table, even with a null entry,
   * returns that entry without loading; otherwise the loaded node is
   * settled into the table.
   */
  function Load(t: Table, f: string, loaded: Option<EffectRef>): (r: (Table, Entry))
  {
    if f in t then (t, t[f]) else Settle(t, f, Node(f, loaded))
  }

  /**
   * After a load the filename is in the table and its entry is what was
   * returned; a cached entry, null or not, comes back untouched; the other
   * filenames keep their entries.
   */
  lemma LoadResult(t: Table, f: string, loaded: Option<EffectRef>)
    ensures var (t', e) := Load(t, f, loaded);
      f in t' && t'[f] == e &&
      (f in t ==> t' == t && e == t[f]) &&
      (f !in t ==> e == Node(f, loaded)) &&
      t'.Keys == t.Keys + {f} &&
      forall g :: g in t && g != f ==> t'[g] == t[g]
  {
  }

  /** Loading the same filename again returns the same entry and changes nothing, whatever the loader would give. */
  lemma LoadAgain(t: Table, f: string, l1: Option<EffectRef>, l2: Option<EffectRef>)
    ensures Load(Load(t, f, l1).0, f, l2) == Load(t, f, l1)
  {
    LoadResult(t, f, l1);
  }

  /** An entry added for the filename while the loader ran wins over the loaded node. */
  lemma EarlierEntryWins(t: Table, f: string, other: Entry, node: Entry)
    ensures Settle(t[f := other], f, node) == (t[f := other], other)
  {
  }

  /** add_effect then has_effect: the filename has the added effect; other filenames are unaffected. */
  lemma AddThenHas(t: Table, f: string, e: EffectRef, g: string)
    ensures Has(t[f := Some(e)], f) && t[f := Some(e)][f] == Some(e)
    ensures g != f ==> (Has(t[f := Some(e)], g) <==> Has(t, g))
  {
  }

  /** release_effect: the filename leaves the table and every other entry stays; an absent filename changes nothing. */
  lemma ReleaseOnlyItsKey(t: Table, f: string, g: string)
    ensures f !in t - {f} && !Has(t - {f}, f)
    ensures g != f ==> (g in t - {f} <==> g in t) && (g in t ==> (t - {f})[g] == t[g])
    ensures f !in t ==> t - {f} == t
  {
  }

  /** The entries among the filenames done so far that garbage_collect keeps. */
  function KeptOf(t: Table, done: set<string>): Table
  {
    map f | f in done && f in t && !Unused(t[f]) :: t[f]
  }

  /** The filenames done so far that garbage_collect drops. */
  function DroppedOf(t: Table, done: set<string>): set<string>
  {
    set f | f in done && f in t && Unused(t[f])
  }

  /** Handling one more filename either drops it, counting one more, or keeps its entry. */
  lemma CollectStep(t: Table, done: set<string>, k: string)
    requires k in t && k !in done
    ensures Unused(t[k]) ==>
      DroppedOf(t, done + {k}) == DroppedOf(t, done) + {k} &&
      |DroppedOf(t, done + {k})| == |DroppedOf(t, done)| + 1 &&
      KeptOf(t, done + {k}) == KeptOf(t, done)
    ensures !Unused(t[k]) ==>
      DroppedOf(t, done + {k}) == DroppedOf(t, done) &&
      KeptOf(t, done + {k}) == KeptOf(t, done)[k := t[k]]
  {
    if Unused(t[k]) {
      assert DroppedOf(t, done + {k}) == DroppedOf(t, done) + {k};
      assert k !in DroppedOf(t, done);
    }
  }

  /** Once every filename is done, the kept entries are the collected table and the dropped ones are those released. */
  lemma CollectDone(t: Table)
    ensures KeptOf(t, t.Keys) == Collect(t)
    ensures DroppedOf(t, t.Keys) == Released(t)
  {
  }

  class EffectPool {
    var effects: Table

    /** The pool starts empty. */
    constructor ()
      ensures effects == map[]
    {
      effects := map[];
    }

    /** has_effect */
    method HasEffect(f: string) returns (r: bool)
      ensures r == Has(effects, f)
    {
      r := f in effects && effects[f].Some?;
    }

    /**
     * load_effect; loaded is what the loader produces for the filename,
     * None when it finds nothing.
     */
    method LoadEffect(f: string, loaded: Option<EffectRef>) returns (r: Entry)
      modifies this
      ensures (effects, r) == Load(old(effects), f, loaded)
    {
      if f in effects {
        return effects[f];
      }
      var node := if loaded.None? then None else Some(loaded.value.(fullpath := f));
      r := InsertLoaded(f, node);
    }

    /**
     * The locked section that ends load_effect: another thread may have
     * stored the filename while the loader ran, and then its entry is kept
     * and returned.
     */
    method InsertLoaded(f: string, node: Entry) returns (r: Entry)
      modifies this
      ensures (effects, r) == Settle(old(effects), f, node)
    {
      if f in effects {
        return effects[f];
      }
      effects := effects[f := node];
      return node;
    }

    /** add_effect under an explicit filename: any earlier entry is replaced. */
    method AddEffect(f: string, e: Entry)
      modifies this
      ensures effects == old(effects)[f := e]
    {
      effects := effects[f := e];
    }

    /** add_effect keyed by the effect's own full path. */
    method AddEffectByPath(e: EffectRef)
      modifies this
      ensures effects == old(effects)[e.fullpath := Some(e)]
    {
      effects := effects[e.fullpath := Some(e)];
    }

    /** release_effect by filename. */
    method ReleaseEffect(f: string)
      modifies this
      ensures effects == old(effects) - {f}
    {
      if f in effects {
        effects := effects - {f};
      }
    }

    /** release_effect keyed by the effect's own full path. */
    method ReleaseEffectByPath(e: EffectRef)
      modifies this
      ensures effects == old(effects) - {e.fullpath}
    {
      if e.fullpath in effects {
        effects := effects - {e.fullpath};
      }
    }

    /** release_all_effects */
    method ReleaseAllEffects()
      modifies this
      ensures effects == map[]
    {
      effects := map[];
    }

    /**
     * garbage_collect: builds the table of entries still in use, counting
     * the ones it leaves behind, and swaps it in.
     */
    method GarbageCollect() returns (numReleased: int)
      modifies this
      ensures effects == Collect(old(effects))
      ensures numReleased == |Released(old(effects))|
      ensures numReleased + |effects.Keys| == |old(effects).Keys|
    {
      var t := effects;
      var newSet: Table := map[];
      var rest := t.Keys;
      ghost var done: set<string> := {};
      numReleased := 0;
      while rest != {}
        invariant rest + done == t.Keys && rest !! done
        invariant newSet == KeptOf(t, done)
        invariant numReleased == |DroppedOf(t, done)|
        decreases rest
      {
        var k :| k in rest;
        CollectStep(t, done, k);
        if t[k].None? || t[k].value.refCount == 1 {
          numReleased := numReleased + 1;
        } else {
          newSet := newSet[k := t[k]];
        }
        rest := rest - {k};
        done := done + {k};
      }
      CollectDone(t);
      effects := newSet;
      CollectCount(t);
    }
  }
}
