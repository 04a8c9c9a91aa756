/**
 * DoHierarchy: the parentId -> zoneId -> set-of-doIds location table of the
 * distributed objects a client knows about, kept in step with the set of all
 * stored doIds.
 */
module DoHierarchyModel {
  import opened Wrappers
  import opened SeqProps

  type Table = map<int, map<int, set<int>>>

  /** The ids stored under (parentId, zoneId); empty when either key is missing. */
  function Bucket(t: Table, parentId: int, zoneId: int): set<int>
  {
    if parentId in t && zoneId in t[parentId] then t[parentId][zoneId] else {}
  }

  /** `doId` is stored under some parent and zone. */
  ghost predicate Located(t: Table, doId: int)
  {
    exists p, z :: doId in Bucket(t, p, z)
  }

  /** No id is held by two buckets. */
  ghost predicate UniquelyPlaced(t: Table)
  {
    forall p, z, p', z', id :: id in Bucket(t, p, z) && id in Bucket(t, p', z') ==> p == p' && z == z'
  }

  /** No empty bucket, and no parent without zones. */
  ghost predicate Pruned(t: Table)
  {
    (forall p :: p in t ==> t[p] != map[]) &&
    (forall p, z :: p in t && z in t[p] ==> t[p][z] != {})
  }

  /** The table after adding `doId` under (parentId, zoneId), creating the entries as needed. */
  function Stored(t: Table, parentId: int, zoneId: int, doId: int): (t': Table)
    ensures forall p, z :: Bucket(t', p, z) == if p == parentId && z == zoneId then Bucket(t, p, z) + {doId} else Bucket(t, p, z)
    ensures t'.Keys == t.Keys + {parentId}
  {
    var zones := if parentId in t then t[parentId] else map[];
    t[parentId := zones[zoneId := Bucket(t, parentId, zoneId) + {doId}]]
  }

  /**
   * The table after removing `doId` from the bucket (parentId, zoneId): an
   * emptied bucket is dropped, and so is a parent left with no zones.
   */
  function Deleted(t: Table, parentId: int, zoneId: int, doId: int): Table
    requires parentId in t && zoneId in t[parentId]
  {
    var bucket := t[parentId][zoneId] - {doId};
    if bucket == {} then
      var zones := t[parentId] - {zoneId};
      if zones == map[] then t - {parentId} else t[parentId := zones]
    else t[parentId := t[parentId][zoneId := bucket]]
  }

  /** Deleting takes exactly `doId` out of the one bucket and leaves every other bucket alone. */
  lemma DeletedBuckets(t: Table, parentId: int, zoneId: int, doId: int)
    requires parentId in t && zoneId in t[parentId]
    ensures forall p, z :: (Bucket(Deleted(t, parentId, zoneId, doId), p, z) ==
      if p == parentId && z == zoneId then Bucket(t, p, z) - {doId} else Bucket(t, p, z))
  {
    var t' := Deleted(t, parentId, zoneId, doId);
    var zones := t[parentId] - {zoneId};
    forall p, z ensures Bucket(t', p, z) == if p == parentId && z == zoneId then Bucket(t, p, z) - {doId} else Bucket(t, p, z) {
      if p == parentId && z != zoneId && z in t[parentId] {
        assert z in zones;
      }
    }
  }

  /** Deleting keeps the table pruned. */
  lemma DeletedPruned(t: Table, parentId: int, zoneId: int, doId: int)
    requires parentId in t && zoneId in t[parentId] && Pruned(t)
    ensures Pruned(Deleted(t, parentId, zoneId, doId))
  {
    var bucket := t[parentId][zoneId] - {doId};
    if bucket != {} {
      assert zoneId in t[parentId][zoneId := bucket];
    }
  }

  /** After a store, exactly the previously located ids and `doId` are located. */
  lemma StoredLocated(t: Table, parentId: int, zoneId: int, doId: int)
    ensures forall id :: Located(Stored(t, parentId, zoneId, doId), id) <==> Located(t, id) || id == doId
  {
    var t' := Stored(t, parentId, zoneId, doId);
    forall id ensures Located(t', id) <==> Located(t, id) || id == doId {
      if Located(t', id) {
        var p, z :| id in Bucket(t', p, z);
        assert id in Bucket(t, p, z) || id == doId;
      }
      if Located(t, id) {
        var p, z :| id in Bucket(t, p, z);
        assert id in Bucket(t', p, z);
      }
      if id == doId {
        assert id in Bucket(t', parentId, zoneId);
      }
    }
  }

  /** After deleting an id stored only under (parentId, zoneId), every other id stays located. */
  lemma DeletedLocated(t: Table, parentId: int, zoneId: int, doId: int)
    requires parentId in t && zoneId in t[parentId] && doId in t[parentId][zoneId] && UniquelyPlaced(t)
    ensures forall id :: Located(Deleted(t, parentId, zoneId, doId), id) <==> Located(t, id) && id != doId
  {
    var t' := Deleted(t, parentId, zoneId, doId);
    DeletedBuckets(t, parentId, zoneId, doId);
    forall id ensures Located(t', id) <==> Located(t, id) && id != doId {
      if Located(t', id) {
        var p, z :| id in Bucket(t', p, z);
        assert id in Bucket(t, p, z) && doId in Bucket(t, parentId, zoneId);
      }
      if Located(t, id) && id != doId {
        var p, z :| id in Bucket(t, p, z);
        assert id in Bucket(t', p, z);
      }
    }
  }

  /**
   * Storing an id that is nowhere in a pruned table and then deleting it from
   * the same place gives back the table: the pruning undoes exactly what the
   * store created.
   */
  lemma StoreThenDeleteRestores(t: Table, parentId: int, zoneId: int, doId: int)
    requires Pruned(t) && !Located(t, doId)
    ensures var t' := Stored(t, parentId, zoneId, doId);
      parentId in t' && zoneId in t'[parentId] && Deleted(t', parentId, zoneId, doId) == t
  {
    var t' := Stored(t, parentId, zoneId, doId);
    assert t'[parentId] == (if parentId in t then t[parentId] else map[])[zoneId := Bucket(t, parentId, zoneId) + {doId}];
    assert doId !in Bucket(t, parentId, zoneId);
    assert Bucket(t, parentId, zoneId) + {doId} - {doId} == Bucket(t, parentId, zoneId);
    if parentId in t {
      if zoneId in t[parentId] {
        assert t'[parentId][zoneId := Bucket(t, parentId, zoneId)] == t[parentId];
      } else {
        assert t'[parentId] - {zoneId} == t[parentId];
      }
    } else {
      assert t'[parentId] - {zoneId} == map[];
    }
  }

  /** The ids that the buckets of the given parents hold. */
  function ChildrenOf(t: Table, parents: set<int>): set<int>
  {
    set p, z, id | p in parents && p in t && z in t[p] && id in t[p][z] :: id
  }

  lemma ChildrenOfMeaning(t: Table, parents: set<int>)
    ensures forall id :: id in ChildrenOf(t, parents) <==> exists p, z :: p in parents && id in Bucket(t, p, z)
  {
    forall id ensures id in ChildrenOf(t, parents) <==> exists p, z :: p in parents && id in Bucket(t, p, z) {
      if id in ChildrenOf(t, parents) {
        var p, z, id' :| p in parents && p in t && z in t[p] && id' in t[p][z] && id' == id;
        assert id in Bucket(t, p, z);
      }
      if exists p, z :: p in parents && id in Bucket(t, p, z) {
        var p, z :| p in parents && id in Bucket(t, p, z);
        assert p in t && z in t[p] && id in t[p][z];
      }
    }
  }

  lemma ChildrenOfUnion(t: Table, a: set<int>, b: set<int>)
    ensures ChildrenOf(t, a + b) == ChildrenOf(t, a) + ChildrenOf(t, b)
  {
    ChildrenOfMeaning(t, a + b);
    ChildrenOfMeaning(t, a);
    ChildrenOfMeaning(t, b);
  }

  /** How deleteObjectLocation ends: one distinct error per missing piece, or the removal. */
  datatype DeleteStatus = NotStored | ParentNotFound | ZoneNotFound | ObjectNotFound | Removed

  /** getDoIds' classType filter: none, or getDo followed by isinstance as one test on a doId. */
  datatype Filter = AllClasses | OnlyClass(isInstance: int -> bool)

  function Keep(f: Filter, doId: int): bool
  {
    match f
    case AllClasses => true
    case OnlyClass(isInstance) => isInstance(doId)
  }

  class DoHierarchy {
    var table: Table
    var allDoIds: set<int>

    /** The table is pruned, no id is in two buckets, and allDoIds holds exactly the located ids. */
    ghost predicate Valid()
      reads this
    {
      Pruned(table) && UniquelyPlaced(table) &&
      forall id :: id in allDoIds <==> Located(table, id)
    }

    constructor ()
      ensures Valid() && table == map[] && allDoIds == {}
    {
      table := map[];
      allDoIds := {};
    }

    /** isEmpty: the table is empty exactly when allDoIds is (the source asserts this). */
    method IsEmpty() returns (empty: bool)
      requires Valid()
      ensures empty <==> allDoIds == {}
      ensures empty <==> table == map[]
    {
      if table != map[] {
        NonEmptyHasMember(table.Keys);
        var p :| p in table.Keys;
        NonEmptyHasMember(table[p].Keys);
        var z :| z in table[p].Keys;
        NonEmptyHasMember(table[p][z]);
        var id :| id in table[p][z];
        assert id in Bucket(table, p, z);
        assert Located(table, id);
      }
      if allDoIds != {} {
        NonEmptyHasMember(allDoIds);
        var id :| id in allDoIds;
        var p, z :| id in Bucket(table, p, z);
        assert p in table;
      }
      empty := table == map[] && allDoIds == {};
    }

    /** __len__: the number of stored ids. */
    function Len(): (n: nat)
      reads this
      ensures n == |allDoIds|
    {
      |allDoIds|
    }

    /** clear: both structures become empty. */
    method Clear()
      modifies this
      ensures Valid() && table == map[] && allDoIds == {}
    {
      table := map[];
      allDoIds := {};
    }

    /**
     * storeObjectLocation: an id already stored is an error (nothing changes);
     * otherwise it is added to the bucket (parentId, zoneId), created if needed.
     */
    method StoreObjectLocation(doId: int, parentId: int, zoneId: int) returns (ok: bool)
      requires Valid()
      modifies this
      ensures Valid()
      ensures ok <==> doId !in old(allDoIds)
      ensures ok ==> table == Stored(old(table), parentId, zoneId, doId) && allDoIds == old(allDoIds) + {doId}
      ensures !ok ==> table == old(table) && allDoIds == old(allDoIds)
    {
      if doId in allDoIds {
        return false;
      }
      StoredLocated(table, parentId, zoneId, doId);
      table := Stored(table, parentId, zoneId, doId);
      allDoIds := allDoIds + {doId};
      ok := true;
    }

    /**
     * deleteObjectLocation: an id that is not stored, a missing parent, a missing
     * zone, and an id absent from the bucket are four distinct errors that change
     * nothing; otherwise the id leaves the bucket and allDoIds, with pruning.
     */
    method DeleteObjectLocation(doId: int, parentId: int, zoneId: int) returns (status: DeleteStatus)
      requires Valid()
      modifies this
      ensures Valid()
      ensures status == NotStored <==> doId !in old(allDoIds)
      ensures status == ParentNotFound <==> doId in old(allDoIds) && parentId !in old(table)
      ensures status == ZoneNotFound <==>
        doId in old(allDoIds) && parentId in old(table) && zoneId !in old(table)[parentId]
      ensures status == ObjectNotFound <==>
        doId in old(allDoIds) && parentId in old(table) && zoneId in old(table)[parentId] && doId !in old(table)[parentId][zoneId]
      ensures status == Removed ==>
        table == Deleted(old(table), parentId, zoneId, doId) && allDoIds == old(allDoIds) - {doId}
      ensures status != Removed ==> table == old(table) && allDoIds == old(allDoIds)
    {
      if doId !in allDoIds {
        return NotStored;
      }
      if parentId !in table {
        return ParentNotFound;
      }
      if zoneId !in table[parentId] {
        return ZoneNotFound;
      }
      if doId !in table[parentId][zoneId] {
        return ObjectNotFound;
      }
      DeletedBuckets(table, parentId, zoneId, doId);
      DeletedPruned(table, parentId, zoneId, doId);
      DeletedLocated(table, parentId, zoneId, doId);
      table := Deleted(table, parentId, zoneId, doId);
      allDoIds := allDoIds - {doId};
      status := Removed;
    }

    /**
     * getDoIds: the ids under parentId (in every zone, or in one zone), each once,
     * kept only when the filter accepts them; an unknown parent gives [].
     */
    method GetDoIds(parentId: int, zoneId: Option<int>, filter: Filter) returns (r: seq<int>)
      requires Valid()
      ensures NoDuplicates(r)
      ensures parentId !in table ==> r == []
      ensures forall id :: id in r <==> (Keep(filter, id) &&
        id in (if zoneId.Some? then Bucket(table, parentId, zoneId.value) else ChildrenOf(table, {parentId})))
    {
      if parentId !in table {
        return [];
      }
      var parent := table[parentId];
      var found: seq<int> := [];
      ChildrenOfMeaning(table, {parentId});
      if zoneId.None? {
        var zones := parent.Keys;
        while zones != {}
          invariant zones <= parent.Keys
          invariant NoDuplicates(found)
          invariant forall id :: id in found <==> exists z :: z !in zones && id in Bucket(table, parentId, z)
          decreases zones
        {
          NonEmptyHasMember(zones);
          var z :| z in zones;
          found := AppendBucket(found, parentId, z);
          zones := zones - {z};
        }
      } else if zoneId.value in parent {
        found := AppendBucket(found, parentId, zoneId.value);
      }
      r := [];
      var i := 0;
      while i < |found|
        invariant 0 <= i <= |found|
        invariant NoDuplicates(r)
        invariant forall id :: id in r <==> id in found[..i] && Keep(filter, id)
      {
        if Keep(filter, found[i]) {
          assert found[i] !in found[..i];
          r := r + [found[i]];
        }
        i := i + 1;
      }
      assert found[..i] == found;
    }

    /** The inner loop of getDoIds: append the ids of one zone's bucket, in any order. */
    method AppendBucket(found: seq<int>, parentId: int, zoneId: int) returns (found': seq<int>)
      requires Valid() && parentId in table && zoneId in table[parentId]
      requires NoDuplicates(found)
      requires forall id :: id in found ==> exists z :: z != zoneId && id in Bucket(table, parentId, z)
      ensures NoDuplicates(found')
      ensures forall id :: id in found' <==> id in found || id in Bucket(table, parentId, zoneId)
    {
      found' := found;
      var ids := table[parentId][zoneId];
      while ids != {}
        invariant ids <= table[parentId][zoneId]
        invariant NoDuplicates(found')
        invariant forall id :: id in found' <==> id in found || id in table[parentId][zoneId] - ids
        decreases ids
      {
        NonEmptyHasMember(ids);
        var id :| id in ids;
        assert id in Bucket(table, parentId, zoneId);
        assert id !in found;
        found' := found' + [id];
        ids := ids - {id};
      }
    }

    /**
     * genTree: a node per parent and per stored id, each node holding its own zones
     * and child ids; the roots are the parents that no bucket holds.
     */
    method GenTree() returns (roots: set<int>, nodes: map<int, map<int, set<int>>>)
      requires Valid()
      ensures roots == set p | p in table && !Located(table, p)
      ensures nodes.Keys == table.Keys + allDoIds
      ensures forall id :: id in nodes ==> nodes[id] == if id in table then table[id] else map[]
    {
      var top;
      top, nodes := LinkNodes();
      roots := CullChildren(top);
      ChildrenOfMeaning(table, table.Keys);
      assert forall id :: id in allDoIds <==> id in ChildrenOf(table, table.Keys);
    }

    /** genTree's first pass: a node for every parent and child, and every parent a candidate root. */
    method LinkNodes() returns (top: set<int>, nodes: map<int, map<int, set<int>>>)
      ensures top == table.Keys
      ensures nodes.Keys == table.Keys + ChildrenOf(table, table.Keys)
      ensures forall id :: id in nodes ==> nodes[id] == if id in table then table[id] else map[]
    {
      nodes := map[];
      top := {};
      var parents := table.Keys;
      while parents != {}
        invariant parents <= table.Keys
        invariant top == table.Keys - parents
        invariant nodes.Keys == (table.Keys - parents) + ChildrenOf(table, table.Keys - parents)
        invariant forall id :: id in nodes ==> nodes[id] == if id in table.Keys - parents then table[id] else map[]
        decreases parents
      {
        NonEmptyHasMember(parents);
        var p :| p in parents;
        ChildrenOfUnion(table, table.Keys - parents, {p});
        assert table.Keys - (parents - {p}) == (table.Keys - parents) + {p};
        var kids := ChildrenOf(table, {p});
        nodes := nodes[p := table[p]];
        nodes := nodes + map c | c in kids && c !in nodes :: map[];
        top := top + {p};
        parents := parents - {p};
      }
    }

    /** genTree's second pass: drop from the candidate roots every id that some bucket holds. */
    method CullChildren(top: set<int>) returns (roots: set<int>)
      ensures roots == top - ChildrenOf(table, table.Keys)
    {
      roots := top;
      var parents := table.Keys;
      while parents != {}
        invariant parents <= table.Keys
        invariant roots == top - ChildrenOf(table, table.Keys - parents)
        decreases parents
      {
        NonEmptyHasMember(parents);
        var p :| p in parents;
        ChildrenOfUnion(table, table.Keys - parents, {p});
        assert table.Keys - (parents - {p}) == (table.Keys - parents) + {p};
        roots := roots - ChildrenOf(table, {p});
        parents := parents - {p};
      }
    }
  }
}
