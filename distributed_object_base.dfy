/**
 * DistributedObjectBase: the location of a distributed object, its parent
 * object, and the auto-interest zones its distributed class declares.
 */
module DistributedObjectBaseModel {
  import opened Wrappers

  /** An attribute of the Python object: never assigned, assigned None, or assigned a number. */
  datatype Attr = Missing | NoneValue | Value(v: int)

  /** "-1 stuffed into a uint32". */
  const UINT32_MINUS_ONE: int := 0xffffffff

  /**
   * getLocation: no location while parent and zone are both 0 or both
   * 0xffffffff, or while either attribute is missing; otherwise the pair, which
   * may hold None values.
   */
  function GetLocation(parentId: Attr, zoneId: Attr): (r: Option<(Attr, Attr)>)
    ensures r.None? <==>
      parentId.Missing? || zoneId.Missing? ||
      (parentId == Value(0) && zoneId == Value(0)) ||
      (parentId == Value(UINT32_MINUS_ONE) && zoneId == Value(UINT32_MINUS_ONE))
    ensures r.Some? ==> r.value == (parentId, zoneId)
  {
    if parentId.Missing? then None
    else if parentId == Value(0) && zoneId == Value(0) then None
    else if parentId == Value(UINT32_MINUS_ONE) && zoneId == Value(UINT32_MINUS_ONE) then None
    else if zoneId.Missing? then None
    else Some((parentId, zoneId))
  }

  /** A freshly constructed object has parent and zone None, so its location is (None, None), not None. */
  lemma NewObjectLocation()
    ensures GetLocation(NoneValue, NoneValue) == Some((NoneValue, NoneValue))
  {
  }

  datatype ParentError = AttributeError

  /**
   * getParentObj: None without a parent id; otherwise the repository's object
   * of that id, if it has one.
   */
  function GetParentObj<O>(parentId: Attr, doId2do: map<int, O>): (r: Result<Option<O>, ParentError>)
    ensures r.Err? <==> parentId.Missing?
    ensures parentId.NoneValue? ==> r == Ok(None)
    ensures parentId.Value? ==>
      r.Ok? && (r.value.Some? <==> parentId.v in doId2do) &&
      (r.value.Some? ==> r.value.value == doId2do[parentId.v])
  {
    match parentId
    case Missing => Err(AttributeError)
    case NoneValue => Ok(None)
    case Value(p) => if p in doId2do then Ok(Some(doId2do[p])) else Ok(None)
  }

  // ---------------------------------------------------------------------------
  // Auto-interests
  // ---------------------------------------------------------------------------

  /**
   * The AutoInterest field's packed default: a 16-bit byte length, then 32-bit
   * zone ids.
   */
  datatype AutoField = AutoField(lengthBytes: nat, words: seq<nat>)

  /** A Python class: its bases, whether the DC file has a class of that name, and that class's AutoInterest field. */
  datatype PyClass = PyClass(bases: seq<string>, inDc: bool, autoField: Option<AutoField>)

  /** The zones read from the field: one per four bytes of the stated length. */
  function FieldZones(f: AutoField): (zs: set<int>)
    ensures forall z :: z in zs ==> exists i :: 0 <= i < f.lengthBytes / 4 && i < |f.words| && f.words[i] == z
  {
    set i | 0 <= i < f.lengthBytes / 4 && i < |f.words| :: f.words[i] as int
  }

  /** The zones a class adds itself: none unless the DC file has the class and its field. */
  function OwnZones(k: PyClass): set<int>
  {
    if k.inDc && k.autoField.Some? then FieldZones(k.autoField.value) else {}
  }

  /** Unpack the field: rawUnpackUint16() / 4 zones, each rawUnpackUint32(). */
  method ReadZones(f: AutoField) returns (zones: set<int>)
    ensures zones == FieldZones(f)
  {
    var n := f.lengthBytes / 4;
    zones := {};
    var i := 0;
    while i < n && i < |f.words|
      invariant 0 <= i <= n
      invariant zones == set j | 0 <= j < i && j < |f.words| :: f.words[j] as int
    {
      zones := zones + {f.words[i] as int};
      i := i + 1;
    }
  }

  /** Bases are known classes of lower rank, so the class graph has no cycles. */
  ghost predicate Hierarchy(classes: map<string, PyClass>, rank: map<string, nat>)
  {
    forall c :: c in classes ==>
      c in rank && forall b :: b in classes[c].bases ==> b in classes && b in rank && rank[b] < rank[c]
  }

  /**
   * The auto-interests of a class: those stored on the class itself if it has
   * any, otherwise the union of its bases' with its own.
   */
  function AutoSpec(classes: map<string, PyClass>, rank: map<string, nat>, stored: map<string, set<int>>, c: string): set<int>
    requires Hierarchy(classes, rank) && c in classes
    decreases rank[c], |classes[c].bases| + 1
  {
    if c in stored then stored[c]
    else BasesSpec(classes, rank, stored, c, |classes[c].bases|) + OwnZones(classes[c])
  }

  /** The union of the auto-interests of the first n bases of c. */
  function BasesSpec(classes: map<string, PyClass>, rank: map<string, nat>, stored: map<string, set<int>>, c: string, n: nat): set<int>
    requires Hierarchy(classes, rank) && c in classes && n <= |classes[c].bases|
    decreases rank[c], n
  {
    if n == 0 then {}
    else
      var b := classes[c].bases[n - 1];
      BasesSpec(classes, rank, stored, c, n - 1) + AutoSpec(classes, rank, stored, b)
  }

  /** A zone comes from the first n bases exactly when one of them has it. */
  lemma {:induction false} BasesSpecMembers(classes: map<string, PyClass>, rank: map<string, nat>, stored: map<string, set<int>>, c: string, n: nat, z: int)
    requires Hierarchy(classes, rank) && c in classes && n <= |classes[c].bases|
    ensures z in BasesSpec(classes, rank, stored, c, n) <==>
      exists j :: 0 <= j < n && z in AutoSpec(classes, rank, stored, classes[c].bases[j])
  {
    if n > 0 {
      BasesSpecMembers(classes, rank, stored, c, n - 1, z);
      var b := classes[c].bases[n - 1];
      if z in AutoSpec(classes, rank, stored, b) {
        assert 0 <= n - 1 < n && z in AutoSpec(classes, rank, stored, classes[c].bases[n - 1]);
      }
    }
  }

  /**
   * Inheritance: a class without stored auto-interests has exactly those of
   * its bases together with its own.
   */
  lemma AutoSpecMembers(classes: map<string, PyClass>, rank: map<string, nat>, stored: map<string, set<int>>, c: string, z: int)
    requires Hierarchy(classes, rank) && c in classes && c !in stored
    ensures z in AutoSpec(classes, rank, stored, c) <==>
      z in OwnZones(classes[c]) || exists b :: b in classes[c].bases && z in AutoSpec(classes, rank, stored, b)
  {
    BasesSpecMembers(classes, rank, stored, c, |classes[c].bases|, z);
    if z in BasesSpec(classes, rank, stored, c, |classes[c].bases|) {
      var j :| 0 <= j < |classes[c].bases| && z in AutoSpec(classes, rank, stored, classes[c].bases[j]);
      assert classes[c].bases[j] in classes[c].bases;
    }
    if exists b :: b in classes[c].bases && z in AutoSpec(classes, rank, stored, b) {
      var b :| b in classes[c].bases && z in AutoSpec(classes, rank, stored, b);
      var j :| 0 <= j < |classes[c].bases| && classes[c].bases[j] == b;
    }
  }

  /**
   * Why getAutoInterests fails: notify.error for more than one
   * auto-interest, or the AttributeError of a missing `air` attribute.
   */
  datatype AutoInterestError = TooManyAutoInterests(count: nat) | NoAirAttribute

  /**
   * The per-class `autoInterests` attributes.  `declared` are those written in
   * class bodies; the rest are filled in as classes found in the DC file are
   * computed.
   */
  class AutoInterestCache {
    const classes: map<string, PyClass>
    const rank: map<string, nat>
    const declared: map<string, set<int>>
    var cache: map<string, set<int>>

    /** Every cached set is what the class's inheritance gives. */
    ghost predicate Valid()
      reads this
    {
      Hierarchy(classes, rank) && declared.Keys <= cache.Keys &&
      forall c :: c in cache ==> c in classes && cache[c] == AutoSpec(classes, rank, declared, c)
    }

    constructor (classes: map<string, PyClass>, rank: map<string, nat>, declared: map<string, set<int>>)
      requires Hierarchy(classes, rank) && declared.Keys <= classes.Keys
      ensures Valid() && this.classes == classes && this.rank == rank && this.declared == declared
      ensures cache == declared
    {
      this.classes := classes;
      this.rank := rank;
      this.declared := declared;
      cache := declared;
    }

    /**
     * _getAutoInterests: the stored set if the class has one; otherwise collect
     * the bases' sets, add the class's own zones, and store the result on the
     * class when the DC file knows it.
     */
    method Collect(c: string) returns (zones: set<int>)
      requires Valid() && c in classes
      modifies this`cache
      decreases rank[c], 1
      ensures Valid() && zones == AutoSpec(classes, rank, declared, c)
      ensures old(cache).Keys <= cache.Keys
      ensures forall d :: d in cache && d !in old(cache) ==> rank[d] <= rank[c]
      ensures c !in old(cache) && classes[c].inDc ==> c in cache
    {
      if c in cache {
        return cache[c];
      }
      var k := classes[c];
      zones := CollectBases(c);
      if k.inDc {
        if k.autoField.Some? {
          var own := ReadZones(k.autoField.value);
          zones := zones + own;
        }
        cache := cache[c := zones];
      }
    }

    /** The loop over `cls.__bases__`: the union of every base's auto-interests. */
    method CollectBases(c: string) returns (zones: set<int>)
      requires Valid() && c in classes && c !in cache
      modifies this`cache
      decreases rank[c], 0
      ensures Valid() && zones == BasesSpec(classes, rank, declared, c, |classes[c].bases|)
      ensures old(cache).Keys <= cache.Keys && c !in cache
      ensures forall d :: d in cache && d !in old(cache) ==> rank[d] < rank[c]
    {
      var bases := classes[c].bases;
      zones := {};
      var i := 0;
      while i < |bases|
        invariant 0 <= i <= |bases|
        invariant Valid() && old(cache).Keys <= cache.Keys && c !in cache
        invariant forall d :: d in cache && d !in old(cache) ==> rank[d] < rank[c]
        invariant zones == BasesSpec(classes, rank, declared, c, i)
      {
        var fromBase := Collect(bases[i]);
        zones := zones + fromBase;
        i := i + 1;
      }
    }

    /** getAutoInterests: more than one auto-interest for the class is an error. */
    method GetAutoInterests(c: string) returns (r: Result<set<int>, AutoInterestError>)
      requires Valid() && c in classes
      modifies this`cache
      ensures Valid()
      ensures r.Err? <==> |AutoSpec(classes, rank, declared, c)| > 1
      ensures r.Ok? ==> r.value == AutoSpec(classes, rank, declared, c)
    {
      var zones := Collect(c);
      if |zones| > 1 {
        return Err(TooManyAutoInterests(|zones|));
      }
      r := Ok(zones);
    }

    /**
     * getAutoInterests as written: the repository is looked up with
     * getattr(self, 'cr', getattr(self, 'air')), whose default is evaluated
     * first, so on an object without an `air` attribute the first class not
     * yet cached raises AttributeError before any cache entry is written.
     * A class already cached is returned without that lookup.
     */
    method GetAutoInterestsAsWritten(c: string, hasAir: bool) returns (r: Result<set<int>, AutoInterestError>)
      requires Valid() && c in classes
      modifies this`cache
      ensures Valid()
      ensures !hasAir && c !in old(cache) ==> r == Err(NoAirAttribute) && cache == old(cache)
      ensures hasAir || c in old(cache) ==>
        (r.Err? <==> |AutoSpec(classes, rank, declared, c)| > 1) &&
        (r.Ok? ==> r.value == AutoSpec(classes, rank, declared, c))
    {
      if !hasAir && c !in cache {
        return Err(NoAirAttribute);
      }
      r := GetAutoInterests(c);
    }
  }
}
