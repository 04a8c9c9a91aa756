/**
 * The interest requests a client sends: CLIENT_ADD_INTEREST with handle, scope,
 * parent and zone list, and CLIENT_REMOVE_INTEREST with handle and optional scope.
 * A datagram is modelled as the sequence of the fields added to it, in order.
 */
module InterestMessages {
  import opened Wrappers

  /** Scope value for interest changes that have no complete event. */
  const NO_SCOPE: nat := 0

  datatype MsgType = ClientAddInterest | ClientRemoveInterest

  /** One field appended to a datagram: the message type, a 16-bit or a 32-bit unsigned value. */
  datatype Field = Tag(msgType: MsgType) | U16(v16: nat) | U32(v32: nat)

  /** The zone argument of an add request: a list of zones, or one zone. */
  datatype ZoneSpec = ZoneList(zones: seq<nat>) | OneZone(zone: nat)

  /** _sendAddInterest refuses parent 0 (notify.error raises). */
  datatype MessageError = InvalidParent

  predicate Sorted(s: seq<nat>)
  {
    forall i, j :: 0 <= i < j < |s| ==> s[i] <= s[j]
  }

  predicate StrictlySorted(s: seq<nat>)
  {
    forall i, j :: 0 <= i < j < |s| ==> s[i] < s[j]
  }

  /** Insert `x` before the first element of `s` that is not smaller. */
  function Insert(x: nat, s: seq<nat>): (r: seq<nat>)
    ensures |r| == |s| + 1
  {
    if s == [] then [x]
    else if x <= s[0] then [x] + s
    else [s[0]] + Insert(x, s[1..])
  }

  /** Inserting adds exactly one occurrence of `x`. */
  lemma {:induction false} InsertPermutes(x: nat, s: seq<nat>)
    ensures multiset(Insert(x, s)) == multiset(s) + multiset{x}
  {
    if s != [] && x > s[0] {
      InsertPermutes(x, s[1..]);
      assert s == [s[0]] + s[1..];
    }
  }

  /** Inserting into a sorted list keeps it sorted; the head becomes the smaller of `x` and the old head. */
  lemma {:induction false} InsertSorted(x: nat, s: seq<nat>)
    requires Sorted(s)
    ensures Sorted(Insert(x, s))
    ensures s != [] ==> Insert(x, s)[0] == if x <= s[0] then x else s[0]
  {
    if s != [] && x > s[0] {
      var rest := Insert(x, s[1..]);
      InsertSorted(x, s[1..]);
      assert s[0] <= rest[0];
      var r := [s[0]] + rest;
      forall i, j | 0 <= i < j < |r| ensures r[i] <= r[j] {
        assert r[j] == rest[j - 1];
        if i > 0 {
          assert r[i] == rest[i - 1];
        } else {
          assert rest[0] <= rest[j - 1];
        }
      }
    }
  }

  /** list.sort(): the zones in ascending order, every occurrence kept. */
  function SortZones(s: seq<nat>): (r: seq<nat>)
    ensures Sorted(r) && |r| == |s|
  {
    if s == [] then []
    else
      var rest := SortZones(s[1..]);
      InsertSorted(s[0], rest);
      Insert(s[0], rest)
  }

  /** Sorting keeps every occurrence: the result is a permutation of the input. */
  lemma {:induction false} SortZonesPermutes(s: seq<nat>)
    ensures multiset(SortZones(s)) == multiset(s)
  {
    if s != [] {
      SortZonesPermutes(s[1..]);
      InsertPermutes(s[0], SortZones(s[1..]));
      assert s == [s[0]] + s[1..];
    }
  }

  /** Drop repeated neighbours of a sorted list. */
  function DropRepeats(s: seq<nat>): (r: seq<nat>)
    requires Sorted(s)
    ensures StrictlySorted(r)
    ensures forall x :: x in r <==> x in s
    ensures |r| > 0 ==> |s| > 0 && r[0] == s[0]
  {
    if |s| <= 1 then s
    else
      var rest := DropRepeats(s[1..]);
      if s[0] == s[1] then
        assert s[1] in s[1..];
        rest
      else
        assert s == [s[0]] + s[1..];
        [s[0]] + rest
  }

  /** The zones an add request carries in the source: sorted, every occurrence kept. */
  function SentZones(zones: ZoneSpec): (r: seq<nat>)
    ensures zones.OneZone? ==> r == [zones.zone]
    ensures zones.ZoneList? ==> Sorted(r) && multiset(r) == multiset(zones.zones)
  {
    match zones
    case OneZone(z) => [z]
    case ZoneList(zs) => SortZonesPermutes(zs); SortZones(zs)
  }

  /** The zones an add request is meant to carry: each requested zone once, ascending. */
  function UniqueSentZones(zones: ZoneSpec): (r: seq<nat>)
    ensures zones.OneZone? ==> r == [zones.zone]
    ensures zones.ZoneList? ==> StrictlySorted(r) && forall z :: z in r <==> z in zones.zones
  {
    match zones
    case OneZone(z) => [z]
    case ZoneList(zs) =>
      var sorted := SortZones(zs);
      SortZonesPermutes(zs);
      assert forall z :: z in sorted <==> z in multiset(sorted);
      DropRepeats(sorted)
  }

  /** Each value as a 32-bit datagram field. */
  function ToU32(s: seq<nat>): (r: seq<Field>)
    ensures |r| == |s| && forall i :: 0 <= i < |s| ==> r[i] == U32(s[i])
  {
    if s == [] then [] else [U32(s[0])] + ToU32(s[1..])
  }

  /**
   * The add request: message type, handle, scope and parent, then the zones,
   * each requested zone once in ascending order; parent 0 is refused.
   */
  function AddInterestMessage(handle: nat, scopeId: nat, parentId: nat, zones: ZoneSpec): (r: Result<seq<Field>, MessageError>)
    ensures r.Err? <==> parentId == 0
    ensures r.Ok? ==> |r.value| >= 4 && r.value[..4] == [Tag(ClientAddInterest), U16(handle), U32(scopeId), U32(parentId)]
    ensures r.Ok? ==> r.value[4..] == ToU32(UniqueSentZones(zones))
  {
    if parentId == 0 then Err(InvalidParent)
    else
      var header := [Tag(ClientAddInterest), U16(handle), U32(scopeId), U32(parentId)];
      var m := header + ToU32(UniqueSentZones(zones));
      assert m[..4] == header && m[4..] == ToU32(UniqueSentZones(zones));
      Ok(m)
  }

  /** The remove request: the scope is carried only when there is one. */
  function RemoveInterestMessage(handle: nat, scopeId: nat): (r: seq<Field>)
    ensures |r| == 3 <==> scopeId != NO_SCOPE
    ensures |r| >= 2 && r[..2] == [Tag(ClientRemoveInterest), U16(handle)]
    ensures scopeId != NO_SCOPE ==> r[2] == U32(scopeId)
  {
    if scopeId != NO_SCOPE then [Tag(ClientRemoveInterest), U16(handle), U32(scopeId)]
    else [Tag(ClientRemoveInterest), U16(handle)]
  }

  /** A step of AddInterestKeepsRepeatedZones: [5, 2] sorts to [2, 5]. */
  lemma SortTwo()
    ensures SortZones([5, 2]) == [2, 5]
  {
    assert [5, 2][1..] == [2] && [2][1..] == [];
    assert SortZones([2]) == Insert(2, []) == [2];
    assert Insert(5, [2]) == [2] + Insert(5, []);
  }

  /** A step of AddInterestKeepsRepeatedZones: [5, 5, 2] sorts to [2, 5, 5]. */
  lemma SortThree()
    ensures SortZones([5, 5, 2]) == [2, 5, 5]
  {
    SortTwo();
    assert [5, 5, 2][1..] == [5, 2] && [2, 5][1..] == [5];
    assert Insert(5, [5]) == [5, 5];
    assert Insert(5, [2, 5]) == [2] + Insert(5, [5]);
  }

  /**
   * The zone list [2, 5, 5, 2] goes out as 2, 2, 5, 5: sorted, but with the
   * repeats that uniqueElements (a test whose result is discarded) does not remove.
   */
  lemma AddInterestKeepsRepeatedZones()
    ensures SentZones(ZoneList([2, 5, 5, 2])) == [2, 2, 5, 5]
  {
    SortThree();
    var l255: seq<nat> := [2, 5, 5];
    assert [2, 5, 5, 2][1..] == [5, 5, 2];
    assert l255[0] == 2;
    assert Insert(2, l255) == [2] + l255;
  }

  /** A step of UniqueZonesDropRepeats: [2, 2, 5, 5] without repeats is [2, 5]. */
  lemma DropRepeatsExample()
    ensures DropRepeats([2, 2, 5, 5]) == [2, 5]
  {
    var l2255: seq<nat> := [2, 2, 5, 5];
    var l255: seq<nat> := [2, 5, 5];
    assert l2255[1..] == l255 && l2255[0] == l2255[1];
    assert l255[1..] == [5, 5] && l255[0] != l255[1];
    assert [5, 5][1..] == [5];
    assert DropRepeats([5, 5]) == DropRepeats([5]) == [5];
    assert DropRepeats(l255) == [2] + DropRepeats([5, 5]);
  }

  /** The intended request for the same list carries 2, 5. */
  lemma UniqueZonesDropRepeats()
    ensures UniqueSentZones(ZoneList([2, 5, 5, 2])) == [2, 5]
  {
    AddInterestKeepsRepeatedZones();
    DropRepeatsExample();
  }
}
