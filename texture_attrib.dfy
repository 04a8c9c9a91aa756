/**
 * TextureAttrib: which texture each texture stage applies, and whether the
 * attrib sets, adds or removes those stages.  The stage -> texture map is an
 * ordered map keyed by stage pointer; it is modelled as a sequence of entries
 * strictly increasing by stage, pointers being addresses.
 */
module TextureAttribModel {
  import opened Wrappers

  datatype Operation = OSet | OAdd | ORemove

  /** The enum's integer value, as used by compare_to_impl. */
  function OpIndex(op: Operation): (n: int)
    ensures 0 <= n <= 2
    ensures op.OSet? <==> n == 0
    ensures op.ORemove? <==> n == 2
  {
    match op
    case OSet => 0
    case OAdd => 1
    case ORemove => 2
  }

  /** One entry of the map: a stage and the texture applied on it. */
  datatype Entry = Entry(stage: nat, tex: nat)

  /**
   * An attrib: its operation, the stage list in the order it was built, and
   * the stage -> texture map.
   */
  datatype TexAttrib = TexAttrib(operation: Operation, stages: seq<nat>, textures: seq<Entry>)

  /** The map's entries are in strictly increasing stage order. */
  ghost predicate Sorted(m: seq<Entry>)
  {
    forall i, j :: 0 <= i < j < |m| ==> m[i].stage < m[j].stage
  }

  ghost predicate WellFormed(a: TexAttrib)
  {
    Sorted(a.textures)
  }

  /** The texture the map gives a stage, if it has the stage. */
  function Find(m: seq<Entry>, s: nat): Option<nat>
  {
    if m == [] then None
    else if m[0].stage == s then Some(m[0].tex)
    else Find(m[1..], s)
  }

  /** The stages of a map, in map order. */
  function Keys(m: seq<Entry>): (ks: seq<nat>)
    ensures |ks| == |m| && forall k :: 0 <= k < |m| ==> ks[k] == m[k].stage
  {
    seq(|m|, k requires 0 <= k < |m| => m[k].stage)
  }

  /** A stage below the first key of a sorted map is not in it. */
  lemma {:induction false} FindBelow(m: seq<Entry>, s: nat)
    requires Sorted(m) && m != [] && s < m[0].stage
    ensures Find(m, s).None?
  {
    if |m| > 1 {
      assert m[1..][0] == m[1];
      FindBelow(m[1..], s);
    }
  }

  // ---------------------------------------------------------------------------
  // make_all_off and output
  // ---------------------------------------------------------------------------

  /** make_all_off: a set of no stages at all. */
  function MakeAllOff(): (r: TexAttrib)
    ensures r.operation.OSet? && OutputLabel(r) == "all off"
    ensures forall s :: Find(r.textures, s).None?
  {
    TexAttrib(OSet, [], [])
  }

  /** The word output prints after the type name (stage names left out). */
  function OutputLabel(a: TexAttrib): (r: string)
    ensures r == "all off" <==> a.operation.OSet? && a.stages == []
  {
    if a.operation.OSet? && a.stages == [] then "all off"
    else match a.operation
      case OSet => "set"
      case OAdd => "add"
      case ORemove => "remove"
  }

  // ---------------------------------------------------------------------------
  // compare_to_impl
  // ---------------------------------------------------------------------------

  /** The ordering of two maps walked side by side: stage, then texture, then length. */
  function CompareEntries(x: seq<Entry>, y: seq<Entry>): int
  {
    if x == [] && y == [] then 0
    else if y == [] then 1
    else if x == [] then -1
    else if x[0].stage != y[0].stage then (if x[0].stage < y[0].stage then -1 else 1)
    else if x[0].tex != y[0].tex then (if x[0].tex < y[0].tex then -1 else 1)
    else CompareEntries(x[1..], y[1..])
  }

  /** The ordering compare_to_impl defines: operation first, then the maps. */
  function CompareSpec(a: TexAttrib, b: TexAttrib): int
  {
    if a.operation != b.operation then OpIndex(a.operation) - OpIndex(b.operation)
    else CompareEntries(a.textures, b.textures)
  }

  /** compare_to_impl: the maps are walked in step until one differs or runs out. */
  method CompareTo(a: TexAttrib, b: TexAttrib) returns (c: int)
    ensures c == CompareSpec(a, b)
  {
    if a.operation != b.operation {
      return OpIndex(a.operation) - OpIndex(b.operation);
    }
    var x, y := a.textures, b.textures;
    var i := 0;
    while i < |x| && i < |y|
      invariant 0 <= i <= |x| && 0 <= i <= |y|
      invariant CompareEntries(x[i..], y[i..]) == CompareEntries(x, y)
    {
      if x[i].stage != y[i].stage {
        return if x[i].stage < y[i].stage then -1 else 1;
      }
      if x[i].tex != y[i].tex {
        return if x[i].tex < y[i].tex then -1 else 1;
      }
      assert x[i..][1..] == x[i + 1..] && y[i..][1..] == y[i + 1..];
      i := i + 1;
    }
    if i < |x| {
      return 1;
    }
    if i < |y| {
      return -1;
    }
    assert x[i..] == [] && y[i..] == [];
    c := 0;
  }

  /** Two maps compare equal exactly when they are the same map. */
  lemma {:induction false} CompareEntriesZero(x: seq<Entry>, y: seq<Entry>)
    ensures CompareEntries(x, y) == 0 <==> x == y
  {
    if x != [] && y != [] && x[0] == y[0] {
      CompareEntriesZero(x[1..], y[1..]);
      if x[1..] == y[1..] {
        assert x == [x[0]] + x[1..] && y == [y[0]] + y[1..];
      }
    }
  }

  /** Swapping the arguments negates the result. */
  lemma {:induction false} CompareEntriesSwap(x: seq<Entry>, y: seq<Entry>)
    ensures CompareEntries(x, y) == -CompareEntries(y, x)
  {
    if x != [] && y != [] && x[0] == y[0] {
      CompareEntriesSwap(x[1..], y[1..]);
    }
  }

  /**
   * compare_to_impl is 0 exactly for equal operations and maps (the stage
   * list is not compared), and it is antisymmetric.
   */
  lemma CompareSpecProperties(a: TexAttrib, b: TexAttrib)
    ensures CompareSpec(a, b) == 0 <==> a.operation == b.operation && a.textures == b.textures
    ensures CompareSpec(a, b) == -CompareSpec(b, a)
  {
    CompareEntriesZero(a.textures, b.textures);
    CompareEntriesSwap(a.textures, b.textures);
  }

  // ---------------------------------------------------------------------------
  // do_add and do_remove
  // ---------------------------------------------------------------------------

  /** The merge do_add performs: every stage of either map, self's texture winning. */
  function Union(a: seq<Entry>, b: seq<Entry>): seq<Entry>
    decreases |a| + |b|
  {
    if a == [] then b
    else if b == [] then a
    else if a[0].stage < b[0].stage then [a[0]] + Union(a[1..], b)
    else if b[0].stage < a[0].stage then [b[0]] + Union(a, b[1..])
    else [a[0]] + Union(a[1..], b[1..])
  }

  /** The merge do_remove performs: the stages of self that other lacks. */
  function Difference(a: seq<Entry>, b: seq<Entry>): seq<Entry>
    decreases |a| + |b|
  {
    if a == [] then []
    else if b == [] then a
    else if a[0].stage < b[0].stage then [a[0]] + Difference(a[1..], b)
    else if b[0].stage < a[0].stage then Difference(a, b[1..])
    else Difference(a[1..], b[1..])
  }

  /** A stage finds self's texture in the union if self has one, other's otherwise. */
  lemma {:induction false} UnionFind(a: seq<Entry>, b: seq<Entry>, s: nat)
    requires Sorted(a)
    decreases |a| + |b|
    ensures Find(Union(a, b), s) == if Find(a, s).Some? then Find(a, s) else Find(b, s)
  {
    if a != [] && b != [] {
      if a[0].stage < b[0].stage {
        UnionFind(a[1..], b, s);
      } else if b[0].stage < a[0].stage {
        UnionFind(a, b[1..], s);
        if s == b[0].stage {
          FindBelow(a, s);
        }
      } else {
        UnionFind(a[1..], b[1..], s);
      }
    }
  }

  /** Every entry of the union comes from one of the inputs. */
  lemma {:induction false} UnionFrom(a: seq<Entry>, b: seq<Entry>)
    decreases |a| + |b|
    ensures forall e :: e in Union(a, b) ==> e in a || e in b
  {
    if a != [] && b != [] {
      if a[0].stage < b[0].stage {
        UnionFrom(a[1..], b);
      } else if b[0].stage < a[0].stage {
        UnionFrom(a, b[1..]);
      } else {
        UnionFrom(a[1..], b[1..]);
      }
    }
  }

  /** The union of two sorted maps is sorted. */
  lemma {:induction false} UnionSorted(a: seq<Entry>, b: seq<Entry>)
    requires Sorted(a) && Sorted(b)
    decreases |a| + |b|
    ensures Sorted(Union(a, b))
  {
    if a != [] && b != [] {
      var u := Union(a, b);
      var head, rest, a', b' := a[0], [], a, b;
      if a[0].stage < b[0].stage {
        a' := a[1..];
      } else if b[0].stage < a[0].stage {
        head, b' := b[0], b[1..];
      } else {
        a', b' := a[1..], b[1..];
      }
      rest := Union(a', b');
      assert u == [head] + rest;
      UnionSorted(a', b');
      UnionFrom(a', b');
      forall k | 0 <= k < |rest|
        ensures head.stage < rest[k].stage
      {
        assert rest[k] in a' || rest[k] in b';
      }
    }
  }

  /** The difference holds self's texture exactly for the stages other lacks. */
  lemma {:induction false} DifferenceFind(a: seq<Entry>, b: seq<Entry>, s: nat)
    requires Sorted(a) && Sorted(b)
    decreases |a| + |b|
    ensures Find(Difference(a, b), s) == if Find(b, s).Some? then None else Find(a, s)
  {
    if a != [] && b != [] {
      if a[0].stage < b[0].stage {
        DifferenceFind(a[1..], b, s);
        if s == a[0].stage {
          FindBelow(b, s);
        }
      } else if b[0].stage < a[0].stage {
        DifferenceFind(a, b[1..], s);
        if s == b[0].stage {
          FindBelow(a, s);
        }
      } else {
        DifferenceFind(a[1..], b[1..], s);
        if s == a[0].stage && |a| > 1 {
          FindBelow(a[1..], s);
        }
      }
    }
  }

  /** Every entry of the difference is an entry of self. */
  lemma {:induction false} DifferenceFrom(a: seq<Entry>, b: seq<Entry>)
    decreases |a| + |b|
    ensures forall e :: e in Difference(a, b) ==> e in a
  {
    if a != [] && b != [] {
      if a[0].stage < b[0].stage {
        DifferenceFrom(a[1..], b);
      } else if b[0].stage < a[0].stage {
        DifferenceFrom(a, b[1..]);
      } else {
        DifferenceFrom(a[1..], b[1..]);
      }
    }
  }

  /** The difference of a sorted map is sorted. */
  lemma {:induction false} DifferenceSorted(a: seq<Entry>, b: seq<Entry>)
    requires Sorted(a) && Sorted(b)
    decreases |a| + |b|
    ensures Sorted(Difference(a, b))
  {
    if a != [] && b != [] {
      if a[0].stage < b[0].stage {
        var rest := Difference(a[1..], b);
        DifferenceSorted(a[1..], b);
        DifferenceFrom(a[1..], b);
        forall k | 0 <= k < |rest|
          ensures a[0].stage < rest[k].stage
        {
          assert rest[k] in a[1..];
        }
      } else if b[0].stage < a[0].stage {
        DifferenceSorted(a, b[1..]);
      } else {
        DifferenceSorted(a[1..], b[1..]);
      }
    }
  }

  /** Both merges of sorted maps are sorted, and each gives the stages their intended textures. */
  lemma MergeFacts(a: seq<Entry>, b: seq<Entry>)
    requires Sorted(a) && Sorted(b)
    ensures Sorted(Union(a, b)) && Sorted(Difference(a, b))
    ensures forall s :: Find(Union(a, b), s) == if Find(a, s).Some? then Find(a, s) else Find(b, s)
    ensures forall s :: Find(Difference(a, b), s) == if Find(b, s).Some? then None else Find(a, s)
  {
    UnionSorted(a, b);
    DifferenceSorted(a, b);
    forall s ensures Find(Union(a, b), s) == if Find(a, s).Some? then Find(a, s) else Find(b, s) {
      UnionFind(a, b, s);
    }
    forall s ensures Find(Difference(a, b), s) == if Find(b, s).Some? then None else Find(a, s) {
      DifferenceFind(a, b, s);
    }
  }

  /** One step of the do_add merge at positions i and j. */
  lemma UnionUnfold(x: seq<Entry>, y: seq<Entry>, i: nat, j: nat)
    requires i <= |x| && j <= |y| && (i < |x| || j < |y|)
    ensures Union(x[i..], y[j..]) ==
      if j == |y| || (i < |x| && x[i].stage < y[j].stage) then [x[i]] + Union(x[i + 1..], y[j..])
      else if i == |x| || y[j].stage < x[i].stage then [y[j]] + Union(x[i..], y[j + 1..])
      else [x[i]] + Union(x[i + 1..], y[j + 1..])
  {
    if i < |x| {
      assert x[i..][1..] == x[i + 1..];
    }
    if j < |y| {
      assert y[j..][1..] == y[j + 1..];
    }
    if j == |y| {
      assert x[i..] == [x[i]] + x[i + 1..];
    } else if i == |x| {
      assert y[j..] == [y[j]] + y[j + 1..];
    }
  }

  /** One step of the do_remove merge at positions i and j. */
  lemma DifferenceUnfold(x: seq<Entry>, y: seq<Entry>, i: nat, j: nat)
    requires i < |x| && j <= |y|
    ensures Difference(x[i..], y[j..]) ==
      if j == |y| || x[i].stage < y[j].stage then [x[i]] + Difference(x[i + 1..], y[j..])
      else if y[j].stage < x[i].stage then Difference(x[i..], y[j + 1..])
      else Difference(x[i + 1..], y[j + 1..])
  {
    assert x[i..][1..] == x[i + 1..];
    if j < |y| {
      assert y[j..][1..] == y[j + 1..];
    } else {
      assert x[i..] == [x[i]] + x[i + 1..];
    }
  }

  /** The attrib do_add builds: the union, its stage list in map order. */
  function Added(a: TexAttrib, b: TexAttrib, op: Operation): TexAttrib
  {
    var m := Union(a.textures, b.textures);
    TexAttrib(op, Keys(m), m)
  }

  /** The attrib do_remove builds. */
  function Removed(a: TexAttrib, b: TexAttrib, op: Operation): TexAttrib
  {
    var m := Difference(a.textures, b.textures);
    TexAttrib(op, Keys(m), m)
  }

  /** Once either map is used up, the union is the rest of the other. */
  lemma UnionEmpty(a: seq<Entry>, b: seq<Entry>)
    requires a == [] || b == []
    ensures Union(a, b) == a + b
  {
  }

  /** Once other is used up, the difference is the rest of self; once self is, it is empty. */
  lemma DifferenceRest(a: seq<Entry>, b: seq<Entry>)
    requires a == [] || b == []
    ensures Difference(a, b) == a
  {
  }

  /** Moving the head of what is left onto what is built keeps the whole. */
  lemma {:induction false} AppendStep(m: seq<Entry>, e: Entry, rest: seq<Entry>, whole: seq<Entry>)
    requires m + ([e] + rest) == whole
    ensures (m + [e]) + rest == whole
  {
    assert (m + [e]) + rest == m + ([e] + rest);
  }

  /** do_add: merge the two maps, taking self's entry where both have the stage. */
  method DoAdd(a: TexAttrib, b: TexAttrib, op: Operation) returns (r: TexAttrib)
    ensures r == Added(a, b, op)
  {
    var x, y := a.textures, b.textures;
    ghost var whole := Union(x, y);
    var m: seq<Entry> := [];
    var stages: seq<nat> := [];
    var i, j := 0, 0;
    while i < |x| && j < |y|
      invariant 0 <= i <= |x| && 0 <= j <= |y|
      invariant m + Union(x[i..], y[j..]) == whole
      invariant stages == Keys(m)
      decreases |x| - i + |y| - j
    {
      UnionUnfold(x, y, i, j);
      if x[i].stage < y[j].stage {
        AppendStep(m, x[i], Union(x[i + 1..], y[j..]), whole);
        m, stages := m + [x[i]], stages + [x[i].stage];
        i := i + 1;
      } else if y[j].stage < x[i].stage {
        AppendStep(m, y[j], Union(x[i..], y[j + 1..]), whole);
        m, stages := m + [y[j]], stages + [y[j].stage];
        j := j + 1;
      } else {
        AppendStep(m, x[i], Union(x[i + 1..], y[j + 1..]), whole);
        m, stages := m + [x[i]], stages + [x[i].stage];
        i, j := i + 1, j + 1;
      }
    }
    UnionEmpty(x[i..], y[j..]);
    m, stages := CopyRest(m, stages, x[i..]);
    m, stages := CopyRest(m, stages, y[j..]);
    assert m == whole;
    r := TexAttrib(op, stages, m);
  }

  /** The tail loops of the merges: copy the entries still left on one side. */
  method CopyRest(m0: seq<Entry>, stages0: seq<nat>, rest: seq<Entry>) returns (m: seq<Entry>, stages: seq<nat>)
    requires stages0 == Keys(m0)
    ensures m == m0 + rest && stages == Keys(m)
  {
    m, stages := m0, stages0;
    var k := 0;
    while k < |rest|
      invariant 0 <= k <= |rest|
      invariant m == m0 + rest[..k] && stages == Keys(m)
    {
      assert rest[..k + 1] == rest[..k] + [rest[k]];
      m, stages := m + [rest[k]], stages + [rest[k].stage];
      k := k + 1;
    }
    assert rest[..k] == rest;
  }

  /** do_remove: keep self's entries whose stage other does not have. */
  method DoRemove(a: TexAttrib, b: TexAttrib, op: Operation) returns (r: TexAttrib)
    ensures r == Removed(a, b, op)
  {
    var x, y := a.textures, b.textures;
    ghost var whole := Difference(x, y);
    var m: seq<Entry> := [];
    var stages: seq<nat> := [];
    var i, j := 0, 0;
    while i < |x| && j < |y|
      invariant 0 <= i <= |x| && 0 <= j <= |y|
      invariant m + Difference(x[i..], y[j..]) == whole
      invariant stages == Keys(m)
      decreases |x| - i + |y| - j
    {
      DifferenceUnfold(x, y, i, j);
      if x[i].stage < y[j].stage {
        AppendStep(m, x[i], Difference(x[i + 1..], y[j..]), whole);
        m, stages := m + [x[i]], stages + [x[i].stage];
        i := i + 1;
      } else if y[j].stage < x[i].stage {
        j := j + 1;
      } else {
        i, j := i + 1, j + 1;
      }
    }
    DifferenceRest(x[i..], y[j..]);
    m, stages := CopyRest(m, stages, x[i..]);
    r := TexAttrib(op, stages, m);
  }

  // ---------------------------------------------------------------------------
  // compose_impl and invert_compose_impl
  // ---------------------------------------------------------------------------

  /**
   * compose_impl: a set replaces everything; equal operations unite; a remove
   * applied to an add or set takes stages away; a remove followed by anything
   * else is replaced; the remaining mixes unite under self's operation.
   */
  function Compose(a: TexAttrib, b: TexAttrib): (r: TexAttrib)
    requires WellFormed(a) && WellFormed(b)
    ensures b.operation.OSet? ==> r == b
    ensures !b.operation.OSet? && a.operation.ORemove? && !b.operation.ORemove? ==> r == b
    ensures WellFormed(r)
    ensures !b.operation.OSet? && (a.operation == b.operation || (!a.operation.ORemove? && !b.operation.ORemove?)) ==>
      r.operation == a.operation &&
      forall s :: Find(r.textures, s) == if Find(a.textures, s).Some? then Find(a.textures, s) else Find(b.textures, s)
    ensures b.operation.ORemove? && !a.operation.ORemove? ==>
      r.operation == a.operation &&
      forall s :: Find(r.textures, s) == if Find(b.textures, s).Some? then None else Find(a.textures, s)
  {
    MergeFacts(a.textures, b.textures);
    if b.operation.OSet? then b
    else if a.operation == b.operation then Added(a, b, a.operation)
    else if b.operation.ORemove? then Removed(a, b, a.operation)
    else if a.operation.ORemove? then b
    else Added(a, b, a.operation)
  }

  /** invert_compose_impl: the other attrib always wins. */
  function InvertCompose(a: TexAttrib, b: TexAttrib): (r: TexAttrib)
    ensures r == b
  {
    b
  }

  /** Composing onto a remove, or with a set, agrees with the inverse composition. */
  lemma ComposeAgreesWithInvert(a: TexAttrib, b: TexAttrib)
    requires WellFormed(a) && WellFormed(b)
    requires b.operation.OSet? || (a.operation.ORemove? && !b.operation.ORemove?)
    ensures Compose(a, b) == InvertCompose(a, b)
  {
  }
}
