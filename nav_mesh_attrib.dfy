/**
 * The render attribute that marks geometry for navigation-mesh building:
 * whether it is switched off and which walkable area (0 to 255) it
 * belongs to.  Attributes are ordered by compare_to_impl and written to
 * and read from a datagram as a bool and an unsigned byte.
 */
module NavMeshAttribModel {

  type byte = x: int | 0 <= x < 256

  /** The attribute's value: the off flag and the area. */
  datatype Attrib = Attrib(off: bool, area: int)

  /** The area a freshly built attribute has when none is given. */
  const DefaultArea := 63

  /** The constructor's assertion: an area above 255 is reported (the attribute is still built). */
  predicate AreaAccepted(area: int)
  {
    area <= 255
  }

  // ---------------------------------------------------------------------
  // Ordering

  /**
   * compare_to_impl as written: the difference of the off flags when they
   * differ, and otherwise 1 when this area is the smaller and 0 when it is
   * not, so a larger area compares equal to a smaller one.
   */
  function CompareAsWritten(a: Attrib, b: Attrib): int
  {
    if a.off != b.off then (if a.off then 1 else 0) - (if b.off then 1 else 0)
    else if a.area < b.area then 1 else 0
  }

  /** As written the result is never negative when the off flags agree. */
  lemma CompareAsWrittenNonNegative(a: Attrib, b: Attrib)
    requires a.off == b.off
    ensures CompareAsWritten(a, b) >= 0
  {
  }

  /**
   * Areas 2 and 1 compare equal as written although the attributes
   * differ, while 1 against 2 gives 1: the comparison is not antisymmetric.
   */
  lemma CompareAsWrittenNotAntisymmetric()
    ensures CompareAsWritten(Attrib(false, 2), Attrib(false, 1)) == 0
    ensures CompareAsWritten(Attrib(false, 1), Attrib(false, 2)) == 1
    ensures Attrib(false, 2) != Attrib(false, 1)
  {
  }

  /** The comparison a render attribute needs: the off flag first, then the area, with a sign and not a truth value. */
  function Compare(a: Attrib, b: Attrib): (r: int)
    ensures r == 0 <==> a == b
    ensures -1 <= r <= 1
    ensures a.off != b.off ==> r == CompareAsWritten(a, b)
  {
    if a.off != b.off then (if a.off then 1 else 0) - (if b.off then 1 else 0)
    else if a.area < b.area then -1
    else if a.area > b.area then 1
    else 0
  }

  /** Swapping the two attributes flips the sign of the corrected comparison. */
  lemma CompareAntisymmetric(a: Attrib, b: Attrib)
    ensures Compare(a, b) == -Compare(b, a)
  {
  }

  /** The corrected comparison is transitive, so it orders the attributes totally. */
  lemma CompareTransitive(a: Attrib, b: Attrib, c: Attrib)
    requires Compare(a, b) < 0 && Compare(b, c) < 0
    ensures Compare(a, c) < 0
  {
  }

  /** The corrected comparison puts attributes that are on before those that are off, and smaller areas first. */
  lemma CompareOrder(a: Attrib, b: Attrib)
    ensures Compare(a, b) < 0 <==> (!a.off && b.off) || (a.off == b.off && a.area < b.area)
  {
  }

  // ---------------------------------------------------------------------
  // Datagrams

  /** The bytes write_datagram adds: the off flag as 0 or 1, then the area cut to an unsigned byte. */
  function Encode(a: Attrib): (bytes: seq<byte>)
    ensures |bytes| == 2
  {
    [if a.off then 1 else 0, a.area % 256]
  }

  /** One unsigned byte read at position i; past the end the read yields 0 and does not advance. */
  function ReadByte(data: seq<byte>, i: nat): (r: (byte, nat))
    ensures i < |data| ==> r == (data[i], i + 1)
    ensures i >= |data| ==> r == (0, i)
  {
    if i < |data| then (data[i], i + 1) else (0, i)
  }

  /** What fillin reads at position i: a bool (any non-zero byte is true), then an unsigned byte. */
  function Decode(data: seq<byte>, i: nat): (r: (Attrib, nat))
    ensures i + 2 <= |data| ==> r == (Attrib(data[i] != 0, data[i + 1]), i + 2)
  {
    var (b, j) := ReadByte(data, i);
    var (v, k) := ReadByte(data, j);
    (Attrib(b != 0, v), k)
  }

  /**
   * Writing then reading, wherever the attribute sits in the datagram,
   * gives back the off flag and the area modulo 256, and so the attribute
   * itself whenever its area is not negative and passes the
   * constructor's assertion.
   */
  lemma WriteFillinRoundTrip(prefix: seq<byte>, a: Attrib, suffix: seq<byte>)
    ensures Decode(prefix + Encode(a) + suffix, |prefix|) == (Attrib(a.off, a.area % 256), |prefix| + 2)
    ensures 0 <= a.area && AreaAccepted(a.area) ==> Decode(prefix + Encode(a) + suffix, |prefix|).0 == a
  {
    var data := prefix + Encode(a) + suffix;
    assert data[|prefix|] == Encode(a)[0];
    assert data[|prefix| + 1] == Encode(a)[1];
  }

  /** An area above 255 is not read back: 256 becomes 0. */
  lemma LargeAreaTruncated()
    ensures Decode(Encode(Attrib(false, 256)), 0).0 == Attrib(false, 0)
  {
    WriteFillinRoundTrip([], Attrib(false, 256), []);
  }

  /** A datagram being written. */
  class Datagram {
    var data: seq<byte>

    constructor ()
      ensures data == []
    {
      data := [];
    }

    method AddBool(b: bool)
      modifies this
      ensures data == old(data) + [if b then 1 else 0]
    {
      data := data + [if b then 1 else 0];
    }

    /** The value is converted to an unsigned byte. */
    method AddUint8(v: int)
      modifies this
      ensures data == old(data) + [v % 256]
    {
      data := data + [v % 256];
    }
  }

  /** A datagram being read, with the position of the next byte. */
  class DatagramIterator {
    var data: seq<byte>
    var index: nat

    constructor (data: seq<byte>)
      ensures this.data == data && index == 0
    {
      this.data := data;
      index := 0;
    }

    method GetUint8() returns (v: byte)
      modifies this
      ensures (v, index) == ReadByte(data, old(index))
      ensures data == old(data)
    {
      if index < |data| {
        v := data[index];
        index := index + 1;
      } else {
        v := 0;
      }
    }

    method GetBool() returns (b: bool)
      modifies this
      ensures (b, index) == (ReadByte(data, old(index)).0 != 0, ReadByte(data, old(index)).1)
      ensures data == old(data)
    {
      var v := GetUint8();
      b := v != 0;
    }
  }

  class NavMeshAttrib {
    var off: bool
    var area: int

    function Value(): Attrib
      reads this
    {
      Attrib(off, area)
    }

    /** The attribute with the given flag and area; AreaAccepted says when the constructor's assertion holds. */
    constructor (off: bool, area: int)
      ensures Value() == Attrib(off, area)
    {
      this.off := off;
      this.area := area;
    }

    /** set_area: a new attribute that differs from this one only in its area. */
    method SetArea(area: int) returns (a: NavMeshAttrib)
      ensures fresh(a)
      ensures a.Value() == Value().(area := area)
    {
      a := new NavMeshAttrib(off, this.area);
      a.area := area;
    }

    /** write_datagram: appends the off flag and the area. */
    method WriteDatagram(dg: Datagram)
      modifies dg
      ensures dg.data == old(dg.data) + Encode(Value())
    {
      dg.AddBool(off);
      dg.AddUint8(area);
    }

    /** fillin: reads the off flag and the area back. */
    method Fillin(scan: DatagramIterator)
      modifies this, scan
      ensures (Value(), scan.index) == Decode(old(scan.data), old(scan.index))
      ensures scan.data == old(scan.data)
    {
      off := scan.GetBool();
      var v := scan.GetUint8();
      area := v;
    }
  }

  /** make: an attribute that is on, with the given area. */
  method Make(area: int) returns (a: NavMeshAttrib)
    ensures fresh(a) && a.Value() == Attrib(false, area)
  {
    a := new NavMeshAttrib(false, area);
  }

  /** make_off: an attribute that is off, with area 0. */
  method MakeOff() returns (a: NavMeshAttrib)
    ensures fresh(a) && a.Value() == Attrib(true, 0)
  {
    a := new NavMeshAttrib(true, 0);
  }

  /** make_default: an attribute that is on, with the default area. */
  method MakeDefault() returns (a: NavMeshAttrib)
    ensures fresh(a) && a.Value() == Attrib(false, DefaultArea)
  {
    a := new NavMeshAttrib(false, DefaultArea);
  }

  /**
   * make_from_bam: a default attribute filled in from the datagram.
   */
  method MakeFromBam(scan: DatagramIterator) returns (a: NavMeshAttrib)
    modifies scan
    ensures fresh(a)
    ensures (a.Value(), scan.index) == Decode(old(scan.data), old(scan.index))
  {
    a := new NavMeshAttrib(false, DefaultArea);
    a.Fillin(scan);
  }
}
