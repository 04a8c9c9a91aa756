/**
 * P3DMultifileReader: the plugin's reader for Panda3D Multifiles.  A
 * Multifile starts with the six magic bytes "pmf\0\n\r" (optionally preceded
 * by '#' lines of text), a version 1.1, a scale factor 1 and a timestamp,
 * followed by a chain of index entries, each pointing at the next; entry
 * names are stored xor 0xff.  The open file is a byte sequence read through a
 * stream position and a sticky failure flag.
 */
module MultifileReaderModel {
  import opened Wrappers

  /** A byte of the file; the source's unsigned chars. */
  type byte = b: int | 0 <= b < 0x100

  /** istream::get() at end of file. */
  const EOF: int := -1

  /** The magic header "pmf\0\n\r". */
  const MAGIC: seq<byte> := [0x70, 0x6d, 0x66, 0x00, 0x0a, 0x0d]
  const HASH: byte := 0x23
  const NEWLINE: byte := 0x0a
  const CURRENT_MAJOR_VER: nat := 1
  const CURRENT_MINOR_VER: nat := 1
  /** extract_subfile copies through a buffer of this many bytes. */
  const BUFFER_SIZE: nat := 1024

  /** A subfile the index lists: where its data starts, how long it is, when it was written and its name. */
  datatype Subfile = Subfile(start: nat, length: nat, timestamp: nat, filename: seq<byte>)

  /** The fields of one index entry, its flags and the position just past its name. */
  datatype Entry = Entry(sub: Subfile, flags: nat, end: nat)

  /** isspace in the C locale, which includes '\r'. */
  predicate IsSpace(b: byte)
  {
    b == 0x20 || 0x09 <= b <= 0x0d
  }

  function Min(a: nat, b: nat): nat { if a <= b then a else b }

  /** A little-endian 16-bit value. */
  function U16(data: seq<byte>, p: nat): (r: nat)
    requires p + 2 <= |data|
    ensures r < 0x1_0000
  {
    data[p] as int + 0x100 * data[p + 1] as int
  }

  /** A little-endian 32-bit value. */
  function U32(data: seq<byte>, p: nat): (r: nat)
    requires p + 4 <= |data|
    ensures r < 0x1_0000_0000
  {
    U16(data, p) + 0x1_0000 * U16(data, p + 2)
  }

  /** The two bytes, low first, of a 16-bit value. */
  function LE16(v: nat): (r: seq<byte>)
    requires v < 0x1_0000
    ensures |r| == 2 && U16(r, 0) == v
  {
    [v % 0x100, v / 0x100]
  }

  /** The four bytes, low first, of a 32-bit value. */
  function LE32(v: nat): (r: seq<byte>)
    requires v < 0x1_0000_0000
    ensures |r| == 4 && U32(r, 0) == v
  {
    LE16(v % 0x1_0000) + LE16(v / 0x1_0000)
  }

  /** A byte xored with 0xff: every bit flipped, which for a byte is 255 minus it. */
  function Flip(b: byte): byte
  {
    0xff - b
  }

  /** Names are stored with every byte xored with 0xff. */
  function Unxored(s: seq<byte>): (r: seq<byte>)
    ensures |r| == |s| && forall i :: 0 <= i < |s| ==> r[i] == Flip(s[i])
  {
    seq(|s|, i requires 0 <= i < |s| => Flip(s[i]))
  }

  /** Xoring twice gives the name back, so the writer's encoding and the reader's decoding are inverse. */
  lemma UnxorInvolution(s: seq<byte>)
    ensures Unxored(Unxored(s)) == s
  {
    assert forall i :: 0 <= i < |s| ==> Unxored(Unxored(s))[i] == s[i];
  }

  /** The flag bits 0x18 (compressed or encrypted) add an uncompressed length field to the entry. */
  predicate HasLengthField(flags: nat)
    requires flags < 0x1_0000
  {
    (flags / 8) % 4 != 0
  }

  /** The position of the first '\n' at or after p, or the end of the data. */
  function LineEnd(data: seq<byte>, p: nat): (r: nat)
    requires p <= |data|
    ensures p <= r <= |data| && (r < |data| ==> data[r] == NEWLINE)
    ensures forall k :: p <= k < r ==> data[k] != NEWLINE
    decreases |data| - p
  {
    if p == |data| || data[p] == NEWLINE then p else LineEnd(data, p + 1)
  }

  /** The position of the first byte at or after p that is not white space, or the end of the data. */
  function NonSpace(data: seq<byte>, p: nat): (r: nat)
    requires p <= |data|
    ensures p <= r <= |data| && (r < |data| ==> !IsSpace(data[r]))
    ensures forall k :: p <= k < r ==> IsSpace(data[k])
    decreases |data| - p
  {
    if p == |data| || !IsSpace(data[p]) then p else NonSpace(data, p + 1)
  }

  /**
   * Having read a '#' with the stream at p: skip the rest of that line, then
   * the white space after it; if the next byte is another '#', do it again.
   * The result is the position just past the first byte that ends the
   * comments, or None when the file ends first.
   */
  function SkipComments(data: seq<byte>, p: nat): (r: Option<nat>)
    requires p <= |data|
    ensures r.Some? ==> p < r.value <= |data| && data[r.value - 1] != HASH && !IsSpace(data[r.value - 1])
    decreases |data| - p
  {
    var q1 := LineEnd(data, p);
    if q1 == |data| then None
    else
      var q2 := NonSpace(data, q1 + 1);
      if q2 == |data| then None
      else if data[q2] == HASH then SkipComments(data, q2 + 1)
      else Some(q2 + 1)
  }

  /** The position just past the magic bytes, when the file (after any '#' lines) starts with them. */
  function HeaderEnd(data: seq<byte>): (r: Option<nat>)
    ensures r.Some? ==> 6 <= r.value <= |data| && data[r.value - 6..r.value] == MAGIC
  {
    if |data| < 6 then None
    else if data[0] != HASH then (if data[..6] == MAGIC then Some(6) else None)
    else
      match SkipComments(data, 6)
      case None => None
      case Some(q) =>
        if q + 5 <= |data| && data[q - 1..q + 5] == MAGIC then Some(q + 5) else None
  }

  /** The index entry whose fields start at r (after its next-entry link), if the file holds all of it. */
  function ReadFields(data: seq<byte>, r: nat): (e: Option<Entry>)
    ensures e.Some? ==> r + 16 <= e.value.end <= |data| && e.value.flags < 0x1_0000
  {
    if r + 10 > |data| then None
    else
      var flags := U16(data, r + 8);
      var p := r + 10 + (if HasLengthField(flags) then 4 else 0);
      if p + 6 > |data| then None
      else
        var nameLength := U16(data, p + 4);
        if p + 6 + nameLength > |data| then None
        else
          var name := Unxored(data[p + 6..p + 6 + nameLength]);
          Some(Entry(Subfile(U32(data, r), U32(data, r + 4), U32(data, p), name), flags, p + 6 + nameLength))
  }

  /** Prepend the entries already read to the entries still to come. */
  function Prepend(acc: seq<Subfile>, rest: Option<seq<Subfile>>): Option<seq<Subfile>>
  {
    match rest
    case None => None
    case Some(s) => Some(acc + s)
  }

  /**
   * The index from the entry whose link e has been read and whose fields
   * start at r: an entry is kept when its flags are 0, the chain ends at a
   * zero link, and a link that does not lead past the current entry is
   * refused.
   */
  function ParseFrom(data: seq<byte>, e: nat, r: nat): Option<seq<Subfile>>
    requires r <= |data|
    decreases |data| - r
  {
    if e == 0 then Some([])
    else
      match ReadFields(data, r)
      case None => None
      case Some(en) =>
        if e < en.end || e + 4 > |data| then None
        else Prepend(if en.flags == 0 then [en.sub] else [], ParseFrom(data, U32(data, e), e + 4))
  }

  /** The index whose first link is at s. */
  function ParseIndex(data: seq<byte>, s: nat): Option<seq<Subfile>>
  {
    if s + 4 > |data| then None else ParseFrom(data, U32(data, s), s + 4)
  }

  /** The subfiles of a whole Multifile: header, version 1.1, scale 1, timestamp, then the index. */
  function ParseMultifile(data: seq<byte>): Option<seq<Subfile>>
  {
    match HeaderEnd(data)
    case None => None
    case Some(p) => AfterMagic(data, p)
  }

  /** What follows the magic bytes at p: the version, the scale, the timestamp and the index. */
  function AfterMagic(data: seq<byte>, p: nat): Option<seq<Subfile>>
  {
    if p + 4 > |data| || U16(data, p) != CURRENT_MAJOR_VER || U16(data, p + 2) != CURRENT_MINOR_VER then None
    else if p + 8 > |data| || U32(data, p + 4) != 1 then None
    else ParseIndex(data, p + 12)
  }

  /** How many bytes the file holds from position s on. */
  function Avail(data: seq<byte>, s: nat): nat
  {
    if s <= |data| then |data| - s else 0
  }

  /** The n bytes from s on, when the file holds them. */
  function Window(data: seq<byte>, s: nat, n: nat): (r: seq<byte>)
    requires n <= Avail(data, s)
    ensures |r| == n
  {
    if n == 0 then [] else data[s..s + n]
  }

  /** Two adjacent windows make one. */
  lemma WindowConcat(data: seq<byte>, s: nat, a: nat, b: nat)
    requires a + b <= Avail(data, s)
    ensures Window(data, s, a) + Window(data, s + a, b) == Window(data, s, a + b)
  {
    if a > 0 && b > 0 {
      assert data[s..s + a] + data[s + a..s + a + b] == data[s..s + a + b];
    }
  }

  /** The first subfile with the given name. */
  function Lookup(subs: seq<Subfile>, name: seq<byte>): (r: Option<Subfile>)
    ensures r.Some? ==> r.value in subs && r.value.filename == name
    ensures r.None? <==> forall i :: 0 <= i < |subs| ==> subs[i].filename != name
  {
    if subs == [] then None
    else if subs[0].filename == name then Some(subs[0])
    else Lookup(subs[1..], name)
  }

  lemma PrependNothing(rest: Option<seq<Subfile>>)
    ensures Prepend([], rest) == rest
  {
    if rest.Some? {
      assert [] + rest.value == rest.value;
    }
  }

  /** How a walk along the index chain ends: with the entries, with a failed read, or not within the rounds allowed. */
  datatype Walk = Done(subs: seq<Subfile>) | Failed | Unfinished

  /**
   * The loop of read_index as written: after each entry it seeks to the
   * link, wherever that points, and goes on until a zero link or a failed
   * read.  The rounds are bounded by fuel so that the walk can be stated
   * for chains that never end.
   */
  function AsWrittenFrom(data: seq<byte>, e: nat, r: nat, fuel: nat): Walk
    decreases fuel
  {
    if e == 0 then Done([])
    else if fuel == 0 then Unfinished
    else
      match ReadFields(data, r)
      case None => Failed
      case Some(en) =>
        if e + 4 > |data| then Failed
        else
          match AsWrittenFrom(data, U32(data, e), e + 4, fuel - 1)
          case Done(rest) => Done((if en.flags == 0 then [en.sub] else []) + rest)
          case w => w
  }

  /**
   * On every chain the corrected reader accepts, the loop as written, given
   * one round per byte after the first entry's fields, ends the same way
   * with the same entries: the check on the link changes only files whose
   * chain turns back.
   */
  lemma {:induction false} AgreesWhenForward(data: seq<byte>, e: nat, r: nat, fuel: nat)
    requires r <= |data| && ParseFrom(data, e, r).Some? && fuel > |data| - r
    ensures AsWrittenFrom(data, e, r, fuel) == Done(ParseFrom(data, e, r).value)
    decreases |data| - r
  {
    if e != 0 {
      var en := ReadFields(data, r).value;
      var kept := if en.flags == 0 then [en.sub] else [];
      var rest := ParseFrom(data, U32(data, e), e + 4);
      assert ParseFrom(data, e, r) == Prepend(kept, rest);
      AgreesWhenForward(data, U32(data, e), e + 4, fuel - 1);
    }
  }

  /** A 38-byte Multifile whose single index entry, at offset 18, links to itself. */
  function SelfLinked(): (f: seq<byte>)
    ensures |f| == 38
  {
    [0x70, 0x6d, 0x66, 0x00, 0x0a, 0x0d, 1, 0, 1, 0, 1, 0, 0, 0, 0, 0, 0, 0,
     18, 0, 0, 0, 0, 0, 0, 0, 0, 0, 0, 0, 0, 0, 0, 0, 0, 0, 0, 0]
  }

  /** The self-linked file passes the header, version and scale checks, and its entry is a plain, empty-named subfile that links back to itself. */
  lemma SelfLinkedLayout()
    ensures HeaderEnd(SelfLinked()) == Some(6) && AfterMagic(SelfLinked(), 6) == ParseIndex(SelfLinked(), 18)
    ensures U32(SelfLinked(), 18) == 18
    ensures ReadFields(SelfLinked(), 22) == Some(Entry(Subfile(0, 0, 0, []), 0, 38))
  {
    var f := SelfLinked();
    assert f[..6] == MAGIC;
    SelfLinkedEntry();
  }

  lemma SelfLinkedEntry()
    ensures ReadFields(SelfLinked(), 22) == Some(Entry(Subfile(0, 0, 0, []), 0, 38))
  {
    var f := SelfLinked();
    assert U16(f, 30) == 0 && !HasLengthField(0);
    assert U16(f, 36) == 0 && U32(f, 22) == 0 && U32(f, 26) == 0 && U32(f, 32) == 0;
    assert Unxored(f[38..38]) == [];
  }

  /** A readable entry whose link points at its own link field: the loop as written comes back to where it was, round after round. */
  lemma {:induction false} FixedPointNeverFinishes(data: seq<byte>, e: nat, n: nat)
    requires e != 0 && e + 4 <= |data| && U32(data, e) == e && ReadFields(data, e + 4).Some?
    ensures AsWrittenFrom(data, e, e + 4, n) == Unfinished
  {
    if n > 0 {
      FixedPointNeverFinishes(data, e, n - 1);
    }
  }

  /**
   * The loop as written never finishes on the self-linked file, however
   * many rounds it is given (each round pushes the same subfile again); the
   * corrected reader rejects the file.
   */
  lemma SelfLinkNeverFinishes(n: nat)
    ensures AsWrittenFrom(SelfLinked(), 18, 22, n) == Unfinished
    ensures ParseMultifile(SelfLinked()).None?
  {
    SelfLinkedLayout();
    FixedPointNeverFinishes(SelfLinked(), 18, n);
  }

  lemma AppendAssoc(a: seq<Subfile>, b: seq<Subfile>, c: seq<Subfile>)
    ensures (a + b) + c == a + (b + c)
  {
  }

  lemma PrependTwice(acc: seq<Subfile>, kept: seq<Subfile>, rest: Option<seq<Subfile>>)
    ensures Prepend(acc, Prepend(kept, rest)) == Prepend(acc + kept, rest)
  {
    if rest.Some? {
      assert acc + (kept + rest.value) == (acc + kept) + rest.value;
    }
  }

  class P3DMultifileReader {
    /** The contents of the file the stream has open. */
    var data: seq<byte>
    var isOpen: bool
    /** The stream position and its failure state, which once set makes every later read and seek do nothing. */
    var pos: nat
    var fail: bool
    var subfiles: seq<Subfile>

    /** A reader with no file open. */
    constructor ()
      ensures data == [] && !isOpen && pos == 0 && !fail && subfiles == []
    {
      data := [];
      isOpen := false;
      pos := 0;
      fail := false;
      subfiles := [];
    }

    /** istream::get(): the next byte, or EOF (setting the failure state) at the end. */
    method Get() returns (ch: int)
      modifies this`pos, this`fail
      ensures if !old(fail) && old(pos) < |data| then ch == data[old(pos)]  && pos == old(pos) + 1 && !fail
              else ch == EOF && fail && pos == old(pos)
    {
      if !fail && pos < |data| {
        ch := data[pos] ;
        pos := pos + 1;
      } else {
        ch := EOF;
        fail := true;
      }
    }

    /** istream::read(n): the bytes the file still holds, up to n; a short read sets the failure state. */
    method Read(n: nat) returns (got: seq<byte>)
      modifies this`pos, this`fail
      ensures old(fail) ==> got == [] && fail && pos == old(pos)
      ensures !old(fail) && n <= Avail(data, old(pos)) ==> got == Window(data, old(pos), n) && pos == old(pos) + n && !fail
      ensures !old(fail) && n > Avail(data, old(pos)) ==>
        got == Window(data, old(pos), Avail(data, old(pos))) && fail && pos == old(pos)
    {
      if fail {
        got := [];
      } else if n <= Avail(data, pos) {
        got := Window(data, pos, n);
        pos := pos + n;
      } else {
        got := Window(data, pos, Avail(data, pos));
        fail := true;
      }
    }

    /** istream::seekg(p), which does nothing on a failed stream. */
    method Seek(p: nat)
      modifies this`pos
      ensures pos == if fail then old(pos) else p
    {
      if !fail {
        pos := p;
      }
    }

    /** read_uint16: two bytes, low first; a failed read yields 0. */
    method ReadUint16() returns (v: nat)
      modifies this`pos, this`fail
      ensures if !old(fail) && old(pos) + 2 <= |data| then v == U16(data, old(pos)) && pos == old(pos) + 2 && !fail
              else v == 0 && fail && pos == old(pos)
    {
      var b := Read(2);
      v := if |b| == 2 && !fail then U16(b, 0) else 0;
    }

    /** read_uint32: four bytes, low first; a failed read yields 0. */
    method ReadUint32() returns (v: nat)
      modifies this`pos, this`fail
      ensures if !old(fail) && old(pos) + 4 <= |data| then v == U32(data, old(pos)) && pos == old(pos) + 4 && !fail
              else v == 0 && fail && pos == old(pos)
    {
      var b := Read(4);
      v := if |b| == 4 && !fail then U32(b, 0) else 0;
    }

    /** Skip to the end of the line: read until a '\n' has been read, or the file ends. */
    method SkipLine() returns (ch: int)
      requires !fail && pos <= |data|
      modifies this`pos, this`fail
      ensures pos <= |data|
      ensures LineEnd(data, old(pos)) < |data| ==> ch == NEWLINE  && !fail && pos == LineEnd(data, old(pos)) + 1
      ensures LineEnd(data, old(pos)) == |data| ==> ch == EOF && fail
    {
      ch := HASH;
      ghost var p0 := pos;
      while ch != EOF && ch != NEWLINE
        invariant pos <= |data|
        invariant ch == EOF ==> fail && LineEnd(data, p0) == |data|
        invariant ch == NEWLINE ==> !fail && pos >= 1 && LineEnd(data, p0) == pos - 1
        invariant ch != EOF && ch != NEWLINE ==> !fail && LineEnd(data, p0) == LineEnd(data, pos)
        decreases (if ch == EOF || ch == NEWLINE  then 0 else 1), |data| - pos
      {
        ch := Get();
      }
    }

    /** Skip the white space that follows: read until a byte that is not white space, or the file ends. */
    method SkipBlank() returns (ch: int)
      requires !fail && pos <= |data|
      modifies this`pos, this`fail
      ensures pos <= |data|
      ensures NonSpace(data, old(pos)) < |data| ==>
        !fail && pos == NonSpace(data, old(pos)) + 1 && ch == data[pos - 1]
      ensures NonSpace(data, old(pos)) == |data| ==> ch == EOF && fail
    {
      ch := NEWLINE ;
      ghost var p0 := pos;
      while ch != EOF && 0 <= ch < 0x100 && IsSpace(ch)
        invariant pos <= |data|
        invariant ch == EOF ==> fail && NonSpace(data, p0) == |data|
        invariant ch != EOF ==> !fail && 0 <= ch < 0x100
        invariant ch != EOF && !IsSpace(ch) ==> pos >= 1 && NonSpace(data, p0) == pos - 1 && ch == data[pos - 1]
        invariant ch != EOF && IsSpace(ch) ==> NonSpace(data, p0) == NonSpace(data, pos)
        decreases (if ch == EOF || !(0 <= ch < 0x100 && IsSpace(ch)) then 0 else 1), |data| - pos
      {
        ch := Get();
      }
    }

    /** The '#' lines before the header: the byte that ends them, with the stream just past it, or EOF. */
    method SkipCommentLines() returns (ch: int)
      requires !fail && pos <= |data|
      modifies this`pos, this`fail
      ensures SkipComments(data, old(pos)).Some? ==>
        !fail && pos == SkipComments(data, old(pos)).value && ch == data[pos - 1]
      ensures SkipComments(data, old(pos)).None? ==> ch == EOF && fail
    {
      ghost var p0 := pos;
      ch := HASH;
      while ch != EOF && ch == HASH
        invariant pos <= |data|
        invariant ch == EOF ==> fail && SkipComments(data, p0).None?
        invariant ch == HASH ==> !fail && SkipComments(data, p0) == SkipComments(data, pos)
        invariant ch != EOF && ch != HASH ==>
          !fail && pos >= 1 && SkipComments(data, p0) == Some(pos) && ch == data[pos - 1]
        decreases if ch == HASH then |data| + 1 - pos else 0
      {
        ch := CommentStep();
      }
    }

    /** One round of the '#' loop: the rest of the line, then the white space after it. */
    method CommentStep() returns (ch: int)
      requires !fail && pos <= |data|
      modifies this`pos, this`fail
      ensures pos <= |data| && (ch == EOF <==> fail)
      ensures ch != EOF ==> old(pos) < pos && ch == data[pos - 1]
      ensures SkipComments(data, old(pos)) ==
        if ch == EOF then None else if ch == HASH then SkipComments(data, pos) else Some(pos)
    {
      ch := SkipLine();
      if ch != EOF {
        ch := SkipBlank();
      }
    }

    /** The link-free head of an entry: start, length and flags. */
    method ReadFixedFields() returns (start: nat, length: nat, flags: nat)
      requires !fail
      modifies this`pos, this`fail
      ensures flags < 0x1_0000
      ensures old(pos) + 10 <= |data| ==>
        !fail && pos == old(pos) + 10 &&
        start == U32(data, old(pos)) && length == U32(data, old(pos) + 4) && flags == U16(data, old(pos) + 8)
      ensures old(pos) + 10 > |data| ==> fail
    {
      start := ReadUint32();
      length := ReadUint32();
      flags := ReadUint16();
    }

    /** The tail of an entry: its timestamp, the name's length and the name, decoded. */
    method ReadNamedTail() returns (timestamp: nat, name: seq<byte>)
      modifies this`pos, this`fail
      ensures !old(fail) && old(pos) + 6 <= |data| && old(pos) + 6 + U16(data, old(pos) + 4) <= |data| ==>
        !fail && pos == old(pos) + 6 + U16(data, old(pos) + 4) && timestamp == U32(data, old(pos)) &&
        name == Unxored(data[old(pos) + 6..old(pos) + 6 + U16(data, old(pos) + 4)])
      ensures !(!old(fail) && old(pos) + 6 <= |data| && old(pos) + 6 + U16(data, old(pos) + 4) <= |data|) ==> fail
    {
      timestamp := ReadUint32();
      var nameLength := ReadUint16();
      var raw := Read(nameLength);
      var buffer := new byte[|raw|](i requires 0 <= i < |raw| => raw[i]);
      UnxorBuffer(buffer);
      name := buffer[..];
    }

    /** One index entry's fields, read field by field; the stream fails when the file does not hold them all. */
    method ReadEntry() returns (sub: Subfile, flags: nat)
      requires !fail && pos <= |data|
      modifies this`pos, this`fail
      ensures flags < 0x1_0000
      ensures ReadFields(data, old(pos)).Some? ==>
        !fail && pos == ReadFields(data, old(pos)).value.end &&
        sub == ReadFields(data, old(pos)).value.sub && flags == ReadFields(data, old(pos)).value.flags
      ensures ReadFields(data, old(pos)).None? ==> fail
    {
      var start, length;
      start, length, flags := ReadFixedFields();
      if HasLengthField(flags) {
        var _ := ReadUint32();
      }
      var timestamp, name := ReadNamedTail();
      sub := Subfile(start, length, timestamp, name);
    }

    /**
     * read_index, with the stream at the first link: follow the chain,
     * keeping the entries whose flags are 0, until a zero link.  A link that
     * does not lead past the entry just read ends the read with failure.
     */
    method ReadIndex() returns (ok: bool)
      modifies this`pos, this`fail, this`subfiles
      ensures ok <==> !old(fail) && ParseIndex(data, old(pos)).Some?
      ensures ok ==> !fail && subfiles == old(subfiles) + ParseIndex(data, old(pos)).value
    {
      var nextEntry: nat := ReadUint32();
      if fail {
        return false;
      }
      ok := FollowChain(nextEntry);
    }

    /** The loop of read_index, from a link just read: the entries up to the zero link. */
    method FollowChain(link: nat) returns (ok: bool)
      requires !fail && pos <= |data|
      modifies this`pos, this`fail, this`subfiles
      ensures ok <==> ParseFrom(data, link, old(pos)).Some?
      ensures ok ==> !fail && subfiles == old(subfiles) + ParseFrom(data, link, old(pos)).value
    {
      ghost var r0 := pos;
      ghost var base := subfiles;
      var nextEntry := link;
      ghost var acc: seq<Subfile> := [];
      PrependNothing(ParseFrom(data, nextEntry, pos));
      while nextEntry != 0
        invariant Following(link, r0, base, acc, nextEntry)
        decreases |data| - pos
      {
        ok, nextEntry, acc := ChainStep(link, r0, base, acc, nextEntry);
        if !ok {
          return;
        }
      }
      assert acc + [] == acc;
      ok := true;
    }

    /** The loop state of read_index: the entries read so far, followed by those the chain from the current link yields, are the whole index. */
    ghost predicate Following(link: nat, r0: nat, base: seq<Subfile>, acc: seq<Subfile>, next: nat)
      reads this
    {
      !fail && pos <= |data| && r0 <= |data| && subfiles == base + acc &&
      ParseFrom(data, link, r0) == Prepend(acc, ParseFrom(data, next, pos))
    }

    /** One round of the loop, keeping its state. */
    method ChainStep(link: nat, ghost r0: nat, ghost base: seq<Subfile>, ghost acc: seq<Subfile>, next: nat)
      returns (ok: bool, next': nat, ghost acc': seq<Subfile>)
      requires Following(link, r0, base, acc, next) && next != 0
      modifies this`pos, this`fail, this`subfiles
      ensures ok ==> Following(link, r0, base, acc', next') && old(pos) < pos
      ensures !ok ==> ParseFrom(data, link, r0).None?
    {
      ghost var kept, rest;
      ok, next', kept, rest := IndexStep(next);
      PrependTwice(acc, kept, rest);
      acc' := acc + kept;
      AppendAssoc(base, acc, kept);
    }

    /**
     * One round of read_index: the entry's fields (kept when its flags are
     * 0), then the seek to the link and the next link.  It fails when the
     * file ends early or the link does not lead past the entry.
     */
    method IndexStep(link: nat) returns (ok: bool, next: nat, ghost kept: seq<Subfile>, ghost rest: Option<seq<Subfile>>)
      requires !fail && pos <= |data| && link != 0
      modifies this`pos, this`fail, this`subfiles
      ensures subfiles == old(subfiles) + kept
      ensures ok ==> !fail && old(pos) < pos <= |data| && rest == ParseFrom(data, next, pos)
      ensures ParseFrom(data, link, old(pos)) == if ok then Prepend(kept, rest) else None
    {
      var sub, flags := ReadEntry();
      kept := [];
      if flags == 0 {
        subfiles := subfiles + [sub];
        kept := [sub];
      }
      ok, next := FollowLink(link);
      rest := if ok then ParseFrom(data, next, pos) else None;
    }

    /**
     * The end of a round of read_index: refuse a link that does not lead
     * past the entry just read, seek to it and read the next link.
     */
    method FollowLink(link: nat) returns (ok: bool, next: nat)
      modifies this`pos, this`fail
      ensures ok <==> !old(fail) && old(pos) <= link && link + 4 <= |data|
      ensures ok ==> !fail && pos == link + 4 && next == U32(data, link)
    {
      if fail || link < pos {
        return false, 0;
      }
      Seek(link);
      next := ReadUint32();
      ok := !fail;
    }

    /**
     * The header check of read_header on a freshly opened file: the first six
     * bytes, or, when the file starts with '#', the byte that ends the '#'
     * lines and the five after it, must be the magic bytes.  A short read of
     * those five can leave stale bytes that happen to match; the stream has
     * failed then, so every later read fails.
     */
    method CheckMagic() returns (ok: bool)
      requires !fail && pos == 0
      modifies this`pos, this`fail
      ensures HeaderEnd(data).Some? ==> ok && !fail && pos == HeaderEnd(data).value
      ensures HeaderEnd(data).None? ==> !ok || fail
    {
      Seek(0);
      var header := Read(6);
      if fail || |header| != 6 {
        return false;
      }
      if header[0] == HASH {
        header := MagicAfterComments(header);
      }
      ok := header == MAGIC;
    }

    /** The '#' case: the byte that ends the comment lines (0xff for EOF) and the five bytes after it, over the old header. */
    method MagicAfterComments(header: seq<byte>) returns (h: seq<byte>)
      requires !fail && 6 <= |data| && pos == 6 && header == data[..6] && header[0] == HASH
      modifies this`pos, this`fail
      ensures HeaderEnd(data).Some? ==> h == MAGIC && !fail && pos == HeaderEnd(data).value
      ensures HeaderEnd(data).None? ==> h != MAGIC || fail
    {
      var ch := SkipCommentLines();
      var rest := Read(5);
      h := [if ch == EOF then 0xff else ch] + rest + header[1 + |rest|..];
      if ch != EOF && !fail {
        assert rest == data[pos - 5..pos];
        assert h == data[pos - 6..pos];
      }
    }

    /**
     * read_header: forget the old index, open the file (which fails while a
     * file is already open), check the magic bytes after any '#' lines, the
     * version and the scale, skip the timestamp and read the index.
     */
    method ReadHeader(file: Option<seq<byte>>) returns (ok: bool)
      modifies this
      ensures ok <==> !old(isOpen) && file.Some? && ParseMultifile(file.value).Some?
      ensures ok ==> !fail && subfiles == ParseMultifile(file.value).value
      ensures old(isOpen) || file.None? ==> subfiles == [] && fail && data == old(data) && isOpen == old(isOpen)
      ensures !old(isOpen) && file.Some? ==> isOpen && data == file.value
    {
      subfiles := [];
      if isOpen || file.None? {
        fail := true;
        return false;
      }
      data := file.value;
      isOpen := true;
      fail := false;
      pos := 0;
      var magic := CheckMagic();
      if !magic {
        return false;
      }
      ok := ReadAfterMagic();
    }

    /** The rest of read_header: version 1.1, scale factor 1, the unused timestamp, then the index. */
    method ReadAfterMagic() returns (ok: bool)
      modifies this`pos, this`fail, this`subfiles
      ensures ok <==> !old(fail) && AfterMagic(data, old(pos)).Some?
      ensures ok ==> !fail && subfiles == old(subfiles) + AfterMagic(data, old(pos)).value
    {
      var major := ReadUint16();
      var minor := ReadUint16();
      if major != CURRENT_MAJOR_VER || minor != CURRENT_MINOR_VER {
        return false;
      }
      var scale := ReadUint32();
      if scale != 1 {
        return false;
      }
      var _ := ReadUint32();
      ok := ReadIndex();
    }

    /**
     * extract_subfile: seek to the subfile and copy it out in buffer-sized
     * pieces until a read returns nothing.  It succeeds exactly when the
     * file held all of the subfile's bytes; the bytes it did hold are
     * written either way.
     */
    method ExtractSubfile(s: Subfile) returns (ok: bool, out: seq<byte>)
      requires !fail
      modifies this`pos, this`fail
      ensures ok <==> s.length <= Avail(data, s.start)
      ensures out == Window(data, s.start, Min(s.length, Avail(data, s.start)))
    {
      Seek(s.start);
      var remaining := s.length;
      out := [];
      var got := Read(Min(BUFFER_SIZE, remaining));
      var count := |got|;
      while count != 0
        invariant Copying(s, out, got, remaining) && count == |got|
        decreases remaining
      {
        out, got, remaining := CopyChunk(s, out, got, remaining);
        count := |got|;
      }
      CopyDone(s, out, got, remaining);
      ok := remaining == 0;
    }

    /**
     * The state of extract_subfile's loop: the bytes written and the bytes
     * just read are the subfile's first bytes, nothing written or read is
     * outside the file, and the stream failed only on a short read.
     */
    ghost predicate Copying(s: Subfile, out: seq<byte>, got: seq<byte>, remaining: nat)
      reads this
    {
      |out| + remaining == s.length && |got| <= remaining &&
      |out| + |got| <= Avail(data, s.start) &&
      out + got == Window(data, s.start, |out| + |got|) &&
      (!fail ==> pos == s.start + |out| + |got| && |got| == Min(BUFFER_SIZE, remaining)) &&
      (fail ==> |out| + |got| == Avail(data, s.start) && |got| < Min(BUFFER_SIZE, remaining))
    }

    /** One round of the copy loop: write what was read and read the next piece. */
    method CopyChunk(s: Subfile, out: seq<byte>, got: seq<byte>, remaining: nat)
      returns (out': seq<byte>, got': seq<byte>, remaining': nat)
      requires Copying(s, out, got, remaining) && |got| != 0
      modifies this`pos, this`fail
      ensures Copying(s, out', got', remaining') && remaining' < remaining
      ensures out' == out + got
    {
      remaining' := remaining - |got|;
      out' := out + got;
      got' := Read(Min(BUFFER_SIZE, remaining'));
      if |got'| > 0 {
        WindowConcat(data, s.start, |out'|, |got'|);
      }
    }

    /** When a read returns nothing, everything the file held of the subfile has been written, and all of it exactly when nothing remains. */
    lemma CopyDone(s: Subfile, out: seq<byte>, got: seq<byte>, remaining: nat)
      requires Copying(s, out, got, remaining) && got == []
      ensures remaining == 0 <==> s.length <= Avail(data, s.start)
      ensures out == Window(data, s.start, Min(s.length, Avail(data, s.start)))
    {
      assert out + got == out;
    }

    /** extract_one: read the file's index and extract the first subfile with the given name; false when there is none. */
    method ExtractOne(file: Option<seq<byte>>, filename: seq<byte>) returns (ok: bool, out: seq<byte>)
      modifies this
      ensures ok <==>
        (!old(isOpen) && file.Some? && ParseMultifile(file.value).Some? &&
         Lookup(ParseMultifile(file.value).value, filename).Some? &&
         Lookup(ParseMultifile(file.value).value, filename).value.length <=
           Avail(file.value, Lookup(ParseMultifile(file.value).value, filename).value.start))
      ensures ok ==> out == Window(file.value, Lookup(ParseMultifile(file.value).value, filename).value.start,
        Lookup(ParseMultifile(file.value).value, filename).value.length)
    {
      out := [];
      var read := ReadHeader(file);
      if !read {
        return false, [];
      }
      var i := 0;
      while i < |subfiles|
        invariant 0 <= i <= |subfiles|
        invariant Lookup(subfiles, filename) == Lookup(subfiles[i..], filename)
      {
        if subfiles[i].filename == filename {
          ok, out := ExtractSubfile(subfiles[i]);
          return;
        }
        i := i + 1;
      }
      ok := false;
    }
  }

  /** The loop that decodes a name in place: every byte of the buffer is xored with 0xff. */
  method UnxorBuffer(buffer: array<byte>)
    modifies buffer
    ensures buffer[..] == Unxored(old(buffer[..]))
  {
    for i := 0 to buffer.Length
      invariant buffer[i..] == old(buffer[i..])
      invariant forall k :: 0 <= k < i ==> buffer[k] == Flip(old(buffer[k]))
    {
      buffer[i] := Flip(buffer[i]);
    }
  }
}
