/**
 * FileSpec: the expected name, size, timestamp and MD5 hash of one file of a
 * package, read from XML, with hex encoding of the hash and the decision
 * whether a file on disk is still intact.
 */
module FileSpecModel {
  import opened Wrappers

  type byte = x: int | 0 <= x < 256

  /** The length of an MD5 digest in bytes. */
  const HASH_SIZE: nat := 16

  // ---------------------------------------------------------------------------
  // Hex digits
  // ---------------------------------------------------------------------------

  /** decode_hexdigit: the value of a hex digit of either case, or -1. */
  function HexValue(c: char): (r: int)
    ensures -1 <= r < 16
    ensures r >= 0 <==> '0' <= c <= '9' || 'a' <= c <= 'f' || 'A' <= c <= 'F'
  {
    if '0' <= c <= '9' then c as int - '0' as int
    else if 'a' <= c <= 'f' then c as int - 'a' as int + 10
    else if 'A' <= c <= 'F' then c as int - 'A' as int + 10
    else -1
  }

  /** encode_hexdigit: the lower-case digit of a value below 16. */
  function HexDigit(v: int): (r: char)
    requires 0 <= v < 16
    ensures HexValue(r) == v
    ensures '0' <= r <= '9' || 'a' <= r <= 'f'
  {
    if v < 10 then ('0' as int + v) as char else ('a' as int + v - 10) as char
  }

  /** A lower-case hex digit is the digit of its own value. */
  lemma DigitOfValue(c: char)
    requires '0' <= c <= '9' || 'a' <= c <= 'f'
    ensures HexDigit(HexValue(c)) == c
  {
  }

  // ---------------------------------------------------------------------------
  // Strings of hex pairs
  // ---------------------------------------------------------------------------

  /** Both characters of pair k are hex digits. */
  predicate PairHex(source: seq<char>, k: nat)
    requires 2 * k + 1 < |source|
  {
    HexValue(source[2 * k]) >= 0 && HexValue(source[2 * k + 1]) >= 0
  }

  /** The byte pair k decodes to: the high digit shifted up four bits, or-ed with the low one. */
  function DecodedByte(source: seq<char>, k: nat): (b: byte)
    requires 2 * k + 1 < |source| && PairHex(source, k)
    ensures b / 16 == HexValue(source[2 * k]) && b % 16 == HexValue(source[2 * k + 1])
  {
    HexValue(source[2 * k]) * 16 + HexValue(source[2 * k + 1])
  }

  /** The number of pairs before the first that is not hex, among the first n. */
  function FirstBad(source: seq<char>, n: nat): (f: nat)
    requires 2 * n <= |source|
    ensures f <= n
    ensures forall k :: 0 <= k < f ==> PairHex(source, k)
    ensures f < n ==> !PairHex(source, f)
  {
    if n == 0 then 0
    else
      var f := FirstBad(source, n - 1);
      if f < n - 1 then f
      else if PairHex(source, n - 1) then n
      else n - 1
  }

  /** The bytes a string of n hex pairs decodes to. */
  function Decoded(source: seq<char>, n: nat): (r: seq<byte>)
    requires 2 * n <= |source| && FirstBad(source, n) == n
    ensures |r| == n
  {
    seq(n, k requires 0 <= k < n => DecodedByte(source, k))
  }

  /** The hex string of some bytes, high digit first. */
  function Encoded(s: seq<byte>): (r: seq<char>)
    ensures |r| == 2 * |s|
    ensures forall k :: 0 <= k < |r| ==> '0' <= r[k] <= '9' || 'a' <= r[k] <= 'f'
  {
    seq(2 * |s|, k requires 0 <= k < 2 * |s| => HexDigit(if k % 2 == 0 then s[k / 2] / 16 else s[k / 2] % 16))
  }

  /** Pair k of an encoding holds the high and the low digit of byte k. */
  lemma EncodedAt(s: seq<byte>, k: nat)
    requires k < |s|
    ensures Encoded(s)[2 * k] == HexDigit(s[k] / 16) && Encoded(s)[2 * k + 1] == HexDigit(s[k] % 16)
  {
    assert (2 * k) / 2 == k && (2 * k) % 2 == 0;
    assert (2 * k + 1) / 2 == k && (2 * k + 1) % 2 == 1;
  }

  /** A byte is its high digit times 16 plus its low digit. */
  lemma ByteDigits(b: byte)
    ensures HexValue(HexDigit(b / 16)) * 16 + HexValue(HexDigit(b % 16)) == b
  {
  }

  /** Decoding an encoding gives the bytes back. */
  lemma DecodeEncode(s: seq<byte>)
    ensures FirstBad(Encoded(s), |s|) == |s|
    ensures Decoded(Encoded(s), |s|) == s
  {
    var e := Encoded(s);
    forall k | 0 <= k < |s|
      ensures PairHex(e, k) && DecodedByte(e, k) == s[k]
    {
      EncodedAt(s, k);
      ByteDigits(s[k]);
    }
    FirstBadAllHex(e, |s|);
  }

  /** When every pair is hex, no pair is bad. */
  lemma {:induction false} FirstBadAllHex(source: seq<char>, n: nat)
    requires 2 * n <= |source| && forall k :: 0 <= k < n ==> PairHex(source, k)
    ensures FirstBad(source, n) == n
  {
    if n > 0 {
      FirstBadAllHex(source, n - 1);
    }
  }

  /** Encoding the decoding of lower-case hex gives the same string back. */
  lemma EncodeDecode(t: seq<char>)
    requires |t| % 2 == 0 && forall k :: 0 <= k < |t| ==> '0' <= t[k] <= '9' || 'a' <= t[k] <= 'f'
    ensures FirstBad(t, |t| / 2) == |t| / 2
    ensures Encoded(Decoded(t, |t| / 2)) == t
  {
    var n := |t| / 2;
    FirstBadAllHex(t, n);
    var e := Encoded(Decoded(t, n));
    forall k | 0 <= k < |t|
      ensures e[k] == t[k]
    {
      var j := k / 2;
      PairRoundTrip(t, j);
      assert k == 2 * j || k == 2 * j + 1;
    }
  }

  /** Pair j of lower-case hex survives decoding and encoding again. */
  lemma PairRoundTrip(t: seq<char>, j: nat)
    requires |t| % 2 == 0 && forall k :: 0 <= k < |t| ==> '0' <= t[k] <= '9' || 'a' <= t[k] <= 'f'
    requires j < |t| / 2 && FirstBad(t, |t| / 2) == |t| / 2
    ensures Encoded(Decoded(t, |t| / 2))[2 * j] == t[2 * j]
    ensures Encoded(Decoded(t, |t| / 2))[2 * j + 1] == t[2 * j + 1]
  {
    var d := Decoded(t, |t| / 2);
    EncodedAt(d, j);
    assert d[j] == DecodedByte(t, j);
    DigitOfValue(t[2 * j]);
    DigitOfValue(t[2 * j + 1]);
  }

  /**
   * decode_hex: decode size pairs into dest.  It stops with false at the
   * first pair holding a non-hex digit; the bytes before it are already
   * written and the rest of dest is untouched.
   */
  method DecodeHex(dest: array<byte>, source: seq<char>, size: nat) returns (ok: bool)
    requires size <= dest.Length && 2 * size <= |source|
    modifies dest
    ensures ok <==> FirstBad(source, size) == size
    ensures forall k :: 0 <= k < dest.Length ==>
      dest[k] == if k < FirstBad(source, size) then DecodedByte(source, k) else old(dest[k])
  {
    var i := 0;
    while i < size
      invariant 0 <= i <= size && FirstBad(source, i) == i
      invariant forall k :: 0 <= k < dest.Length ==> dest[k] == if k < i then DecodedByte(source, k) else old(dest[k])
    {
      var high := HexValue(source[i * 2]);
      var low := HexValue(source[i * 2 + 1]);
      if high < 0 || low < 0 {
        FirstBadStops(source, i, size);
        return false;
      }
      dest[i] := high * 16 + low;
      i := i + 1;
    }
    return true;
  }

  /** A bad pair at i, with none before it, is the first bad pair of any longer prefix. */
  lemma {:induction false} FirstBadStops(source: seq<char>, i: nat, n: nat)
    requires i < n && 2 * n <= |source| && FirstBad(source, i) == i && !PairHex(source, i)
    ensures FirstBad(source, n) == i
  {
    if n > i + 1 {
      FirstBadStops(source, i, n - 1);
    }
  }

  /** encode_hex: write the 2 * size hex digits of the first size bytes into dest. */
  method EncodeHex(dest: array<char>, source: seq<byte>, size: nat)
    requires 2 * size <= dest.Length && size <= |source|
    modifies dest
    ensures dest[..2 * size] == Encoded(source[..size])
    ensures dest[2 * size..] == old(dest[2 * size..])
  {
    for i := 0 to size
      invariant dest[..2 * i] == Encoded(source[..i])
      invariant dest[2 * size..] == old(dest[2 * size..])
    {
      var high := source[i] / 16;
      var low := source[i] % 16;
      dest[2 * i] := HexDigit(high);
      dest[2 * i + 1] := HexDigit(low);
      assert dest[..2 * (i + 1)] == dest[..2 * i] + [HexDigit(high), HexDigit(low)];
      EncodedStep(source, i);
    }
  }

  /** Encoding one more byte appends its two digits. */
  lemma EncodedStep(source: seq<byte>, i: nat)
    requires i < |source|
    ensures Encoded(source[..i + 1]) == Encoded(source[..i]) + [HexDigit(source[i] / 16), HexDigit(source[i] % 16)]
  {
    var a := Encoded(source[..i + 1]);
    var b := Encoded(source[..i]) + [HexDigit(source[i] / 16), HexDigit(source[i] % 16)];
    forall k | 0 <= k < |a|
      ensures a[k] == b[k]
    {
      if k < 2 * i {
        assert source[..i + 1][k / 2] == source[..i][k / 2];
      }
    }
  }

  /** stream_hex: put the same digits on a stream, one character at a time. */
  method StreamHex(source: seq<byte>, size: nat) returns (out: seq<char>)
    requires size <= |source|
    ensures out == Encoded(source[..size])
  {
    out := [];
    for i := 0 to size
      invariant out == Encoded(source[..i])
    {
      var high := source[i] / 16;
      var low := source[i] % 16;
      out := out + [HexDigit(high)];
      out := out + [HexDigit(low)];
      EncodedStep(source, i);
    }
  }

  // ---------------------------------------------------------------------------
  // Verification decisions
  // ---------------------------------------------------------------------------

  /** What stat reports about the file on disk. */
  datatype Stat = Stat(size: int, mtime: int)

  /** Whether the file is intact, and whether its timestamp is set back to the expected one. */
  datatype Verdict = Verdict(intact: bool, touch: bool)

  class FileSpec {
    var filename: string
    var size: int
    var timestamp: int
    var hash: array<byte>
    var gotHash: bool

    /** A spec with no name, size 0, timestamp 0 and an all-zero hash that is not marked as read. */
    constructor ()
      ensures filename == [] && size == 0 && timestamp == 0 && !gotHash
      ensures hash.Length == HASH_SIZE && forall k :: 0 <= k < HASH_SIZE ==> hash[k] == 0
      ensures fresh(hash)
    {
      filename := [];
      size := 0;
      timestamp := 0;
      hash := new byte[HASH_SIZE](_ => 0);
      gotHash := false;
    }

    /**
     * load_xml: the attributes present replace the name, size and timestamp
     * (their numbers already parsed); the hash counts as read only when the
     * attribute is exactly 2 * HASH_SIZE characters of hex.
     */
    method LoadXml(filenameAttr: Option<string>, sizeAttr: Option<int>, timestampAttr: Option<int>, hashAttr: Option<string>)
      requires hash.Length == HASH_SIZE
      modifies this`filename, this`size, this`timestamp, this`gotHash, hash
      ensures filename == if filenameAttr.Some? then filenameAttr.value else old(filename)
      ensures size == if sizeAttr.Some? then sizeAttr.value else old(size)
      ensures timestamp == if timestampAttr.Some? then timestampAttr.value else old(timestamp)
      ensures gotHash <==> hashAttr.Some? && |hashAttr.value| == 2 * HASH_SIZE && FirstBad(hashAttr.value, HASH_SIZE) == HASH_SIZE
      ensures gotHash ==> hash[..] == Decoded(hashAttr.value, HASH_SIZE)
      ensures hashAttr.None? || |hashAttr.value| != 2 * HASH_SIZE ==> hash[..] == old(hash[..])
    {
      if filenameAttr.Some? {
        filename := filenameAttr.value;
      }
      if sizeAttr.Some? {
        size := sizeAttr.value;
      }
      if timestampAttr.Some? {
        timestamp := timestampAttr.value;
      }
      gotHash := false;
      if hashAttr.Some? && |hashAttr.value| == HASH_SIZE * 2 {
        gotHash := DecodeHex(hash, hashAttr.value, HASH_SIZE);
        if gotHash {
          assert hash[..] == Decoded(hashAttr.value, HASH_SIZE);
        }
      }
    }

    /**
     * quick_verify, with stat and the hash check given: a missing file or a
     * wrong size fails; a matching timestamp passes; otherwise the hash
     * decides, and a passing file gets its timestamp set back.
     */
    function QuickVerify(st: Option<Stat>, hashOk: bool): (r: Verdict)
      reads this
      ensures r.intact <==> st.Some? && st.value.size == size && (st.value.mtime == timestamp || hashOk)
      ensures r.touch <==> r.intact && st.value.mtime != timestamp
    {
      if st.None? then Verdict(false, false)
      else if st.value.size != size then Verdict(false, false)
      else if st.value.mtime == timestamp then Verdict(true, false)
      else if !hashOk then Verdict(false, false)
      else Verdict(true, true)
    }

    /** full_verify, with stat and the hash check given: the hash always decides once the size is right. */
    function FullVerify(st: Option<Stat>, hashOk: bool): (r: Verdict)
      reads this
      ensures r.intact <==> st.Some? && st.value.size == size && hashOk
      ensures r.touch <==> r.intact && st.value.mtime != timestamp
    {
      if st.None? then Verdict(false, false)
      else if st.value.size != size then Verdict(false, false)
      else if !hashOk then Verdict(false, false)
      else Verdict(true, st.value.mtime != timestamp)
    }

    /** A file that passes the full check passes the quick one, and both set the timestamp back alike. */
    lemma FullImpliesQuick(st: Option<Stat>, hashOk: bool)
      ensures FullVerify(st, hashOk).intact ==> QuickVerify(st, hashOk) == FullVerify(st, hashOk)
      ensures QuickVerify(st, hashOk).intact && !FullVerify(st, hashOk).intact ==> st.value.mtime == timestamp && !hashOk
    {
    }
  }
}
