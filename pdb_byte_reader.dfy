/**
 * The byte cursor a PDB type record is decoded from (`PdbByteReader`).
 * Its internals are not part of this model beyond what the three record
 * classes use: a little-endian type index of 16 or 32 bits, a
 * NUL-terminated name, and "all the bytes that remain".
 */
module PdbByteReader {
  import opened Wrappers

  /** One byte of a record. */
  newtype byte = x: int | 0 <= x < 256

  /** The reasons a read fails; both surface as a `PdbException`. */
  datatype PdbError = NotEnoughData | MissingTerminator

  /** Width of a type index in the record layout (16-bit or 32-bit records). */
  datatype IndexWidth = Index16 | Index32 {
    function Size(): (n: nat)
      ensures n == 2 || n == 4
    {
      if Index16? then 2 else 4
    }
  }

  function Pow256(n: nat): (p: nat)
    ensures p >= 1
  {
    if n == 0 then 1 else 256 * Pow256(n - 1)
  }

  /** Unsigned little-endian value of a byte string. */
  function LittleEndian(s: seq<byte>): (v: nat)
    ensures v < Pow256(|s|)
  {
    if s == [] then 0 else s[0] as nat + 256 * LittleEndian(s[1..])
  }

  /** The `width` bytes that encode `v` in little-endian order. */
  function EncodeLittleEndian(v: nat, width: nat): (s: seq<byte>)
    requires v < Pow256(width)
    ensures |s| == width
    ensures LittleEndian(s) == v
  {
    if width == 0 then [] else [(v % 256) as byte] + EncodeLittleEndian(v / 256, width - 1)
  }

  lemma {:induction false} EncodeOfDecode(s: seq<byte>)
    ensures EncodeLittleEndian(LittleEndian(s), |s|) == s
  {
    if s != [] {
      EncodeOfDecode(s[1..]);
      var v := LittleEndian(s);
      assert v % 256 == s[0] as nat;
      assert v / 256 == LittleEndian(s[1..]);
    }
  }

  /** The type index stored at `pos`, or None when fewer than `width` bytes remain. */
  function IndexAt(bytes: seq<byte>, pos: nat, width: IndexWidth): (r: Option<nat>)
    ensures r.Some? <==> pos + width.Size() <= |bytes|
    ensures r.Some? ==> r.value < Pow256(width.Size())
  {
    if pos + width.Size() <= |bytes| then Some(LittleEndian(bytes[pos..pos + width.Size()])) else None
  }

  /** Position of the first zero byte at or after `from`. */
  function FindNul(bytes: seq<byte>, from: nat): (r: Option<nat>)
    requires from <= |bytes|
    ensures r.Some? ==> from <= r.value < |bytes| && bytes[r.value] == 0
    ensures r.Some? ==> forall k :: from <= k < r.value ==> bytes[k] != 0
    ensures r.None? ==> forall k :: from <= k < |bytes| ==> bytes[k] != 0
    decreases |bytes| - from
  {
    if from == |bytes| then None
    else if bytes[from] == 0 then Some(from)
    else FindNul(bytes, from + 1)
  }

  /** Bytes read as single-byte characters. */
  function Chars(bytes: seq<byte>): (s: string)
    ensures |s| == |bytes|
    ensures forall k :: 0 <= k < |s| ==> s[k] as int == bytes[k] as int
  {
    if bytes == [] then [] else [(bytes[0] as int) as char] + Chars(bytes[1..])
  }

  /** The bytes of a name made of single-byte characters. */
  function Bytes(name: string): (b: seq<byte>)
    requires forall k :: 0 <= k < |name| ==> name[k] as int < 256
    ensures |b| == |name|
    ensures forall k :: 0 <= k < |b| ==> b[k] as int == name[k] as int
  {
    if name == [] then [] else [(name[0] as int) as byte] + Bytes(name[1..])
  }

  /** A name that can be written as a NUL-terminated byte string. */
  predicate Encodable(name: string) {
    forall k :: 0 <= k < |name| ==> 0 < name[k] as int < 256
  }

  /**
   * The NUL-terminated name at `pos` and the position just past its
   * terminator, or None when no terminator remains.
   */
  function NameAt(bytes: seq<byte>, pos: nat): (r: Option<(string, nat)>)
    requires pos <= |bytes|
    ensures r.Some? ==> pos < r.value.1 <= |bytes| && |r.value.0| == r.value.1 - pos - 1
  {
    match FindNul(bytes, pos)
    case None => None
    case Some(z) => Some((Chars(bytes[pos..z]), z + 1))
  }

  /** Reading a name fails exactly when no zero byte remains. */
  lemma NameAtFailsIffNoTerminator(bytes: seq<byte>, pos: nat)
    requires pos <= |bytes|
    ensures NameAt(bytes, pos).None? <==> forall k :: pos <= k < |bytes| ==> bytes[k] != 0
  {
  }

  /** The first zero byte is found wherever it lies. */
  lemma {:induction false} FindNulFinds(bytes: seq<byte>, from: nat, z: nat)
    requires from <= z < |bytes| && bytes[z] == 0
    requires forall k :: from <= k < z ==> bytes[k] != 0
    ensures FindNul(bytes, from) == Some(z)
    decreases z - from
  {
    if from < z {
      FindNulFinds(bytes, from + 1, z);
    }
  }

  lemma {:induction false} CharsOfBytes(name: string)
    requires Encodable(name)
    ensures Chars(Bytes(name)) == name
  {
    if name != [] {
      CharsOfBytes(name[1..]);
    }
  }

  /** An encodable name has no zero byte. */
  lemma BytesHaveNoNul(name: string)
    requires Encodable(name)
    ensures forall k :: 0 <= k < |name| ==> Bytes(name)[k] != 0
  {
    var b := Bytes(name);
    forall k | 0 <= k < |name| ensures b[k] != 0 {
      assert b[k] as int == name[k] as int;
    }
  }

  /** A name stored at `pos` with its terminator is read back. */
  lemma {:induction false} NameAtStored(bytes: seq<byte>, pos: nat, name: string)
    requires Encodable(name) && pos + |name| < |bytes|
    requires forall k :: 0 <= k < |name| ==> bytes[pos + k] as int == name[k] as int
    requires bytes[pos + |name|] == 0
    ensures NameAt(bytes, pos) == Some((name, pos + |name| + 1))
  {
    var z := pos + |name|;
    forall k | pos <= k < z ensures bytes[k] != 0 {
      assert bytes[pos + (k - pos)] as int == name[k - pos] as int;
    }
    FindNulFinds(bytes, pos, z);
    var s := Chars(bytes[pos..z]);
    forall k | 0 <= k < |name| ensures s[k] == name[k] {
      assert bytes[pos..z][k] == bytes[pos + k];
    }
    assert s == name;
    assert NameAt(bytes, pos) == Some((s, z + 1));
  }

  /** A name written with its terminator is read back, whatever surrounds it. */
  lemma {:induction false} NameRoundTrip(bytes: seq<byte>, front: seq<byte>, name: string, rest: seq<byte>)
    requires Encodable(name) && bytes == front + Bytes(name) + [0] + rest
    ensures NameAt(bytes, |front|) == Some((name, |front| + |name| + 1))
  {
    var encoded := Bytes(name);
    forall k | 0 <= k < |name| ensures bytes[|front| + k] as int == name[k] as int {
      assert bytes[|front| + k] == encoded[k];
    }
    assert bytes[|front| + |name|] == 0;
    NameAtStored(bytes, |front|, name);
  }

  /** A forward-only cursor over one record's bytes. */
  class ByteReader {
    const bytes: seq<byte>
    var index: nat

    ghost predicate Valid()
      reads this
    {
      index <= |bytes|
    }

    constructor (data: seq<byte>)
      ensures Valid() && bytes == data && index == 0
    {
      bytes := data;
      index := 0;
    }

    /** Number of bytes not yet consumed. */
    function NumRemaining(): (n: nat)
      requires Valid()
      reads this
      ensures index + n == |bytes|
    {
      |bytes| - index
    }

    /** Reads a type index; fails without moving when too few bytes remain. */
    method ParseTypeIndex(width: IndexWidth) returns (r: Result<nat, PdbError>)
      requires Valid()
      modifies this
      ensures Valid()
      ensures IndexAt(bytes, old(index), width).Some? ==>
                r == Success(IndexAt(bytes, old(index), width).value) && index == old(index) + width.Size()
      ensures IndexAt(bytes, old(index), width).None? ==>
                r == Failure(NotEnoughData) && index == old(index)
    {
      var v := IndexAt(bytes, index, width);
      if v.Some? {
        r := Success(v.value);
        index := index + width.Size();
      } else {
        r := Failure(NotEnoughData);
      }
    }

    /** Reads a NUL-terminated name; fails without moving when no terminator remains. */
    method ParseNullTerminatedString() returns (r: Result<string, PdbError>)
      requires Valid()
      modifies this
      ensures Valid()
      ensures NameAt(bytes, old(index)).Some? ==>
                r == Success(NameAt(bytes, old(index)).value.0) && index == NameAt(bytes, old(index)).value.1
      ensures NameAt(bytes, old(index)).None? ==>
                r == Failure(MissingTerminator) && index == old(index)
    {
      var n := NameAt(bytes, index);
      if n.Some? {
        r := Success(n.value.0);
        index := n.value.1;
      } else {
        r := Failure(MissingTerminator);
      }
    }

    /** Takes every byte not yet consumed; never fails. */
    method ParseBytesRemaining() returns (data: seq<byte>)
      requires Valid()
      modifies this
      ensures Valid()
      ensures data == bytes[old(index)..] && index == |bytes|
    {
      data := bytes[index..];
      index := |bytes|;
    }
  }
}
