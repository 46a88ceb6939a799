/**
 * The three record classes: `AbstractBasicArrayMsType`,
 * `AbstractFriendFunctionMsType` and `ListMsType`. Decoding reads the
 * record's fields from a `ByteReader` and records its dependency on the
 * PDB's stack; `emit` writes declarator text into a shared builder.
 */
module MsTypes {
  import opened Wrappers
  import opened PdbByteReader
  import opened Render
  import opened Pdb

  /** `java.lang.StringBuilder`, reduced to the two edits `emit` makes. */
  class StringBuilder {
    var chars: seq<char>

    constructor ()
      ensures chars == []
    {
      chars := [];
    }

    method Append(s: string)
      modifies this
      ensures chars == old(chars) + s
    {
      chars := chars + s;
    }

    /** Inserting past the end throws in Java; callers here insert at 0. */
    method Insert(offset: nat, s: string)
      requires offset <= |chars|
      modifies this
      ensures chars == old(chars)[..offset] + s + old(chars)[offset..]
    {
      chars := chars[..offset] + s + chars[offset..];
    }
  }

  // ---------------------------------------------------------------------
  // AbstractBasicArrayMsType
  // ---------------------------------------------------------------------

  /**
   * The constructor: parse the element type index, then push and pop a
   * `DATA` obligation for it. A short record fails and pushes nothing.
   */
  method DecodeBasicArray(pdb: AbstractPdb, reader: ByteReader, width: IndexWidth)
    returns (r: Result<Descriptor, PdbError>)
    requires reader.Valid()
    modifies pdb, reader
    ensures reader.Valid()
    ensures pdb.table == old(pdb.table) && pdb.dependencyStack == old(pdb.dependencyStack)
    ensures match IndexAt(reader.bytes, old(reader.index), width)
      case Some(idx) =>
        r == Success(BasicArray(idx)) && reader.index == old(reader.index) + width.Size()
        && pdb.pushed == old(pdb.pushed) + [CategoryIndex(Data, idx)]
      case None =>
        r == Failure(NotEnoughData) && reader.index == old(reader.index) && pdb.pushed == old(pdb.pushed)
  {
    var parsed := reader.ParseTypeIndex(width);
    if parsed.Failure? {
      return Failure(parsed.error);
    }
    var underlyingTypeIndex := parsed.value;
    pdb.PushDependencyStack(CategoryIndex(Data, underlyingTypeIndex));
    var _ := pdb.PopDependencyStack();
    r := Success(BasicArray(underlyingTypeIndex));
  }

  /** `getUnderlyingType`: the table entry stored under the element index. */
  function GetUnderlyingType(pdb: AbstractPdb, d: Descriptor): (r: Option<Descriptor>)
    requires d.BasicArray?
    reads pdb
    ensures r.Some? <==> d.underlyingTypeIndex in pdb.table
    ensures r.Some? ==> r.value == pdb.table[d.underlyingTypeIndex]
  {
    pdb.GetTypeRecord(d.underlyingTypeIndex)
  }

  // ---------------------------------------------------------------------
  // AbstractFriendFunctionMsType
  // ---------------------------------------------------------------------

  /**
   * `parseFields`: the befriended type's index, then its NUL-terminated
   * name; on success, the two fields and the position after them.
   */
  function FriendFieldsAt(bytes: seq<byte>, pos: nat, width: IndexWidth): (r: Result<(nat, string, nat), PdbError>)
    requires pos <= |bytes|
    ensures r.Success? ==> pos + width.Size() < r.value.2 <= |bytes|
    ensures r.Failure? && r.error == NotEnoughData <==> pos + width.Size() > |bytes|
  {
    match IndexAt(bytes, pos, width)
    case None => Failure(NotEnoughData)
    case Some(idx) =>
      match NameAt(bytes, pos + width.Size())
      case None => Failure(MissingTerminator)
      case Some((name, next)) => Success((idx, name, next))
  }

  /** Fields written in the record layout are parsed back, whatever follows them. */
  lemma {:induction false} FriendFieldsRoundTrip(idx: nat, name: string, rest: seq<byte>, width: IndexWidth)
    requires idx < Pow256(width.Size()) && Encodable(name)
    ensures var front := EncodeLittleEndian(idx, width.Size());
      FriendFieldsAt(front + Bytes(name) + [0] + rest, 0, width) == Success((idx, name, |front| + |name| + 1))
  {
    var front := EncodeLittleEndian(idx, width.Size());
    var bytes := front + Bytes(name) + [0] + rest;
    assert bytes[0..width.Size()] == front;
    NameRoundTrip(bytes, front, name, rest);
  }

  /**
   * The constructor: `create()` (which allocates the subclass's fields
   * and reads nothing), then `parseFields`, then push and pop a `DATA`
   * obligation for the befriended type. When `parseFields` fails its
   * error propagates and nothing is pushed.
   */
  method DecodeFriendFunction(pdb: AbstractPdb, reader: ByteReader, width: IndexWidth)
    returns (r: Result<Descriptor, PdbError>)
    requires reader.Valid()
    modifies pdb, reader
    ensures reader.Valid()
    ensures pdb.table == old(pdb.table) && pdb.dependencyStack == old(pdb.dependencyStack)
    ensures match FriendFieldsAt(reader.bytes, old(reader.index), width)
      case Success((idx, name, next)) =>
        r == Success(FriendFunction(idx, name)) && reader.index == next
        && pdb.pushed == old(pdb.pushed) + [CategoryIndex(Data, idx)]
      case Failure(e) =>
        r == Failure(e) && pdb.pushed == old(pdb.pushed)
        && reader.index == old(reader.index) + (if e == NotEnoughData then 0 else width.Size())
  {
    var fields := ParseFriendFields(reader, width);
    if fields.Failure? {
      return Failure(fields.error);
    }
    var (friendTypeIndex, name) := fields.value;
    pdb.PushDependencyStack(CategoryIndex(Data, friendTypeIndex));
    var _ := pdb.PopDependencyStack();
    r := Success(FriendFunction(friendTypeIndex, name));
  }

  /** `parseFields` on the reader. */
  method ParseFriendFields(reader: ByteReader, width: IndexWidth) returns (r: Result<(nat, string), PdbError>)
    requires reader.Valid()
    modifies reader
    ensures reader.Valid()
    ensures match FriendFieldsAt(reader.bytes, old(reader.index), width)
      case Success((idx, name, next)) => r == Success((idx, name)) && reader.index == next
      case Failure(e) =>
        r == Failure(e) && reader.index == old(reader.index) + (if e == NotEnoughData then 0 else width.Size())
  {
    var index := reader.ParseTypeIndex(width);
    if index.Failure? {
      return Failure(index.error);
    }
    var name := reader.ParseNullTerminatedString();
    if name.Failure? {
      return Failure(name.error);
    }
    r := Success((index.value, name.value));
  }

  // ---------------------------------------------------------------------
  // ListMsType
  // ---------------------------------------------------------------------

  /** `getPdbId`. */
  function ListGetPdbId(): (id: int)
    ensures id == 0x0203
  {
    LIST_PDB_ID
  }

  /** The constructor: the payload is every byte left in the record. */
  method DecodeList(reader: ByteReader) returns (d: Descriptor)
    requires reader.Valid()
    modifies reader
    ensures reader.Valid() && reader.NumRemaining() == 0
    ensures d == List(reader.bytes[old(reader.index)..])
  {
    var data := reader.ParseBytesRemaining();
    d := List(data);
  }

  // ---------------------------------------------------------------------
  // emit(StringBuilder, Bind)
  // ---------------------------------------------------------------------

  /** Dispatch of the virtual `emit` on the record's class. */
  method Emit(pdb: AbstractPdb, d: Descriptor, builder: StringBuilder, bind: Bind, ghost rank: map<nat, nat>)
    requires Resolvable(pdb.table, rank, d)
    modifies builder
    ensures builder.chars == Emitted(pdb.table, rank, old(builder.chars), d, bind)
    decreases Height(pdb.table, rank, d), 1
  {
    match d
    case BasicArray(_) => EmitBasicArray(pdb, d, builder, bind, rank);
    case FriendFunction(_, _) => EmitFriendFunction(pdb, d, builder, bind, rank);
    case List(_) => EmitList(d, builder, bind);
    case Leaf(text) => builder.Append(text);
  }

  /**
   * Renders the element with the same context; below array precedence
   * wraps the whole builder in parentheses; then appends `[]`.
   */
  method EmitBasicArray(pdb: AbstractPdb, d: Descriptor, builder: StringBuilder, bind: Bind, ghost rank: map<nat, nat>)
    requires d.BasicArray? && Resolvable(pdb.table, rank, d)
    modifies builder
    ensures builder.chars == Emitted(pdb.table, rank, old(builder.chars), d, bind)
    decreases Height(pdb.table, rank, d), 0
  {
    var underlying := GetUnderlyingType(pdb, d).value;
    Emit(pdb, underlying, builder, bind, rank);
    if bind.ordinal < ARRAY_ORDINAL {
      builder.Insert(0, "(");
      builder.Append(")");
    }
    builder.Append("[]");
  }

  /**
   * Appends `friend: `, then the name followed by the target's text,
   * built in a builder of its own.
   */
  method EmitFriendFunction(pdb: AbstractPdb, d: Descriptor, builder: StringBuilder, bind: Bind, ghost rank: map<nat, nat>)
    requires d.FriendFunction? && Resolvable(pdb.table, rank, d)
    modifies builder
    ensures builder.chars == Emitted(pdb.table, rank, old(builder.chars), d, bind)
    decreases Height(pdb.table, rank, d), 0
  {
    builder.Append("friend: ");
    var myBuilder := new StringBuilder();
    myBuilder.Append(d.name);
    assert myBuilder.chars == d.name;
    var target := pdb.GetTypeRecord(d.friendTypeIndex).value;
    Emit(pdb, target, myBuilder, DEFAULT_BIND, rank);
    builder.Append(myBuilder.chars);
  }

  /** Appends the placeholder naming the class and the payload length. */
  method EmitList(d: Descriptor, builder: StringBuilder, bind: Bind)
    requires d.List?
    modifies builder
    ensures builder.chars == old(builder.chars) + ListText(|d.data|)
  {
    builder.Append("<<ListMsType dataLength=" + Decimal(|d.data|) + ">>");
  }
}
