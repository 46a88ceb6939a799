# PDB type records: basic array, friend function, LF_LIST

A Dafny model of three CodeView type-record classes from Ghidra's PDB
reader: `AbstractBasicArrayMsType`, `AbstractFriendFunctionMsType` and
`ListMsType`. Each record has a decode step and an `emit` step.

- The decode step reads the record's fields from a `PdbByteReader`.
  Records that embed another record's index push a `(DATA, index)`
  obligation on the PDB's dependency stack and pop it straight away.
- The `emit` step writes C-style declarator text into a shared, mutable
  `StringBuilder`, looking referenced records up in the PDB's record table.

Files:

- `wrappers.dfy`: `Option` and `Result`.
- `pdb_byte_reader.dfy`: the byte cursor (class `ByteReader`) and the
  specification of what it reads: little-endian type indices,
  NUL-terminated names, the remaining bytes.
- `render.dfy`: the record datatype, the `Bind` context, the acyclicity
  ranking of the table, and `Emitted`, the builder contents after `emit`
  as a function of the previous contents. It also holds the lemmas about
  rendering.
- `pdb.dfy`: class `AbstractPdb`, holding the record table and the
  dependency stack, plus a ghost log of every obligation pushed.
- `ms_types.dfy`: `StringBuilder`, the decode methods and the `emit`
  methods. Each `emit` method is proved to leave exactly `Emitted(...)` in
  the builder.

Behaviour of the code that a reader might not expect, and that the model
keeps:

- A friend record renders as `friend: ` + name + target text with no
  separator, so `Foo` befriending `int` gives `friend: Fooint`.
- An array decides on parentheses from the `bind` it received, not from
  its element's precedence. It renders its element with that same `bind`.
- The `(` goes at position 0 of the whole builder, ahead of any text the
  builder held before the call.
- Nothing guards against cyclic references. Rendering a record instead
  requires a ranking of the records it reaches (`Render.Resolvable`).
  Records the rendered record does not reach are unconstrained.
  `SelfReferenceUnranked` and `MutualReferenceUnranked` show that a
  self-referencing array and a pair of arrays referring to each other
  cannot be rendered.
- A friend's target is rendered into a fresh builder that already holds
  the name. A target array rendered below array precedence therefore puts
  its `(` in front of the name, but never in front of `friend: `.

## Model

| member | source | states |
|---|---|---|
| `MsTypes.DecodeBasicArray` | Ghidra/Features/PDB/src/main/java/ghidra/pdb/pdbreader/type/AbstractBasicArrayMsType.java:39-46 | a record with enough bytes yields `BasicArray(idx)` for the little-endian index at the cursor, advances by the index width and logs exactly one `(DATA, idx)` push; a short record fails with `NotEnoughData`, leaves the cursor and logs nothing; the dependency stack and table end as they began |
| `MsTypes.GetUnderlyingType` | Ghidra/Features/PDB/src/main/java/ghidra/pdb/pdbreader/type/AbstractBasicArrayMsType.java:52-54 | returns the table entry under the element index, and nothing when the table has none |
| `MsTypes.EmitBasicArray` | Ghidra/Features/PDB/src/main/java/ghidra/pdb/pdbreader/type/AbstractBasicArrayMsType.java:57-65 | the builder ends holding `Emitted` of its previous contents for the array record |
| `MsTypes.Emit` | Ghidra/Features/PDB/src/main/java/ghidra/pdb/pdbreader/type/AbstractBasicArrayMsType.java:59 | virtual dispatch of `emit`: for every resolvable record the builder ends holding `Emitted` of its previous contents |
| `Render.Emitted` | Ghidra/Features/PDB/src/main/java/ghidra/pdb/pdbreader/type/AbstractBasicArrayMsType.java:57-65 | the builder never shrinks, and grows for every record except a fixed text that is empty |
| `Render.EmittedSurroundsPrefix` | Ghidra/Features/PDB/src/main/java/ghidra/pdb/pdbreader/type/AbstractBasicArrayMsType.java:59-64 | rendering never edits the builder's previous contents: the result is some `(` characters, then the previous contents unchanged, then appended text |
| `Render.NoOpensAtArrayOrAbove` | Ghidra/Features/PDB/src/main/java/ghidra/pdb/pdbreader/type/AbstractBasicArrayMsType.java:59-63 | at array precedence or above, no `(` is inserted anywhere in a chain of arrays, because each element gets the same bind |
| `Render.KeepsPrefixAtArrayOrAbove` | Ghidra/Features/PDB/src/main/java/ghidra/pdb/pdbreader/type/AbstractBasicArrayMsType.java:59-64 | at array precedence or above, the previous contents remain a prefix of the result |
| `Render.ArrayBelowArrayWraps` | Ghidra/Features/PDB/src/main/java/ghidra/pdb/pdbreader/type/AbstractBasicArrayMsType.java:58-64 | below array precedence the result is `(` + the element rendered with the same bind over the previous contents + `)[]`, so `(` precedes the earlier text |
| `Render.ArrayAtOrAboveArrayAppends` | Ghidra/Features/PDB/src/main/java/ghidra/pdb/pdbreader/type/AbstractBasicArrayMsType.java:58-64 | at array precedence or above the result is the element rendered with the same bind + `[]`, equal to the previous contents + the element's text + `[]` |
| `Render.ArrayEndsWithBrackets` | Ghidra/Features/PDB/src/main/java/ghidra/pdb/pdbreader/type/AbstractBasicArrayMsType.java:64 | an array's rendering always ends with `[]` and is at least two characters longer than the previous contents |
| `Render.RepeatedEmitAppendsSameText` | Ghidra/Features/PDB/src/main/java/ghidra/pdb/pdbreader/type/AbstractBasicArrayMsType.java:57-65 | at array precedence or above, rendering a record twice appends the same text twice |
| `Render.ArrayExamples` | Ghidra/Features/PDB/src/main/java/ghidra/pdb/pdbreader/type/AbstractBasicArrayMsType.java:57-65 | `x` + array of `int` gives `(xint)[]` below array precedence and `xint[]` at it; an array of arrays of `int` gives `((int)[])[]` |
| `Render.SelfReferenceUnranked` | Ghidra/Features/PDB/src/main/java/ghidra/pdb/pdbreader/type/AbstractBasicArrayMsType.java:52-59 | an array whose element is itself is never resolvable, so the precondition of `emit` excludes the recursion the source does not guard |
| `Render.MutualReferenceUnranked` | Ghidra/Features/PDB/src/main/java/ghidra/pdb/pdbreader/type/AbstractBasicArrayMsType.java:52-59 | neither of two arrays whose elements are each other is resolvable |
| `Render.UnrelatedMalformedRecordsExample` | Ghidra/Features/PDB/src/main/java/ghidra/pdb/pdbreader/type/AbstractBasicArrayMsType.java:52-64 | a cyclic record and a record with a missing target elsewhere in the table do not stop an array of `int` from rendering as `(int)[]` and `int[]` |
| `Pdb.AbstractPdb.PushDependencyStack` | Ghidra/Features/PDB/src/main/java/ghidra/pdb/pdbreader/type/AbstractBasicArrayMsType.java:43-44 | appends the obligation to the stack and to the log of pushes; the table is unchanged |
| `Pdb.AbstractPdb.PopDependencyStack` | Ghidra/Features/PDB/src/main/java/ghidra/pdb/pdbreader/type/AbstractBasicArrayMsType.java:45 | on a non-empty stack removes and returns the most recent obligation; the log and the table are unchanged |
| `Pdb.AbstractPdb.GetTypeRecord` | Ghidra/Features/PDB/src/main/java/ghidra/pdb/pdbreader/type/AbstractBasicArrayMsType.java:53 | returns the record under an index exactly when the table has one |
| `PdbByteReader.ByteReader.ParseTypeIndex` | Ghidra/Features/PDB/src/main/java/ghidra/pdb/pdbreader/type/AbstractBasicArrayMsType.java:42 | yields the index at the cursor and advances by its width, or fails with `NotEnoughData` without moving |
| `PdbByteReader.IndexAt` | Ghidra/Features/PDB/src/main/java/ghidra/pdb/pdbreader/type/AbstractBasicArrayMsType.java:42 | an index is read exactly when its width fits in the remaining bytes, and it is below 256 to the width |
| `PdbByteReader.LittleEndian` | Ghidra/Features/PDB/src/main/java/ghidra/pdb/pdbreader/type/AbstractBasicArrayMsType.java:42 | the value of n bytes is below 256 to the n |
| `PdbByteReader.EncodeLittleEndian` | Ghidra/Features/PDB/src/main/java/ghidra/pdb/pdbreader/type/AbstractBasicArrayMsType.java:42 | encoding a value that fits gives `width` bytes that decode back to it |
| `PdbByteReader.EncodeOfDecode` | Ghidra/Features/PDB/src/main/java/ghidra/pdb/pdbreader/type/AbstractBasicArrayMsType.java:42 | decoding and re-encoding any byte string gives it back |
| `MsTypes.DecodeFriendFunction` | Ghidra/Features/PDB/src/main/java/ghidra/pdb/pdbreader/type/AbstractFriendFunctionMsType.java:40-47 | when the fields parse, yields `FriendFunction(idx, name)`, leaves the cursor after the name and logs one `(DATA, idx)` push made after parsing; when `parseFields` fails its error is returned, nothing is pushed, and the cursor stays put (short index) or sits just past the index (unterminated name); the stack and table end as they began |
| `MsTypes.ParseFriendFields` | Ghidra/Features/PDB/src/main/java/ghidra/pdb/pdbreader/type/AbstractFriendFunctionMsType.java:43 | reads the index and then the name as `FriendFieldsAt` describes, propagating the first failure |
| `MsTypes.FriendFieldsAt` | Ghidra/Features/PDB/src/main/java/ghidra/pdb/pdbreader/type/AbstractFriendFunctionMsType.java:43 | parsing ends past the index and within the record; it fails with `NotEnoughData` exactly when the index does not fit |
| `MsTypes.FriendFieldsRoundTrip` | Ghidra/Features/PDB/src/main/java/ghidra/pdb/pdbreader/type/AbstractFriendFunctionMsType.java:43 | an index and a name written in the record layout parse back to themselves, whatever bytes follow |
| `PdbByteReader.ByteReader.ParseNullTerminatedString` | Ghidra/Features/PDB/src/main/java/ghidra/pdb/pdbreader/type/AbstractFriendFunctionMsType.java:43 | yields the name up to the first zero byte and moves past it, or fails with `MissingTerminator` without moving |
| `PdbByteReader.FindNul` | Ghidra/Features/PDB/src/main/java/ghidra/pdb/pdbreader/type/AbstractFriendFunctionMsType.java:43 | finds the first zero byte at or after the cursor, or reports that there is none |
| `PdbByteReader.NameAt` | Ghidra/Features/PDB/src/main/java/ghidra/pdb/pdbreader/type/AbstractFriendFunctionMsType.java:43 | a name read ends past the cursor and within the record, one byte longer than the name |
| `PdbByteReader.NameAtFailsIffNoTerminator` | Ghidra/Features/PDB/src/main/java/ghidra/pdb/pdbreader/type/AbstractFriendFunctionMsType.java:43 | reading a name fails exactly when no zero byte remains |
| `PdbByteReader.NameRoundTrip` | Ghidra/Features/PDB/src/main/java/ghidra/pdb/pdbreader/type/AbstractFriendFunctionMsType.java:43 | a name without zero characters, written with its terminator, is read back whatever surrounds it |
| `PdbByteReader.Chars` | Ghidra/Features/PDB/src/main/java/ghidra/pdb/pdbreader/type/AbstractFriendFunctionMsType.java:43 | each byte becomes the character with the same code |
| `PdbByteReader.Bytes` | Ghidra/Features/PDB/src/main/java/ghidra/pdb/pdbreader/type/AbstractFriendFunctionMsType.java:43 | each single-byte character becomes the byte with the same code |
| `MsTypes.EmitFriendFunction` | Ghidra/Features/PDB/src/main/java/ghidra/pdb/pdbreader/type/AbstractFriendFunctionMsType.java:50-57 | the builder ends holding `Emitted` of its previous contents for the friend record |
| `Render.FriendRendering` | Ghidra/Features/PDB/src/main/java/ghidra/pdb/pdbreader/type/AbstractFriendFunctionMsType.java:50-57 | the result is the previous contents + `friend: ` + the target's `(`s + name + the target's text; the target's `(`s land after `friend: `; the result is the same for every bind |
| `Render.FriendExample` | Ghidra/Features/PDB/src/main/java/ghidra/pdb/pdbreader/type/AbstractFriendFunctionMsType.java:52-56 | `Foo` befriending `int` renders as `friend: Fooint` |
| `MsTypes.ListGetPdbId` | Ghidra/Features/PDB/src/main/java/ghidra/pdb/pdbreader/type/ListMsType.java:44-47 | the record id is `0x0203` |
| `MsTypes.DecodeList` | Ghidra/Features/PDB/src/main/java/ghidra/pdb/pdbreader/type/ListMsType.java:39-42 | never fails; the payload is exactly the bytes that remained, and none remain afterwards |
| `PdbByteReader.ByteReader.ParseBytesRemaining` | Ghidra/Features/PDB/src/main/java/ghidra/pdb/pdbreader/type/ListMsType.java:41 | returns the unread suffix and leaves the cursor at the end |
| `PdbByteReader.ByteReader.NumRemaining` | Ghidra/Features/PDB/src/main/java/ghidra/pdb/pdbreader/type/ListMsType.java:41 | the cursor plus the remaining count is the record length |
| `MsTypes.EmitList` | Ghidra/Features/PDB/src/main/java/ghidra/pdb/pdbreader/type/ListMsType.java:50-54 | appends the placeholder text to the builder, whatever the bind |
| `Render.ListRendering` | Ghidra/Features/PDB/src/main/java/ghidra/pdb/pdbreader/type/ListMsType.java:50-54 | the result is the previous contents + `<<ListMsType dataLength=` + decimal digits + `>>`, and those digits read back as the payload length; a second rendering, in any bind, appends the same text again |
| `Render.Decimal` | Ghidra/Features/PDB/src/main/java/ghidra/pdb/pdbreader/type/ListMsType.java:53 | `%d` of a length: at least one digit, all decimal digits, no leading zero |
| `Render.DecimalRoundTrip` | Ghidra/Features/PDB/src/main/java/ghidra/pdb/pdbreader/type/ListMsType.java:53 | the digits printed for n denote n |
| `MsTypes.StringBuilder.Append` | Ghidra/Features/PDB/src/main/java/ghidra/pdb/pdbreader/type/AbstractBasicArrayMsType.java:62-64 | the contents become the old contents followed by the argument |
| `MsTypes.StringBuilder.Insert` | Ghidra/Features/PDB/src/main/java/ghidra/pdb/pdbreader/type/AbstractBasicArrayMsType.java:61 | the argument is spliced in at the offset and nothing else changes |

## Left out

- `PdbByteReader` internals are not part of this model. A type index is
  read as an unsigned little-endian value of 2 or 4 bytes. A failed read
  leaves the cursor where it was.
- The `AbstractMsType` base constructor is not part of this model.
- The concrete `create()` and `parseFields` of the subclasses are not part
  of this model. `create()` is taken to read nothing. `parseFields` is an
  index followed by a NUL-terminated name of single-byte characters.
  Padding, length-prefixed names and UTF-8 decoding are not modelled.
- The full `Bind` enumeration is not part of this model. `ARRAY` has
  ordinal 2. The one-argument `emit(StringBuilder)` overload is not part
  of this model; it is assumed to use a bind of ordinal 0
  (`DEFAULT_BIND`), so a friend of an array renders as
  `friend: (Fooint)[]`. A bind at or above `ARRAY` would give
  `friend: Fooint[]`. The lemmas are stated in terms
  of these two constants, not their values, except the concrete examples.
- `CategoryIndex` categories other than `DATA` are not modelled.
- `getTypeRecord` for an index with no record is not part of this model.
  `emit` requires every record the emitted record reaches to be present
  and ranked, which also rules out the cycles the source does not guard
  against along that chain.
- The reflective `getClass().getSimpleName()` is the constant
  `ListMsType`.
- Exception classes and messages are reduced to `NotEnoughData` and
  `MissingTerminator`.
- `Render.Decimal` / `MsTypes.EmitList`: `%d` is modelled with ASCII
  digits; the default-locale dependence of `String.format`, which prints
  other digits under a locale whose zero digit is not `0`, is not
  modelled.
