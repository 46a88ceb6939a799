/**
 * The declarator text a type record appends to a shared `StringBuilder`,
 * stated as a function of the builder's previous contents. Records refer
 * to each other by index through the PDB's record table.
 */
module Render {
  import opened Wrappers
  import opened PdbByteReader

  /**
   * The binding (precedence) context of `emit`. Only the position of
   * `ARRAY` in the enumeration is consulted by the records modelled here.
   */
  datatype Bind = Bind(ordinal: nat)

  const ARRAY_ORDINAL: nat := 2
  const ARRAY: Bind := Bind(ARRAY_ORDINAL)

  /**
   * The context assumed for the one-argument `emit(StringBuilder)`
   * overload. That overload's body is not part of this model, so the
   * value is an assumption; it decides whether an array befriended by a
   * friend record is parenthesised.
   */
  const DEFAULT_BIND: Bind := Bind(0)

  /** `LF_LIST`. */
  const LIST_PDB_ID: int := 0x0203

  /** A decoded type record. */
  datatype Descriptor =
    | BasicArray(underlyingTypeIndex: nat)
    | FriendFunction(friendTypeIndex: nat, name: string)
    | List(data: seq<byte>)
      /** A record outside this model, rendered as fixed text. */
    | Leaf(text: string)
  {
    /** True of the records that hold the index of another record. */
    predicate Refers() {
      BasicArray? || FriendFunction?
    }

    function Target(): nat
      requires Refers()
    {
      if BasicArray? then underlyingTypeIndex else friendTypeIndex
    }
  }

  type Table = map<nat, Descriptor>

  /**
   * `rank` orders some records of the table so that each ranked record
   * is present and refers only to a ranked record of lower rank. Records
   * outside `rank` are unconstrained: they may be cyclic or dangling.
   */
  ghost predicate Ranked(table: Table, rank: map<nat, nat>) {
    forall i :: i in rank ==>
      i in table &&
      (table[i].Refers() ==> table[i].Target() in rank && rank[table[i].Target()] < rank[i])
  }

  /**
   * `d` can be rendered: the chain of records it reaches is ranked, so
   * it is present in the table and ends without a cycle.
   */
  ghost predicate Resolvable(table: Table, rank: map<nat, nat>, d: Descriptor) {
    Ranked(table, rank) && (d.Refers() ==> d.Target() in rank)
  }

  ghost function Height(table: Table, rank: map<nat, nat>, d: Descriptor): nat
    requires Resolvable(table, rank, d)
  {
    if d.Refers() then rank[d.Target()] + 1 else 0
  }

  /** Decimal digits of `n`, as `%d` prints a non-negative int. */
  function Decimal(n: nat): (s: string)
    ensures |s| >= 1
    ensures forall k :: 0 <= k < |s| ==> '0' <= s[k] <= '9'
    ensures |s| > 1 ==> s[0] != '0'
  {
    if n < 10 then [Digit(n)] else Decimal(n / 10) + [Digit(n % 10)]
  }

  function Digit(d: nat): (c: char)
    requires d < 10
    ensures '0' <= c <= '9'
  {
    "0123456789"[d]
  }

  /** The number a string of decimal digits denotes. */
  function DecimalValue(s: string): nat
    requires forall k :: 0 <= k < |s| ==> '0' <= s[k] <= '9'
  {
    if s == [] then 0 else 10 * DecimalValue(s[..|s| - 1]) + (s[|s| - 1] as int - '0' as int)
  }

  lemma {:induction false} DecimalRoundTrip(n: nat)
    ensures DecimalValue(Decimal(n)) == n
  {
    if n >= 10 {
      DecimalRoundTrip(n / 10);
      var s := Decimal(n);
      assert s[..|s| - 1] == Decimal(n / 10);
    }
  }

  /** The placeholder `ListMsType.emit` appends for a payload of `n` bytes. */
  function ListText(n: nat): string {
    "<<ListMsType dataLength=" + Decimal(n) + ">>"
  }

  /**
   * The builder contents after `d.emit(builder, bind)` when the builder
   * held `prefix`.
   */
  function Emitted(table: Table, ghost rank: map<nat, nat>, prefix: string, d: Descriptor, bind: Bind): (r: string)
    requires Resolvable(table, rank, d)
    ensures |r| > |prefix| || (d.Leaf? && d.text == [] && r == prefix)
    decreases Height(table, rank, d)
  {
    match d
    case Leaf(text) => prefix + text
    case List(data) => prefix + ListText(|data|)
    case FriendFunction(j, name) =>
      prefix + "friend: " + Emitted(table, rank, name, table[j], DEFAULT_BIND)
    case BasicArray(j) =>
      var inner := Emitted(table, rank, prefix, table[j], bind);
      (if bind.ordinal < ARRAY_ORDINAL then "(" + inner + ")" else inner) + "[]"
  }

  /** `n` opening parentheses. */
  function Opening(n: nat): (s: string)
    ensures |s| == n && forall k :: 0 <= k < n ==> s[k] == '('
  {
    if n == 0 then "" else "(" + Opening(n - 1)
  }

  /** How many `(` rendering `d` inserts at position 0 of the builder. */
  function Opens(table: Table, ghost rank: map<nat, nat>, d: Descriptor, bind: Bind): nat
    requires Resolvable(table, rank, d)
    decreases Height(table, rank, d)
  {
    match d
    case BasicArray(j) => Opens(table, rank, table[j], bind) + (if bind.ordinal < ARRAY_ORDINAL then 1 else 0)
    case _ => 0
  }

  /** The text rendering `d` places after the builder's previous contents. */
  function Tail(table: Table, ghost rank: map<nat, nat>, d: Descriptor, bind: Bind): string
    requires Resolvable(table, rank, d)
    decreases Height(table, rank, d)
  {
    match d
    case Leaf(text) => text
    case List(data) => ListText(|data|)
    case FriendFunction(j, name) =>
      "friend: " + Opening(Opens(table, rank, table[j], DEFAULT_BIND)) + name + Tail(table, rank, table[j], DEFAULT_BIND)
    case BasicArray(j) =>
      Tail(table, rank, table[j], bind) + (if bind.ordinal < ARRAY_ORDINAL then ")" else "") + "[]"
  }

  /**
   * Rendering never edits what the builder held: it only puts opening
   * parentheses in front of it and text after it.
   */
  lemma {:induction false} EmittedSurroundsPrefix(table: Table, rank: map<nat, nat>, prefix: string, d: Descriptor, bind: Bind)
    requires Resolvable(table, rank, d)
    ensures Emitted(table, rank, prefix, d, bind)
         == Opening(Opens(table, rank, d, bind)) + prefix + Tail(table, rank, d, bind)
    decreases Height(table, rank, d)
  {
    match d
    case Leaf(_) =>
    case List(_) =>
    case FriendFunction(j, name) =>
      EmittedSurroundsPrefix(table, rank, name, table[j], DEFAULT_BIND);
      var t := table[j];
      var inner := Emitted(table, rank, name, t, DEFAULT_BIND);
      var tail := Opening(Opens(table, rank, t, DEFAULT_BIND)) + name + Tail(table, rank, t, DEFAULT_BIND);
      assert inner == tail;
      assert Emitted(table, rank, prefix, d, bind) == prefix + ("friend: " + inner);
      assert Tail(table, rank, d, bind) == "friend: " + tail;
    case BasicArray(j) =>
      EmittedSurroundsPrefix(table, rank, prefix, table[j], bind);
      ArrayCaseSurrounds(table, rank, prefix, j, bind);
  }

  lemma ArrayCaseSurrounds(table: Table, rank: map<nat, nat>, prefix: string, j: nat, bind: Bind)
    requires Resolvable(table, rank, BasicArray(j))
    requires Resolvable(table, rank, table[j])
    requires Emitted(table, rank, prefix, table[j], bind)
          == Opening(Opens(table, rank, table[j], bind)) + prefix + Tail(table, rank, table[j], bind)
    ensures Emitted(table, rank, prefix, BasicArray(j), bind)
         == Opening(Opens(table, rank, BasicArray(j), bind)) + prefix + Tail(table, rank, BasicArray(j), bind)
  {
    var n := Opens(table, rank, table[j], bind);
    var t := Tail(table, rank, table[j], bind);
    var inner := Emitted(table, rank, prefix, table[j], bind);
    var wrap := bind.ordinal < ARRAY_ORDINAL;
    var close := if wrap then ")" else "";
    var opens := n + (if wrap then 1 else 0);
    assert Emitted(table, rank, prefix, BasicArray(j), bind) == (if wrap then "(" + inner + ")" else inner) + "[]";
    assert Opens(table, rank, BasicArray(j), bind) == opens;
    assert Tail(table, rank, BasicArray(j), bind) == t + close + "[]";
    if wrap {
      OpeningSplit(n);
    }
    Regroup(if wrap then "(" else "", Opening(n), prefix, t, close);
  }

  /** String regrouping used by the array case. */
  lemma Regroup(open: string, o: string, p: string, t: string, close: string)
    ensures open + (o + p + t) + close + "[]" == (open + o) + p + (t + close + "[]")
  {
  }

  lemma {:induction false} OpeningSplit(n: nat)
    ensures Opening(n + 1) == "(" + Opening(n)
    ensures Opening(n + 1) == Opening(n) + "("
  {
    if n > 0 {
      OpeningSplit(n - 1);
    }
  }

  /** At array precedence or above nothing is inserted anywhere in the chain. */
  lemma {:induction false} NoOpensAtArrayOrAbove(table: Table, rank: map<nat, nat>, d: Descriptor, bind: Bind)
    requires Resolvable(table, rank, d) && bind.ordinal >= ARRAY_ORDINAL
    ensures Opens(table, rank, d, bind) == 0
    decreases Height(table, rank, d)
  {
    if d.BasicArray? {
      NoOpensAtArrayOrAbove(table, rank, table[d.underlyingTypeIndex], bind);
    }
  }

  /** With a context at array precedence or above, the previous contents stay a prefix. */
  lemma KeepsPrefixAtArrayOrAbove(table: Table, rank: map<nat, nat>, prefix: string, d: Descriptor, bind: Bind)
    requires Resolvable(table, rank, d) && bind.ordinal >= ARRAY_ORDINAL
    ensures Emitted(table, rank, prefix, d, bind) == prefix + Tail(table, rank, d, bind)
  {
    EmittedSurroundsPrefix(table, rank, prefix, d, bind);
    NoOpensAtArrayOrAbove(table, rank, d, bind);
  }

  /** An array whose element is itself can never be rendered. */
  lemma SelfReferenceUnranked(table: Table, rank: map<nat, nat>, i: nat)
    requires i in table && table[i] == BasicArray(i)
    ensures !Resolvable(table, rank, table[i])
  {
  }

  /** Nor can either of two arrays whose elements are each other. */
  lemma MutualReferenceUnranked(table: Table, rank: map<nat, nat>, a: nat, b: nat)
    requires a in table && b in table
    requires table[a] == BasicArray(b) && table[b] == BasicArray(a)
    ensures !Resolvable(table, rank, table[a]) && !Resolvable(table, rank, table[b])
  {
  }

  /**
   * Below array precedence the array wraps everything the builder then
   * holds, earlier text included, and its element is rendered with the
   * same context.
   */
  lemma ArrayBelowArrayWraps(table: Table, rank: map<nat, nat>, prefix: string, j: nat, bind: Bind)
    requires Resolvable(table, rank, BasicArray(j)) && bind.ordinal < ARRAY_ORDINAL
    ensures var child := table[j];
      Emitted(table, rank, prefix, BasicArray(j), bind) == "(" + Emitted(table, rank, prefix, child, bind) + ")[]"
      && Emitted(table, rank, prefix, BasicArray(j), bind)
         == "(" + Opening(Opens(table, rank, child, bind)) + prefix + Tail(table, rank, child, bind) + ")[]"
  {
    EmittedSurroundsPrefix(table, rank, prefix, table[j], bind);
  }

  /**
   * At array precedence or above no parenthesis is added anywhere: the
   * builder's previous contents remain its prefix and `[]` follows the
   * element's text, rendered with the same context.
   */
  lemma ArrayAtOrAboveArrayAppends(table: Table, rank: map<nat, nat>, prefix: string, j: nat, bind: Bind)
    requires Resolvable(table, rank, BasicArray(j)) && bind.ordinal >= ARRAY_ORDINAL
    ensures var child := table[j];
      Emitted(table, rank, prefix, BasicArray(j), bind) == Emitted(table, rank, prefix, child, bind) + "[]"
      && Emitted(table, rank, prefix, BasicArray(j), bind) == prefix + Tail(table, rank, child, bind) + "[]"
  {
    KeepsPrefixAtArrayOrAbove(table, rank, prefix, table[j], bind);
  }

  /** An array's rendering always ends with `[]`. */
  lemma ArrayEndsWithBrackets(table: Table, rank: map<nat, nat>, prefix: string, j: nat, bind: Bind)
    requires Resolvable(table, rank, BasicArray(j))
    ensures var s := Emitted(table, rank, prefix, BasicArray(j), bind);
      |s| >= |prefix| + 2 && s[|s| - 2..] == "[]"
  {
    EmittedSurroundsPrefix(table, rank, prefix, BasicArray(j), bind);
  }

  /**
   * A friend record appends `friend: ` and then its name and its target's
   * text, with no separator; the target is rendered in a builder of its
   * own, so parentheses it inserts land before the name and never before
   * `friend: ` or the earlier text. The context received is not used.
   */
  lemma FriendRendering(table: Table, rank: map<nat, nat>, prefix: string, j: nat, name: string, bind: Bind, other: Bind)
    requires Resolvable(table, rank, FriendFunction(j, name))
    ensures var t := table[j];
      Emitted(table, rank, prefix, FriendFunction(j, name), bind)
      == prefix + "friend: " + Opening(Opens(table, rank, t, DEFAULT_BIND)) + name + Tail(table, rank, t, DEFAULT_BIND)
    ensures Emitted(table, rank, prefix, FriendFunction(j, name), bind)
         == Emitted(table, rank, prefix, FriendFunction(j, name), other)
  {
    EmittedSurroundsPrefix(table, rank, name, table[j], DEFAULT_BIND);
  }

  /**
   * A list record appends its placeholder, whose decimal number reads
   * back as the payload length; the context is not used, and a second
   * rendering appends the same text again.
   */
  lemma ListRendering(table: Table, rank: map<nat, nat>, prefix: string, data: seq<byte>, bind: Bind, other: Bind)
    requires Ranked(table, rank)
    ensures var digits := Decimal(|data|);
      Emitted(table, rank, prefix, List(data), bind) == prefix + "<<ListMsType dataLength=" + digits + ">>"
      && DecimalValue(digits) == |data|
    ensures Emitted(table, rank, Emitted(table, rank, prefix, List(data), bind), List(data), other)
         == prefix + ListText(|data|) + ListText(|data|)
  {
    DecimalRoundTrip(|data|);
  }

  /** At array precedence or above, rendering twice appends the same text twice. */
  lemma RepeatedEmitAppendsSameText(table: Table, rank: map<nat, nat>, prefix: string, d: Descriptor, bind: Bind)
    requires Resolvable(table, rank, d) && bind.ordinal >= ARRAY_ORDINAL
    ensures var once := Emitted(table, rank, prefix, d, bind);
      once == prefix + Tail(table, rank, d, bind)
      && Emitted(table, rank, once, d, bind) == once + Tail(table, rank, d, bind)
  {
    var once := Emitted(table, rank, prefix, d, bind);
    KeepsPrefixAtArrayOrAbove(table, rank, prefix, d, bind);
    KeepsPrefixAtArrayOrAbove(table, rank, once, d, bind);
  }

  /** `int[]` style rendering of a small table, in both kinds of context. */
  lemma ArrayExamples()
    ensures var table := map[1 := Leaf("int"), 2 := BasicArray(1), 3 := BasicArray(2)];
      var rank := map[1 := 0, 2 := 1, 3 := 2];
      Ranked(table, rank)
      && Emitted(table, rank, "x", table[2], Bind(0)) == "(xint)[]"
      && Emitted(table, rank, "x", table[2], ARRAY) == "xint[]"
      && Emitted(table, rank, "", table[3], Bind(0)) == "((int)[])[]"
  {
  }

  /**
   * A cyclic record and a record with a missing target elsewhere in the
   * table do not prevent rendering a record that does not reach them.
   */
  lemma UnrelatedMalformedRecordsExample()
    ensures var table := map[1 := Leaf("int"), 2 := BasicArray(1), 5 := BasicArray(5), 7 := FriendFunction(99, "F")];
      var rank := map[1 := 0, 2 := 1];
      Resolvable(table, rank, table[2])
      && Emitted(table, rank, "", table[2], Bind(0)) == "(int)[]"
      && Emitted(table, rank, "", table[2], ARRAY) == "int[]"
  {
  }

  /** The name and the target's text are not separated. */
  lemma FriendExample()
    ensures var table := map[1 := Leaf("int"), 2 := FriendFunction(1, "Foo")];
      var rank := map[1 := 0, 2 := 1];
      Ranked(table, rank) && Emitted(table, rank, "", table[2], ARRAY) == "friend: Fooint"
  {
  }
}
