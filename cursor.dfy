/**
 * The tinycbor parser the decoder drives (`CborValue` and the
 * `cbor_value_*` calls of src/ucbor.c:98-201), stated as a contract over
 * the input bytes. Item heads follow section 3 of RFC 8949: the major
 * type is the top three bits of the initial byte, the additional
 * information the low five, and the values 24..27 announce an argument of
 * 1, 2, 4 or 8 big-endian bytes.
 *
 * A cursor is a position plus how many items are left at the current
 * level: a count, or "until the break byte" for an indefinite-length
 * container. Every operation that moves the cursor checks the next head,
 * so a cursor is always either at the end of its level or at a
 * well-formed head.
 */
module Cursors {
  import opened Binary
  import opened Wrappers
  import opened CborErrors

  const BreakByte: byte := 0xff
  const IndefiniteLength: nat := 31

  /** An item head: major type, additional information, argument and its size in bytes. */
  datatype Head = Head(major: nat, info: nat, arg: nat, size: nat)

  /** How many bytes of argument follow an initial byte whose additional information is `info`. */
  function ArgumentBytes(info: nat): (n: nat)
    ensures n == 0 || n == 1 || n == 2 || n == 4 || n == 8
  {
    if info < 24 then 0
    else if info == 24 then 1
    else if info == 25 then 2
    else if info == 26 then 4
    else if info == 27 then 8
    else 0
  }

  /** The `n` argument bytes at `pos` read as a big-endian number, as tinycbor's loads of 1, 2, 4 or 8 bytes do. */
  function ArgumentAt(data: seq<byte>, pos: nat, n: nat): (r: nat)
    requires pos + n <= |data|
    ensures r < Pow256(n)
  {
    if n == 0 then 0 else ArgumentAt(data, pos, n - 1) * 256 + data[pos + n - 1]
  }

  /** ArgumentAt is FromBigEndian of the bytes it reads. */
  lemma {:induction false} ArgumentAtBytes(data: seq<byte>, pos: nat, n: nat)
    requires pos + n <= |data|
    ensures ArgumentAt(data, pos, n) == FromBigEndian(data[pos..pos + n])
  {
    if n > 0 {
      ArgumentAtBytes(data, pos, n - 1);
      assert data[pos..pos + n][..n - 1] == data[pos..pos + n - 1];
    }
  }

  /** Majors whose items may have an indefinite length: byte and text strings, arrays, maps. */
  predicate MayBeIndefinite(major: nat) {
    2 <= major <= 5
  }

  /**
   * The head at `pos`, with the checks tinycbor makes before it will point
   * a cursor at it: reserved additional information (28..30), an
   * indefinite length on a type that cannot have one (a stray break
   * among them), a truncated argument, and a two-byte simple value below 32.
   */
  function ParseHead(data: seq<byte>, pos: nat): (r: Result<Head, CborError>)
    ensures r.Ok? ==> 1 <= r.value.size <= 9 && pos + r.value.size <= |data|
    ensures r.Ok? ==> r.value.major == data[pos] / 32 && r.value.info == data[pos] % 32
    ensures r.Ok? ==> r.value.arg < Pow256(8)
    ensures r.Ok? && r.value.info < 24 ==> r.value.arg == r.value.info && r.value.size == 1
    ensures r.Ok? && r.value.info > 27 ==>
      r.value.info == IndefiniteLength && MayBeIndefinite(r.value.major) && r.value.size == 1
    ensures r.Ok? ==> data[pos] != BreakByte
  {
    if pos >= |data| then Err(ErrorUnexpectedEOF)
    else
      var major := data[pos] / 32;
      var info := data[pos] % 32;
      if info > 27 then
        if info < IndefiniteLength then
          Err(if major == 7 then ErrorUnknownType else ErrorIllegalNumber)
        else if MayBeIndefinite(major) then Ok(Head(major, info, 0, 1))
        else Err(if major == 7 then ErrorUnexpectedBreak else ErrorIllegalNumber)
      else
        var n := ArgumentBytes(info);
        if pos + 1 + n > |data| then Err(ErrorUnexpectedEOF)
        else
          var arg := if info < 24 then info else ArgumentAt(data, pos + 1, n);
          assert Pow256(n) <= Pow256(8) by { Pow256Monotone(n, 8); }
          if major == 7 && info == 24 && arg < 32 then Err(ErrorIllegalSimpleType)
          else Ok(Head(major, info, arg, 1 + n))
  }

  lemma {:induction false} Pow256Monotone(m: nat, n: nat)
    requires m <= n
    ensures Pow256(m) <= Pow256(n)
    decreases n
  {
    if m < n {
      Pow256Monotone(m, n - 1);
    }
  }

  /** Items left at a level: a count, or until the break byte. */
  datatype Remaining = Items(n: nat) | UntilBreak

  datatype Cursor = Cursor(pos: nat, remaining: Remaining)

  /** `cbor_value_at_end`: no items are left at this level. */
  predicate AtEnd(c: Cursor) {
    c.remaining == Items(0)
  }

  /** The cursor invariant: inside the data, and at a well-formed head unless at the end. */
  predicate Valid(data: seq<byte>, c: Cursor) {
    c.pos <= |data| && (!AtEnd(c) ==> ParseHead(data, c.pos).Ok?)
  }

  /** The head a cursor that is not at the end points at. */
  function HeadAt(data: seq<byte>, c: Cursor): (h: Head)
    requires Valid(data, c) && !AtEnd(c)
    ensures c.pos + h.size <= |data|
  {
    ParseHead(data, c.pos).value
  }

  /**
   * Point a cursor at `pos` with `rem` items left. At an indefinite level
   * a break byte ends the level and is consumed; otherwise the head at
   * `pos` must be well-formed.
   */
  function Preparse(data: seq<byte>, pos: nat, rem: Remaining): (r: Result<Cursor, CborError>)
    requires pos <= |data|
    ensures r.Ok? ==> Valid(data, r.value) && r.value.pos >= pos
    ensures r.Ok? && !AtEnd(r.value) ==> r.value == Cursor(pos, rem)
  {
    if rem == Items(0) then Ok(Cursor(pos, rem))
    else if rem == UntilBreak && pos < |data| && data[pos] == BreakByte then Ok(Cursor(pos + 1, Items(0)))
    else
      var _ :- ParseHead(data, pos);
      Ok(Cursor(pos, rem))
  }

  /**
   * Move to the next item at `pos` once the current one has been consumed:
   * a counted level loses one item (a tag does not count, being a prefix
   * of the item that follows it).
   */
  function Next(data: seq<byte>, pos: nat, rem: Remaining, wasTag: bool): (r: Result<Cursor, CborError>)
    requires pos <= |data|
    ensures r.Ok? ==> Valid(data, r.value) && r.value.pos >= pos
  {
    match rem
    case Items(n) =>
      if wasTag then Preparse(data, pos, rem)
      else if n <= 1 then Ok(Cursor(pos, Items(0)))
      else Preparse(data, pos, Items(n - 1))
    case UntilBreak => Preparse(data, pos, UntilBreak)
  }

  /** `cbor_parser_init`: one top-level item, whose head must be well-formed. */
  function Init(data: seq<byte>): (r: Result<Cursor, CborError>)
    ensures r.Ok? ==> Valid(data, r.value) && r.value == Cursor(0, Items(1))
    ensures r.Ok? <==> ParseHead(data, 0).Ok?
  {
    Preparse(data, 0, Items(1))
  }

  /** The item types of `cbor_value_get_type`. */
  datatype ItemType =
    | IntegerType
    | ByteStringType
    | TextStringType
    | ArrayType
    | MapType
    | TagType
    | SimpleType
    | BooleanType
    | NullType
    | UndefinedType
    | HalfFloatType
    | FloatType
    | DoubleType
    | InvalidType

  /** The type of the item a cursor is at; InvalidType at the end of a level. */
  function TypeOf(data: seq<byte>, c: Cursor): (t: ItemType)
    requires Valid(data, c)
    ensures t == InvalidType <==> AtEnd(c)
  {
    if AtEnd(c) then InvalidType
    else
      var h := HeadAt(data, c);
      match h.major
      case 0 => IntegerType
      case 1 => IntegerType
      case 2 => ByteStringType
      case 3 => TextStringType
      case 4 => ArrayType
      case 5 => MapType
      case 6 => TagType
      case _ =>
        if h.info == 20 || h.info == 21 then BooleanType
        else if h.info == 22 then NullType
        else if h.info == 23 then UndefinedType
        else if h.info == 25 then HalfFloatType
        else if h.info == 26 then FloatType
        else if h.info == 27 then DoubleType
        else SimpleType
  }

  /** Types whose items are only a head, which `cbor_value_advance_fixed` steps over. */
  predicate IsFixedType(t: ItemType) {
    t != ByteStringType && t != TextStringType && t != ArrayType && t != MapType && t != InvalidType
  }

  /** `cbor_value_advance_fixed`: step over the head of a fixed-size item. */
  function AdvanceFixed(data: seq<byte>, c: Cursor): (r: Result<Cursor, CborError>)
    requires Valid(data, c) && IsFixedType(TypeOf(data, c))
    ensures r.Ok? ==> Valid(data, r.value) && r.value.pos > c.pos
    ensures r.Ok? ==> r.value.pos == c.pos + HeadAt(data, c).size || AtEnd(r.value)
  {
    Next(data, c.pos + HeadAt(data, c).size, c.remaining, TypeOf(data, c) == TagType)
  }

  /**
   * `cbor_value_get_int64`: the argument read as an `int64_t` (an argument
   * of 2^63 or more wraps to a negative number, as the C conversion does),
   * then `-1 - n` for a negative integer (major type 1).
   */
  function GetInt64(data: seq<byte>, c: Cursor): (v: int)
    requires Valid(data, c) && TypeOf(data, c) == IntegerType
    ensures -0x8000_0000_0000_0000 <= v < 0x8000_0000_0000_0000
  {
    var h := HeadAt(data, c);
    var s := if h.arg < 0x8000_0000_0000_0000 then h.arg else h.arg - 0x1_0000_0000_0000_0000;
    if h.major == 1 then -1 - s else s
  }

  /** `cbor_value_get_boolean`: simple value 21 is true, 20 false. */
  function GetBoolean(data: seq<byte>, c: Cursor): bool
    requires Valid(data, c) && TypeOf(data, c) == BooleanType
  {
    HeadAt(data, c).info == 21
  }

  /**
   * The IEEE 754 bit pattern of a float item, as `cbor_value_get_float`
   * and `cbor_value_get_double` copy it out: its big-endian argument.
   */
  function GetFloatBits(data: seq<byte>, c: Cursor): (bits: nat)
    requires Valid(data, c) && (TypeOf(data, c) == FloatType || TypeOf(data, c) == DoubleType)
    ensures TypeOf(data, c) == FloatType ==> bits < Pow256(4)
    ensures bits < Pow256(8)
  {
    HeadAt(data, c).arg
  }

  /**
   * The payload of a chunked (indefinite-length) string starting at `pos`:
   * definite-length chunks of the same major type, ended by a break byte.
   * Returns the concatenated bytes and the position after the break.
   */
  function Chunks(data: seq<byte>, pos: nat, major: nat): (r: Result<(seq<byte>, nat), CborError>)
    requires pos <= |data|
    ensures r.Ok? ==> pos < r.value.1 <= |data|
    decreases |data| - pos
  {
    if pos < |data| && data[pos] == BreakByte then Ok(([], pos + 1))
    else
      var h :- ParseHead(data, pos);
      if h.major != major then Err(ErrorIllegalType)
      else if h.info == IndefiniteLength then Err(ErrorIllegalNumber)
      else if pos + h.size + h.arg > |data| then Err(ErrorUnexpectedEOF)
      else
        var end := pos + h.size + h.arg;
        var (rest, after) :- Chunks(data, end, major);
        Ok((data[pos + h.size..end] + rest, after))
  }

  /**
   * `cbor_value_dup_byte_string` / `cbor_value_dup_text_string` with the
   * cursor as its own "next" argument: copy out the string's bytes
   * (joining the chunks of a chunked string) and move past the string.
   */
  function DupString(data: seq<byte>, c: Cursor): (r: Result<(seq<byte>, Cursor), CborError>)
    requires Valid(data, c) && (TypeOf(data, c) == ByteStringType || TypeOf(data, c) == TextStringType)
    ensures r.Ok? ==> Valid(data, r.value.1) && r.value.1.pos > c.pos
  {
    var h := HeadAt(data, c);
    if h.info == IndefiniteLength then
      var (bytes, after) :- Chunks(data, c.pos + 1, h.major);
      var next :- Next(data, after, c.remaining, false);
      Ok((bytes, next))
    else if c.pos + h.size + h.arg > |data| then Err(ErrorUnexpectedEOF)
    else
      var end := c.pos + h.size + h.arg;
      var next :- Next(data, end, c.remaining, false);
      Ok((data[c.pos + h.size..end], next))
  }

  /**
   * `cbor_value_enter_container`: a cursor over the items of the array or
   * map at `c` (twice the pair count for a map), or until the break for an
   * indefinite-length one.
   */
  function Enter(data: seq<byte>, c: Cursor): (r: Result<Cursor, CborError>)
    requires Valid(data, c) && (TypeOf(data, c) == ArrayType || TypeOf(data, c) == MapType)
    ensures r.Ok? ==> Valid(data, r.value) && r.value.pos > c.pos
  {
    var h := HeadAt(data, c);
    var rem := if h.info == IndefiniteLength then UntilBreak
               else if h.major == 5 then Items(2 * h.arg)
               else Items(h.arg);
    Preparse(data, c.pos + h.size, rem)
  }

  /**
   * `cbor_value_leave_container`: once the inner cursor has reached the
   * end, the outer one continues where the inner one stopped.
   */
  function Leave(data: seq<byte>, outer: Cursor, inner: Cursor): (r: Result<Cursor, CborError>)
    requires Valid(data, inner) && AtEnd(inner)
    ensures r.Ok? ==> Valid(data, r.value) && r.value.pos >= inner.pos
  {
    Next(data, inner.pos, outer.remaining, false)
  }
}
