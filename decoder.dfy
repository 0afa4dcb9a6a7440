/**
 * `loads`: the decoder of src/ucbor.c. `cbor_it_to_mp_obj_recursive`
 * (lines 90-208) walks the items of one nesting level with a tinycbor
 * cursor, turns each into an object and adds it to the parent object in
 * place: appended to a list, or alternately kept as a key and stored
 * under it in a dict. Arrays and maps are entered, filled by a recursive
 * call, and left.
 *
 * The functions Item, Fill and Decode state what the walk computes; the
 * classes and methods below carry it out the way the C code does, and
 * are proved to agree with them.
 */
module Decoder {
  import opened Binary
  import opened Wrappers
  import opened CborErrors
  import opened Cursors
  import opened PyObjects
  import Floats

  /**
   * What one nesting level has built so far: the items of the parent
   * list, or the entries of the parent dict together with the key
   * machine (`dict_value_next`, `dict_key`).
   */
  datatype Level =
    | ListLevel(items: seq<Value>)
    | DictLevel(entries: seq<(Value, Value)>, valueNext: bool, key: Value)

  /**
   * Add one decoded object to the parent (lines 176-186), a list by
   * appending, a dict by keeping the key or storing the value under it.
   * Storing under a key that cannot be hashed raises TypeError.
   */
  function Add(lv: Level, x: Value): (r: Result<Level, PyError>)
    ensures r.Err? <==> lv.DictLevel? && lv.valueNext && !Hashable(lv.key)
    ensures r.Err? ==> r.error == TypeError(Unhashable)
    ensures r.Ok? ==> r.value.ListLevel? == lv.ListLevel?
  {
    match lv
    case ListLevel(items) => Ok(ListLevel(items + [x]))
    case DictLevel(es, valueNext, key) =>
      if !valueNext then Ok(DictLevel(es, true, x))
      else if !Hashable(key) then Err(TypeError(Unhashable))
      else Ok(DictLevel(Store(es, key, x), false, NoneValue))
  }

  /** The object a level stands for. */
  function LevelValue(lv: Level): Value {
    match lv
    case ListLevel(items) => List(items)
    case DictLevel(es, _, _) => Dict(es)
  }

  /**
   * The object for the item at `c` (lines 100-169), and the cursor after
   * it for the types that advance themselves: strings by
   * duplicate-and-advance, arrays and maps by enter, recurse and leave.
   * For the other types the cursor is not moved yet.
   */
  function Item(data: seq<byte>, c: Cursor): (r: Result<(Value, Cursor), PyError>)
    requires Valid(data, c) && !AtEnd(c)
    ensures r.Ok? ==> Valid(data, r.value.1) && TypeOf(data, c) != InvalidType
    ensures r.Ok? && IsFixedType(TypeOf(data, c)) ==> r.value.1 == c
    ensures r.Ok? && !IsFixedType(TypeOf(data, c)) ==> r.value.1.pos > c.pos
    decreases |data| - c.pos, 0, 1
  {
    match TypeOf(data, c)
    case IntegerType => Ok((Int(GetInt64(data, c)), c))
    case ByteStringType =>
      var dup :- DupString(data, c).OrElse(ValueError(ByteStringFailed));
      Ok((Bytes(dup.0), dup.1))
    case TextStringType =>
      var dup :- DupString(data, c).OrElse(ValueError(TextStringFailed));
      Ok((Str(dup.0), dup.1))
    case TagType => Err(ValueError(UnknownTag))
    case SimpleType => Err(ValueError(UnknownSimple))
    case NullType => Ok((NoneValue, c))
    case UndefinedType => Err(ValueError(UndefinedFound))
    case BooleanType => Ok((Bool(GetBoolean(data, c)), c))
    case DoubleType => Ok((Float(GetFloatBits(data, c)), c))
    case FloatType => Ok((Float(Floats.WidenSingle(GetFloatBits(data, c))), c))
    case HalfFloatType => Err(NotImplementedError(HalfFloatUnsupported))
    case InvalidType => Err(ValueError(InvalidFound))
    case ArrayType => Container(data, c, ListLevel([]))
    case MapType => Container(data, c, DictLevel([], false, NoneValue))
  }

  /** An array or map: enter it, fill a new empty parent from its items, leave it. */
  function Container(data: seq<byte>, c: Cursor, empty: Level): (r: Result<(Value, Cursor), PyError>)
    requires Valid(data, c) && (TypeOf(data, c) == ArrayType || TypeOf(data, c) == MapType)
    ensures r.Ok? ==> Valid(data, r.value.1) && r.value.1.pos > c.pos
    decreases |data| - c.pos, 0, 0
  {
    var inner :- Enter(data, c).OrElse(ValueError(ParseError));
    var filled :- Fill(data, inner, empty);
    var next :- Leave(data, c, filled.1).OrElse(ValueError(ParseError));
    Ok((LevelValue(filled.0), next))
  }

  /**
   * The cursor after the item at `c` once its object has been added
   * (lines 194-201): strings and containers have moved the cursor
   * themselves to `after`; the other types are stepped over here.
   */
  function Advance(data: seq<byte>, c: Cursor, after: Cursor): (r: Result<Cursor, PyError>)
    requires Valid(data, c) && !AtEnd(c) && TypeOf(data, c) != InvalidType && Valid(data, after)
    requires IsFixedType(TypeOf(data, c)) ==> after == c
    requires !IsFixedType(TypeOf(data, c)) ==> after.pos > c.pos
    ensures r.Ok? ==> Valid(data, r.value) && r.value.pos > c.pos
    ensures !IsFixedType(TypeOf(data, c)) ==> r == Ok(after)
  {
    var t := TypeOf(data, c);
    if t != ArrayType && t != MapType && t != TextStringType && t != ByteStringType then
      AdvanceFixed(data, after).OrElse(ValueError(ParseError))
    else
      Ok(after)
  }

  /** The object for the item at `c` and the cursor at the item after it, added to no parent. */
  function Step(data: seq<byte>, c: Cursor): (r: Result<(Value, Cursor), PyError>)
    requires Valid(data, c) && !AtEnd(c)
    ensures r.Ok? ==> Valid(data, r.value.1) && r.value.1.pos > c.pos
    decreases |data| - c.pos, 0, 2
  {
    var item :- Item(data, c);
    var next :- Advance(data, c, item.1);
    Ok((item.0, next))
  }

  /**
   * The loop of lines 98-205 under a parent: every item of the level is
   * decoded, added to the parent and stepped over, in stream order, and
   * a dict left waiting for a value is an error. Returns the completed
   * level and the cursor at its end.
   */
  function Fill(data: seq<byte>, c: Cursor, lv: Level): (r: Result<(Level, Cursor), PyError>)
    requires Valid(data, c)
    ensures r.Ok? ==> Valid(data, r.value.1) && AtEnd(r.value.1) && r.value.1.pos >= c.pos
    ensures r.Ok? ==> r.value.0.ListLevel? == lv.ListLevel?
    ensures r.Ok? ==> !(r.value.0.DictLevel? && r.value.0.valueNext)
    decreases |data| - c.pos, 1, 0
  {
    if AtEnd(c) then
      if lv.DictLevel? && lv.valueNext then Err(ValueError(DanglingKey)) else Ok((lv, c))
    else
      var item :- Item(data, c);
      var added :- Add(lv, item.0);
      var next :- Advance(data, c, item.1);
      Fill(data, next, added)
  }

  /**
   * `loads(data)` (lines 210-228): the first item of the data. With no
   * parent the walk returns the first object at once, before stepping
   * past it, so whatever follows the first item is never looked at.
   */
  function Decode(data: seq<byte>): (r: Result<Value, PyError>)
    ensures ParseHead(data, 0).Err? ==> r == Err(ValueError(InitFailed))
  {
    var it :- Init(data).OrElse(ValueError(InitFailed));
    if AtEnd(it) then Ok(NoneValue)
    else
      var item :- Item(data, it);
      Ok(item.0)
  }

  /** A MicroPython list object, which the decoder appends to in place. */
  class PyList {
    var items: seq<Value>

    constructor ()
      ensures items == []
    {
      items := [];
    }

    /** `mp_obj_list_append`. */
    method Append(x: Value)
      modifies this
      ensures items == old(items) + [x]
    {
      items := items + [x];
    }
  }

  /** A MicroPython dict object, which the decoder stores into in place. */
  class PyDict {
    var entries: seq<(Value, Value)>

    constructor ()
      ensures entries == []
    {
      entries := [];
    }

    /**
     * `mp_obj_dict_store`: hash the key, then replace the value of an
     * equal key or add the pair. A key that cannot be hashed raises
     * TypeError and leaves the dict as it was.
     */
    method Store(k: Value, v: Value) returns (r: Result<(), PyError>)
      modifies this
      ensures !Hashable(k) ==> r == Err(TypeError(Unhashable)) && entries == old(entries)
      ensures Hashable(k) ==> r == Ok(()) && entries == PyObjects.Store(old(entries), k, v)
    {
      if !Hashable(k) {
        return Err(TypeError(Unhashable));
      }
      entries := PyObjects.Store(entries, k, v);
      r := Ok(());
    }
  }

  /** `parent_obj`: `None` at the top level, else the list or dict being filled. */
  datatype Parent = NoParent | ListParent(list: PyList) | DictParent(dict: PyDict)

  function Objects(p: Parent): set<object> {
    match p
    case NoParent => {}
    case ListParent(l) => {l}
    case DictParent(d) => {d}
  }

  /**
   * The dispatch of lines 100-169 for the item at `it`: the new object,
   * and the cursor after it for the types that advance themselves.
   */
  method NextElement(data: seq<byte>, it: Cursor) returns (r: Result<Value, PyError>, after: Cursor)
    requires Valid(data, it) && !AtEnd(it)
    ensures Item(data, it).Ok? ==> r == Ok(Item(data, it).value.0) && after == Item(data, it).value.1
    ensures Item(data, it).Err? ==> r == Err(Item(data, it).error)
    decreases |data| - it.pos, 0
  {
    after := it;
    var t := TypeOf(data, it);
    if t == IntegerType {
      r := Ok(Int(GetInt64(data, it)));
    } else if t == ByteStringType {
      var dup := DupString(data, it);
      if dup.Err? {
        r := Err(ValueError(ByteStringFailed));
        return;
      }
      r := Ok(Bytes(dup.value.0));
      after := dup.value.1;
    } else if t == TextStringType {
      var dup := DupString(data, it);
      if dup.Err? {
        r := Err(ValueError(TextStringFailed));
        return;
      }
      r := Ok(Str(dup.value.0));
      after := dup.value.1;
    } else if t == TagType {
      r := Err(ValueError(UnknownTag));
    } else if t == SimpleType {
      r := Err(ValueError(UnknownSimple));
    } else if t == NullType {
      r := Ok(NoneValue);
    } else if t == UndefinedType {
      r := Err(ValueError(UndefinedFound));
    } else if t == BooleanType {
      r := Ok(Bool(GetBoolean(data, it)));
    } else if t == DoubleType {
      r := Ok(Float(GetFloatBits(data, it)));
    } else if t == FloatType {
      r := Ok(Float(Floats.WidenSingle(GetFloatBits(data, it))));
    } else if t == HalfFloatType {
      r := Err(NotImplementedError(HalfFloatUnsupported));
    } else if t == InvalidType {
      r := Err(ValueError(InvalidFound));
    } else {
      var recursed := Enter(data, it);
      if recursed.Err? {
        r := Err(ValueError(ParseError));
        return;
      }
      var parent: Parent;
      if t == ArrayType {
        var list := new PyList();
        parent := ListParent(list);
      } else {
        var dict := new PyDict();
        parent := DictParent(dict);
      }
      var res, end := ItToObj(data, recursed.value, parent);
      if res.Err? {
        r := res;
        return;
      }
      var left := Leave(data, it, end);
      if left.Err? {
        r := Err(ValueError(ParseError));
        return;
      }
      r := if t == ArrayType then Ok(List(parent.list.items)) else Ok(Dict(parent.dict.entries));
      after := left.value;
    }
  }

  /**
   * Add a new object to a list or dict parent in place (lines 174-189):
   * append it to a list; in a dict, keep it as the pending key, or store
   * it under the pending key and clear the key.
   */
  method AddToParent(parent: Parent, dictValueNext: bool, dictKey: Value, x: Value)
    returns (r: Result<(), PyError>, valueNext: bool, key: Value)
    requires !parent.NoParent?
    modifies Objects(parent)
    ensures parent.ListParent? ==>
      r.Ok? && Add(ListLevel(old(parent.list.items)), x) == Ok(ListLevel(parent.list.items)) && valueNext == dictValueNext
    ensures parent.DictParent? ==>
      var added := Add(DictLevel(old(parent.dict.entries), dictValueNext, dictKey), x);
      (added.Ok? ==> r.Ok? && added.value == DictLevel(parent.dict.entries, valueNext, key)) &&
      (added.Err? ==> r == Err(added.error))
  {
    r, valueNext, key := Ok(()), dictValueNext, dictKey;
    if parent.ListParent? {
      parent.list.Append(x);
    } else if dictValueNext {
      r := parent.dict.Store(dictKey, x);
      if r.Err? {
        return;
      }
      valueNext := false;
      key := NoneValue;
    } else {
      key := x;
      valueNext := true;
    }
  }

  /**
   * `cbor_it_to_mp_obj_recursive(it, parent_obj)` (lines 90-208). With no
   * parent it returns the first object. Under a list or dict parent it
   * adds every object of the level to the parent in place, leaves `it` at
   * the end of the level and returns the parent; this is Fill of the
   * parent's contents.
   */
  method ItToObj(data: seq<byte>, it: Cursor, parent: Parent) returns (r: Result<Value, PyError>, itOut: Cursor)
    requires Valid(data, it)
    modifies Objects(parent)
    ensures parent.NoParent? && AtEnd(it) ==> r == Ok(NoneValue)
    ensures parent.NoParent? && !AtEnd(it) ==>
      (Item(data, it).Ok? ==> r == Ok(Item(data, it).value.0)) &&
      (Item(data, it).Err? ==> r == Err(Item(data, it).error))
    ensures parent.ListParent? ==>
      var f := Fill(data, it, ListLevel(old(parent.list.items)));
      (f.Ok? ==> r == Ok(List(parent.list.items)) && f.value == (ListLevel(parent.list.items), itOut)) &&
      (f.Err? ==> r == Err(f.error))
    ensures parent.DictParent? ==>
      var f := Fill(data, it, DictLevel(old(parent.dict.entries), false, NoneValue));
      (f.Ok? ==> r == Ok(Dict(parent.dict.entries)) && f.value.0.entries == parent.dict.entries && f.value.1 == itOut) &&
      (f.Err? ==> r == Err(f.error))
    decreases |data| - it.pos, 1
  {
    var dictValueNext := false;
    var dictKey := NoneValue;
    itOut := it;
    while !AtEnd(itOut)
      invariant Valid(data, itOut) && itOut.pos >= it.pos
      invariant parent.NoParent? ==> itOut == it
      invariant !parent.DictParent? ==> !dictValueNext
      invariant parent.ListParent? ==>
        Fill(data, it, ListLevel(old(parent.list.items))) == Fill(data, itOut, ListLevel(parent.list.items))
      invariant parent.DictParent? ==>
        Fill(data, it, DictLevel(old(parent.dict.entries), false, NoneValue))
        == Fill(data, itOut, DictLevel(parent.dict.entries, dictValueNext, dictKey))
      decreases |data| - itOut.pos
    {
      var t := TypeOf(data, itOut);
      var next, after := NextElement(data, itOut);
      if next.Err? {
        r := next;
        return;
      }
      if parent.NoParent? {
        r := next;
        return;
      }
      var added;
      added, dictValueNext, dictKey := AddToParent(parent, dictValueNext, dictKey, next.value);
      if added.Err? {
        r := Err(added.error);
        return;
      }
      if t != ArrayType && t != MapType && t != TextStringType && t != ByteStringType {
        var advanced := AdvanceFixed(data, after);
        if advanced.Err? {
          r := Err(ValueError(ParseError));
          return;
        }
        itOut := advanced.value;
      } else {
        itOut := after;
      }
    }
    if dictValueNext {
      r := Err(ValueError(DanglingKey));
      return;
    }
    r := match parent
      case NoParent => Ok(NoneValue)
      case ListParent(l) => Ok(List(l.items))
      case DictParent(d) => Ok(Dict(d.entries));
  }

  /** `loads(data)`: initialise a parser over the bytes and return the first object. */
  method Loads(data: seq<byte>) returns (r: Result<Value, PyError>)
    ensures r == Decode(data)
  {
    var init := Init(data);
    if init.Err? {
      r := Err(ValueError(InitFailed));
      return;
    }
    var it := init.value;
    var rest;
    r, rest := ItToObj(data, it, NoParent);
  }

  /**
   * The types the walk refuses (lines 125-132, 145-146): a tag, a simple
   * value other than false, true, null and undefined, undefined itself,
   * and a half-precision float, each with its own exception.
   */
  lemma DecodeRejects(data: seq<byte>)
    requires ParseHead(data, 0).Ok?
    ensures data[0] / 32 == 6 ==> Decode(data) == Err(ValueError(UnknownTag))
    ensures data[0] / 32 == 7 && (data[0] % 32 < 20 || data[0] % 32 == 24) ==>
      Decode(data) == Err(ValueError(UnknownSimple))
    ensures data[0] == 0xf7 ==> Decode(data) == Err(ValueError(UndefinedFound))
    ensures data[0] == 0xf9 ==> Decode(data) == Err(NotImplementedError(HalfFloatUnsupported))
  {
    var it := Cursor(0, Items(1));
    assert Init(data) == Ok(it);
    assert HeadAt(data, it).major == data[0] / 32 && HeadAt(data, it).info == data[0] % 32;
  }

  /** An indefinite-length map holding one item, the key 1, and no value. */
  const DanglingMap: seq<byte> := [0xbf, 0x01, 0xff]

  /**
   * A map that ends after a key is refused with the "key with no value"
   * exception of lines 204-205.
   */
  lemma DanglingKeyRejected()
    ensures Decode(DanglingMap) == Err(ValueError(DanglingKey))
  {
    var it := Cursor(0, Items(1));
    assert Init(DanglingMap) == Ok(it);
    var inner := Cursor(1, UntilBreak);
    assert Enter(DanglingMap, it) == Ok(inner);
    DanglingFill(inner);
    assert TypeOf(DanglingMap, it) == MapType;
    assert Container(DanglingMap, it, DictLevel([], false, NoneValue)) == Err(ValueError(DanglingKey));
  }

  /** The map's level: the key is read, then the break ends the level with the key pending. */
  lemma DanglingFill(inner: Cursor)
    requires inner == Cursor(1, UntilBreak)
    ensures Valid(DanglingMap, inner)
    ensures Fill(DanglingMap, inner, DictLevel([], false, NoneValue)) == Err(ValueError(DanglingKey))
  {
    assert ParseHead(DanglingMap, 1) == Ok(Cursors.Head(0, 1, 1, 1));
    var end := Cursor(3, Items(0));
    assert Next(DanglingMap, 2, UntilBreak, false) == Ok(end);
    assert Step(DanglingMap, inner) == Ok((Int(1), end));
  }

  // Concrete maps whose keys the dict refuses or merges. Each pass of the
  // loop over them is one of the small items below.

  /** A head whose additional information is below 24 is one byte, with that number as its argument. */
  lemma TinyHead(data: seq<byte>, pos: nat)
    requires pos < |data| && data[pos] % 32 < 24
    ensures ParseHead(data, pos) == Ok(Cursors.Head(data[pos] / 32, data[pos] % 32, data[pos] % 32, 1))
  {
  }

  /** One pass over an unsigned integer below 24: the int is added, then its head is stepped over. */
  lemma TinyIntPass(data: seq<byte>, c: Cursor, lv: Level, added: Level, next: Cursor)
    requires c.pos < |data| && data[c.pos] < 24 && !AtEnd(c)
    requires Add(lv, Int(data[c.pos])) == Ok(added) && Next(data, c.pos + 1, c.remaining, false) == Ok(next)
    ensures Valid(data, c) && Fill(data, c, lv) == Fill(data, next, added)
  {
    TinyHead(data, c.pos);
    assert TypeOf(data, c) == IntegerType;
    FillPass(data, c, lv, Int(data[c.pos]), c, added, next);
  }

  /** One pass over a text string of one byte: the string is copied out and added. */
  lemma TinyStrPass(data: seq<byte>, c: Cursor, lv: Level, added: Level, next: Cursor)
    requires c.pos + 2 <= |data| && data[c.pos] == 0x61 && !AtEnd(c)
    requires Add(lv, Str([data[c.pos + 1]])) == Ok(added) && Next(data, c.pos + 2, c.remaining, false) == Ok(next)
    ensures Valid(data, c) && Fill(data, c, lv) == Fill(data, next, added)
  {
    TinyHead(data, c.pos);
    assert data[c.pos + 1..c.pos + 2] == [data[c.pos + 1]];
    assert DupString(data, c) == Ok(([data[c.pos + 1]], next));
    FillPass(data, c, lv, Str([data[c.pos + 1]]), next, added, next);
  }

  /** One pass of the loop: the item's object is added to the level, then the cursor is stepped over it. */
  lemma FillPass(data: seq<byte>, c: Cursor, lv: Level, x: Value, after: Cursor, added: Level, next: Cursor)
    requires Valid(data, c) && !AtEnd(c) && Item(data, c) == Ok((x, after)) && Add(lv, x) == Ok(added)
    requires Advance(data, c, after) == Ok(next)
    ensures Fill(data, c, lv) == Fill(data, next, added)
  {
  }

  /** A top-level map decodes to the dict its level fills, or to the level's error. */
  lemma DecodeMap(data: seq<byte>, inner: Cursor)
    requires ParseHead(data, 0).Ok? && data[0] / 32 == 5 && data[0] % 32 != IndefiniteLength
    requires Enter(data, Cursor(0, Items(1))) == Ok(inner)
    ensures var f := Fill(data, inner, DictLevel([], false, NoneValue));
      (f.Err? ==> Decode(data) == Err(f.error)) && (f.Ok? ==> Decode(data) == Ok(Dict(f.value.0.entries)))
  {
    var it := Cursor(0, Items(1));
    assert Init(data) == Ok(it);
    assert TypeOf(data, it) == MapType;
    var f := Fill(data, inner, DictLevel([], false, NoneValue));
    if f.Ok? {
      assert Leave(data, it, f.value.1) == Ok(Cursor(f.value.1.pos, Items(0)));
    }
    assert Item(data, it) == Container(data, it, DictLevel([], false, NoneValue));
  }

  /** The level of a map with one pair (`0xa1`) starts at 1. */
  lemma EnterOnePair(data: seq<byte>)
    requires 2 <= |data| && data[0] == 0xa1 && ParseHead(data, 1).Ok?
    ensures ParseHead(data, 0).Ok? && Enter(data, Cursor(0, Items(1))) == Ok(Cursor(1, Items(2)))
  {
    TinyHead(data, 0);
  }

  /** The value of a pair whose key is `key`, at `c`, cannot be stored. */
  lemma UnhashableValue(data: seq<byte>, c: Cursor, es: seq<(Value, Value)>, key: Value)
    requires c.pos < |data| && data[c.pos] < 24 && !AtEnd(c) && !Hashable(key)
    ensures Valid(data, c) && Fill(data, c, DictLevel(es, true, key)) == Err(TypeError(Unhashable))
  {
    TinyHead(data, c.pos);
    assert TypeOf(data, c) == IntegerType;
  }

  /** `{[]: 1}`: a map whose key is an empty array. */
  const ListKeyMap: seq<byte> := [0xa1, 0x80] + [0x01]

  /**
   * A map whose key is read back as a list is refused: storing the value
   * under it (line 180) hashes the key, and a list cannot be hashed.
   */
  lemma ListKeyRejected()
    ensures Decode(ListKeyMap) == Err(TypeError(Unhashable))
  {
    var inner, value := Cursor(1, Items(2)), Cursor(2, Items(1));
    TinyHead(ListKeyMap, 1);
    EnterOnePair(ListKeyMap);
    ListKeyItem(inner, value);
    FillPass(ListKeyMap, inner, DictLevel([], false, NoneValue), List([]), value, DictLevel([], true, List([])), value);
    UnhashableValue(ListKeyMap, value, [], List([]));
    DecodeMap(ListKeyMap, inner);
  }

  /** The key at 1 is read as an empty list, and the cursor moves to the value at 2. */
  lemma ListKeyItem(c: Cursor, value: Cursor)
    requires c == Cursor(1, Items(2)) && value == Cursor(2, Items(1))
    ensures Valid(ListKeyMap, c) && !AtEnd(c) && TypeOf(ListKeyMap, c) == ArrayType
    ensures Item(ListKeyMap, c) == Ok((List([]), value))
    ensures Advance(ListKeyMap, c, value) == Ok(value)
  {
    var empty := Cursor(2, Items(0));
    TinyHead(ListKeyMap, 1);
    TinyHead(ListKeyMap, 2);
    assert Enter(ListKeyMap, c) == Ok(empty);
    assert Fill(ListKeyMap, empty, ListLevel([])) == Ok((ListLevel([]), empty));
    assert Leave(ListKeyMap, c, empty) == Ok(value);
  }

  /** `{(1, 2): 3}` as the encoder writes it: a map whose key is the array [1, 2]. */
  const TupleKeyMap: seq<byte> := [0xa1, 0x82] + [0x01, 0x02, 0x03]

  /**
   * A map whose key is an array is refused whatever the array holds: the
   * decoder builds every array as a list, which cannot be hashed.
   */
  lemma TupleKeyRejected()
    ensures Decode(TupleKeyMap) == Err(TypeError(Unhashable))
  {
    var inner, value := Cursor(1, Items(2)), Cursor(4, Items(1));
    TinyHead(TupleKeyMap, 1);
    EnterOnePair(TupleKeyMap);
    TupleKeyArray(inner, value);
    FillPass(TupleKeyMap, inner, DictLevel([], false, NoneValue), List([Int(1), Int(2)]), value,
             DictLevel([], true, List([Int(1), Int(2)])), value);
    UnhashableValue(TupleKeyMap, value, [], List([Int(1), Int(2)]));
    DecodeMap(TupleKeyMap, inner);
  }

  /** The key at 1 is read as the list [1, 2], and the cursor moves to the value at 4. */
  lemma TupleKeyArray(c: Cursor, value: Cursor)
    requires c == Cursor(1, Items(2)) && value == Cursor(4, Items(1))
    ensures Valid(TupleKeyMap, c) && !AtEnd(c) && TypeOf(TupleKeyMap, c) == ArrayType
    ensures Item(TupleKeyMap, c) == Ok((List([Int(1), Int(2)]), value))
    ensures Advance(TupleKeyMap, c, value) == Ok(value)
  {
    var c2, end := Cursor(2, Items(2)), Cursor(4, Items(0));
    TinyHead(TupleKeyMap, 1);
    TinyHead(TupleKeyMap, 2);
    TinyHead(TupleKeyMap, 4);
    assert Enter(TupleKeyMap, c) == Ok(c2);
    TupleKeyItems(c2, end);
    assert Leave(TupleKeyMap, c, end) == Ok(value);
  }

  /** The array's level: 1, then 2. */
  lemma TupleKeyItems(c2: Cursor, end: Cursor)
    requires c2 == Cursor(2, Items(2)) && end == Cursor(4, Items(0))
    ensures Valid(TupleKeyMap, c2) && Fill(TupleKeyMap, c2, ListLevel([])) == Ok((ListLevel([Int(1), Int(2)]), end))
  {
    var c3 := Cursor(3, Items(1));
    TinyHead(TupleKeyMap, 3);
    assert [] + [Int(1)] == [Int(1)];
    TinyIntPass(TupleKeyMap, c2, ListLevel([]), ListLevel([Int(1)]), c3);
    assert [Int(1)] + [Int(2)] == [Int(1), Int(2)];
    TinyIntPass(TupleKeyMap, c3, ListLevel([Int(1)]), ListLevel([Int(1), Int(2)]), end);
  }

  /** The binary64 pattern of 1.0. */
  const OneBits: nat := 0x3ff0_0000_0000_0000

  /** `{1: "a", 1.0: "b"}` as a map of two pairs whose keys are equal. */
  const EqualKeysMap: seq<byte> := [0xa2, 0x01, 0x61, 0x61] + OneBytes + [0x61, 0x62]
  const OneBytes: seq<byte> := [0xfb, 0x3f, 0xf0, 0x00, 0x00, 0x00, 0x00, 0x00, 0x00]

  /** 1.0 is the whole number 1, so it is the same dict key as 1. */
  lemma OnePointZeroIsOne()
    ensures FloatInteger(OneBits) == Some(1) && KeyEq(Int(1), Float(OneBits))
  {
    Floats.Pow2Constants();
    assert Floats.DoubleExponent(OneBits) == 1023 && Floats.DoubleFraction(OneBits) == 0 && Floats.DoubleSign(OneBits) == 0;
  }

  /**
   * Two keys that are equal as Python objects are one key: the second
   * pair replaces the value of the first and the first key is kept.
   */
  lemma EqualKeysMerge()
    ensures Decode(EqualKeysMap) == Ok(Dict([(Int(1), Str([0x62]))]))
  {
    var inner := Cursor(1, Items(4));
    TinyHead(EqualKeysMap, 0);
    TinyHead(EqualKeysMap, 1);
    assert Enter(EqualKeysMap, Cursor(0, Items(1))) == Ok(inner);
    EqualKeysFill(inner);
    DecodeMap(EqualKeysMap, inner);
  }

  /** The map's level: `1: "a"` is stored, then `1.0: "b"` replaces its value. */
  lemma EqualKeysFill(inner: Cursor)
    requires inner == Cursor(1, Items(4))
    ensures Valid(EqualKeysMap, inner)
    ensures Fill(EqualKeysMap, inner, DictLevel([], false, NoneValue))
         == Ok((DictLevel([(Int(1), Str([0x62]))], false, NoneValue), Cursor(15, Items(0))))
  {
    var c4 := Cursor(4, Items(2));
    var first := [(Int(1), Str([0x61]))];
    EqualKeysFirstPair(inner, c4, first);
    EqualKeysSecondPair(c4, first);
  }

  /** `1: "a"` is stored in the empty dict. */
  lemma EqualKeysFirstPair(inner: Cursor, c4: Cursor, first: seq<(Value, Value)>)
    requires inner == Cursor(1, Items(4)) && c4 == Cursor(4, Items(2)) && first == [(Int(1), Str([0x61]))]
    ensures Valid(EqualKeysMap, inner)
    ensures Fill(EqualKeysMap, inner, DictLevel([], false, NoneValue)) == Fill(EqualKeysMap, c4, DictLevel(first, false, NoneValue))
  {
    var c2 := Cursor(2, Items(3));
    TinyHead(EqualKeysMap, 2);
    EqualKeysDouble();
    TinyIntPass(EqualKeysMap, inner, DictLevel([], false, NoneValue), DictLevel([], true, Int(1)), c2);
    TinyStrPass(EqualKeysMap, c2, DictLevel([], true, Int(1)), DictLevel(first, false, NoneValue), c4);
  }

  /** `1.0: "b"` finds the equal key 1 and replaces its value; then the level ends. */
  lemma EqualKeysSecondPair(c4: Cursor, first: seq<(Value, Value)>)
    requires c4 == Cursor(4, Items(2)) && first == [(Int(1), Str([0x61]))]
    ensures Valid(EqualKeysMap, c4)
    ensures Fill(EqualKeysMap, c4, DictLevel(first, false, NoneValue))
         == Ok((DictLevel([(Int(1), Str([0x62]))], false, NoneValue), Cursor(15, Items(0))))
  {
    var c13, end := Cursor(13, Items(1)), Cursor(15, Items(0));
    TinyHead(EqualKeysMap, 13);
    EqualKeysDouble();
    assert TypeOf(EqualKeysMap, c4) == DoubleType;
    FillPass(EqualKeysMap, c4, DictLevel(first, false, NoneValue), Float(OneBits), c4,
             DictLevel(first, true, Float(OneBits)), c13);
    OnePointZeroIsOne();
    assert Store(first, Float(OneBits), Str([0x62])) == [(Int(1), Str([0x62]))];
    TinyStrPass(EqualKeysMap, c13, DictLevel(first, true, Float(OneBits)),
                DictLevel([(Int(1), Str([0x62]))], false, NoneValue), end);
  }

  /** The head at 4 is the double 1.0. */
  lemma EqualKeysDouble()
    ensures ParseHead(EqualKeysMap, 4) == Ok(Cursors.Head(7, 27, OneBits, 9))
  {
    assert ArgumentBytes(27) == 8;
    assert ArgumentAt(EqualKeysMap, 5, 2) == 0x3ff0;
    assert ArgumentAt(EqualKeysMap, 5, 4) == 0x3ff0_0000;
    assert ArgumentAt(EqualKeysMap, 5, 6) == 0x3ff0_0000_0000;
    assert ArgumentAt(EqualKeysMap, 5, 8) == OneBits;
  }

  /**
   * An unsigned integer of 2^63 or more does not fit the `int64_t` the walk
   * reads it into (line 105) and comes back negative, wrapped by 2^64.
   */
  lemma LargeIntegerWraps(data: seq<byte>)
    requires ParseHead(data, 0).Ok? && data[0] == 0x1b
    requires ParseHead(data, 0).value.arg >= 0x8000_0000_0000_0000
    ensures Decode(data) == Ok(Int(ParseHead(data, 0).value.arg - 0x1_0000_0000_0000_0000))
  {
    var it := Cursor(0, Items(1));
    assert Init(data) == Ok(it);
    assert TypeOf(data, it) == IntegerType;
  }
}
