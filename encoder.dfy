/**
 * `dumps`: the encoder of src/ucbor.c. `mp_obj_to_cbor_text_recursive`
 * (lines 230-339) writes an object through a tinycbor encoder, recursing
 * into the items of lists, tuples and dicts with the container's encoder.
 * The top-level call owns the buffer: it starts with 64 bytes, and when a
 * pass runs out of room it grows the buffer by exactly the bytes the
 * counting sink says were missing and encodes the whole object again.
 */
module Encoder {
  import opened Binary
  import opened Wrappers
  import opened CborErrors
  import opened PyObjects
  import opened Encoding
  import opened Sinks

  const InitialBufferSize: nat := 64

  function Max(a: nat, b: nat): nat {
    if a >= b then a else b
  }

  /**
   * The dispatch on the object's type (lines 254-311) into `enc`: it
   * writes exactly the object's encoding and reports out-of-memory exactly
   * when the sink has overflowed; an object that cannot be encoded raises.
   */
  method WriteValue(v: Value, enc: CborEncoder) returns (r: Result<CborError, PyError>)
    requires InMemory(v) && enc.Valid()
    modifies enc, enc.sink, enc.sink.buffer
    ensures enc.Valid() && enc.sink.buffer == old(enc.sink.buffer)
    ensures Encode(v).Ok? ==>
      r == Ok(if enc.sink.counting then ErrorOutOfMemory else NoError) &&
      enc.sink.written == old(enc.sink.written) + Encode(v).value && enc.added == old(enc.added) + 1
    ensures Encode(v).Err? ==> r == Err(Encode(v).error)
    decreases v, 0
  {
    match v
    case NoneValue =>
      r := WriteScalar(v, enc);
    case Int(_) =>
      r := WriteScalar(v, enc);
    case Float(_) =>
      r := WriteScalar(v, enc);
    case Str(_) =>
      r := WriteString(v, enc);
    case Bytes(_) =>
      r := WriteString(v, enc);
    case List(vs) =>
      r := WriteArray(v, vs, enc);
    case Tuple(vs) =>
      r := WriteArray(v, vs, enc);
    case Dict(es) =>
      r := WriteMap(v, es, enc);
    case Bool(_) =>
      r := Err(ValueError(CannotEncode));
    case Unsupported =>
      r := Err(ValueError(CannotEncode));
  }

  /** `None`, an int (lines 258-262, with the overflow check of `mp_obj_get_int`) or a float (lines 263-264). */
  method WriteScalar(v: Value, enc: CborEncoder) returns (r: Result<CborError, PyError>)
    requires (v.NoneValue? || v.Int? || v.Float?) && InMemory(v) && enc.Valid()
    modifies enc, enc.sink, enc.sink.buffer
    ensures enc.Valid() && enc.sink.buffer == old(enc.sink.buffer)
    ensures Encode(v).Ok? ==>
      r == Ok(if enc.sink.counting then ErrorOutOfMemory else NoError) &&
      enc.sink.written == old(enc.sink.written) + Encode(v).value && enc.added == old(enc.added) + 1
    ensures Encode(v).Err? ==> r == Err(Encode(v).error)
  {
    match v
    case NoneValue =>
      assert Encode(v) == Ok([0xf6]);
      var err := enc.EncodeNull();
      r := Ok(err);
    case Int(i) =>
      if !InInt64(i) {
        r := Err(OverflowError(IntOverflow));
        return;
      }
      assert Encode(v) == Ok(if i >= 0 then Head(0, i) else Head(1, -1 - i));
      var err := enc.EncodeInt(i);
      r := Ok(err);
    case Float(bits) =>
      Pow256Values();
      assert Encode(v) == Ok([0xfb] + BigEndian(bits, 8));
      var err := enc.EncodeDouble(bits);
      r := Ok(err);
  }

  /** A str (lines 265-267, its UTF-8 bytes) or a bytes object (lines 268-272). */
  method WriteString(v: Value, enc: CborEncoder) returns (r: Result<CborError, PyError>)
    requires (v.Str? || v.Bytes?) && InMemory(v) && enc.Valid()
    modifies enc, enc.sink, enc.sink.buffer
    ensures enc.Valid() && enc.sink.buffer == old(enc.sink.buffer)
    ensures Encode(v).Ok? &&
      r == Ok(if enc.sink.counting then ErrorOutOfMemory else NoError) &&
      enc.sink.written == old(enc.sink.written) + Encode(v).value && enc.added == old(enc.added) + 1
  {
    var major := if v.Str? then 3 else 2;
    var s := if v.Str? then v.utf8 else v.bytes;
    var err := enc.EncodeString(major, s, |s|);
    assert s[..|s|] == s;
    AppendAssociative(old(enc.sink.written), Head(major, |s|), s);
    r := Ok(err);
  }

  /**
   * The str branch of lines 265-267 as written: the length passed is
   * `len(s)`, the number of characters, so the head carries the character
   * count and only that many bytes of the UTF-8 data follow. WriteString,
   * which the encoder uses, passes the byte length instead.
   */
  method WriteStrAsWritten(s: seq<byte>, enc: CborEncoder) returns (r: Result<CborError, PyError>)
    requires |s| < ArgumentLimit && enc.Valid()
    modifies enc, enc.sink, enc.sink.buffer
    ensures enc.Valid() && enc.sink.buffer == old(enc.sink.buffer) && enc.added == old(enc.added) + 1
    ensures r == Ok(if enc.sink.counting then ErrorOutOfMemory else NoError)
    ensures enc.sink.written == old(enc.sink.written) + EncodeStrAsWritten(s)
  {
    var err := enc.EncodeString(3, s, CodePoints(s));
    AppendAssociative(old(enc.sink.written), Head(3, CodePoints(s)), s[..CodePoints(s)]);
    r := Ok(err);
  }

  /**
   * A list or tuple (lines 273-285): a definite-length array of its
   * length, then every item in index order with the array's encoder.
   */
  method WriteArray(v: Value, vs: seq<Value>, enc: CborEncoder) returns (r: Result<CborError, PyError>)
    requires (v.List? || v.Tuple?) && vs == v.items && InMemory(v) && enc.Valid()
    modifies enc, enc.sink, enc.sink.buffer
    ensures enc.Valid() && enc.sink.buffer == old(enc.sink.buffer)
    ensures Encode(v).Ok? ==>
      r == Ok(if enc.sink.counting then ErrorOutOfMemory else NoError) &&
      enc.sink.written == old(enc.sink.written) + Encode(v).value && enc.added == old(enc.added) + 1
    ensures Encode(v).Err? ==> r == Err(Encode(v).error)
    decreases v, 0, 0
  {
    var child, err := enc.CreateContainer(4, |vs|);
    if err != NoError && err != ErrorOutOfMemory {
      assert false;
      r := Err(ValueError(ArrayFailed));
      return;
    }
    var res := WriteItems(v, vs, child);
    EncodeArray(v);
    if res.Err? {
      r := Err(res.error);
      return;
    }
    AppendAssociative(old(enc.sink.written), Head(4, |vs|), EncodeAll(vs, v).value);
    err := enc.CloseContainer(child);
    r := Ok(err);
  }

  /** The items of a list or tuple in index order (lines 278-284). */
  method WriteItems(v: Value, vs: seq<Value>, enc: CborEncoder) returns (r: Result<(), PyError>)
    requires (v.List? || v.Tuple?) && vs == v.items && InMemory(v) && enc.Valid()
    modifies enc, enc.sink, enc.sink.buffer
    ensures enc.Valid() && enc.sink.buffer == old(enc.sink.buffer)
    ensures EncodeAll(vs, v).Ok? ==>
      r.Ok? && enc.sink.written == old(enc.sink.written) + EncodeAll(vs, v).value && enc.added == old(enc.added) + |vs|
    ensures EncodeAll(vs, v).Err? ==> r == Err(EncodeAll(vs, v).error)
    decreases v, 0, 0, 0
  {
    var i := 0;
    while i < |vs|
      invariant 0 <= i <= |vs|
      invariant enc.Valid() && enc.sink.buffer == old(enc.sink.buffer) && enc.added == old(enc.added) + i
      invariant EncodeAll(vs[..i], v).Ok? && enc.sink.written == old(enc.sink.written) + EncodeAll(vs[..i], v).value
    {
      EncodeAllStep(vs, i, v);
      var res := EncodeNested(vs[i], enc);
      if res.Err? {
        EncodeAllPrefixError(vs, i + 1, v);
        assert vs[..|vs|] == vs;
        r := Err(res.error);
        return;
      }
      AppendAssociative(old(enc.sink.written), EncodeAll(vs[..i], v).value, Encode(vs[i]).value);
      i := i + 1;
    }
    assert vs[..|vs|] == vs;
    r := Ok(());
  }

  /**
   * A dict (lines 286-308): a definite-length map of its length, then for
   * every item the key and then the value, with the map's encoder.
   */
  method WriteMap(v: Value, es: seq<(Value, Value)>, enc: CborEncoder) returns (r: Result<CborError, PyError>)
    requires v.Dict? && es == v.entries && InMemory(v) && enc.Valid()
    modifies enc, enc.sink, enc.sink.buffer
    ensures enc.Valid() && enc.sink.buffer == old(enc.sink.buffer)
    ensures Encode(v).Ok? ==>
      r == Ok(if enc.sink.counting then ErrorOutOfMemory else NoError) &&
      enc.sink.written == old(enc.sink.written) + Encode(v).value && enc.added == old(enc.added) + 1
    ensures Encode(v).Err? ==> r == Err(Encode(v).error)
    decreases v, 0, 0
  {
    var child, err := enc.CreateContainer(5, |es|);
    if err != NoError && err != ErrorOutOfMemory {
      assert false;
      r := Err(ValueError(ArrayFailed));
      return;
    }
    var res := WriteEntries(v, es, child);
    EncodeMap(v);
    if res.Err? {
      r := Err(res.error);
      return;
    }
    AppendAssociative(old(enc.sink.written), Head(5, |es|), EncodeEntries(es, v).value);
    err := enc.CloseContainer(child);
    r := Ok(err);
  }

  /** The items of a dict in its iteration order, each key before its value (lines 293-307). */
  method WriteEntries(v: Value, es: seq<(Value, Value)>, enc: CborEncoder) returns (r: Result<(), PyError>)
    requires v.Dict? && es == v.entries && InMemory(v) && enc.Valid()
    modifies enc, enc.sink, enc.sink.buffer
    ensures enc.Valid() && enc.sink.buffer == old(enc.sink.buffer)
    ensures EncodeEntries(es, v).Ok? ==>
      r.Ok? && enc.sink.written == old(enc.sink.written) + EncodeEntries(es, v).value && enc.added == old(enc.added) + 2 * |es|
    ensures EncodeEntries(es, v).Err? ==> r == Err(EncodeEntries(es, v).error)
    decreases v, 0, 0, 1
  {
    var i := 0;
    while i < |es|
      invariant 0 <= i <= |es|
      invariant enc.Valid() && enc.sink.buffer == old(enc.sink.buffer) && enc.added == old(enc.added) + 2 * i
      invariant EncodeEntries(es[..i], v).Ok? && enc.sink.written == old(enc.sink.written) + EncodeEntries(es[..i], v).value
    {
      EncodeEntriesStep(es, i, v);
      assert es[i] in v.entries;
      var res := WritePair(v, es[i].0, es[i].1, enc);
      if res.Err? {
        EncodeEntriesPrefixError(es, i + 1, v);
        assert es[..|es|] == es;
        r := Err(res.error);
        return;
      }
      AppendAssociative(EncodeEntries(es[..i], v).value, Encode(es[i].0).value, Encode(es[i].1).value);
      AppendAssociative(old(enc.sink.written), EncodeEntries(es[..i], v).value, Encode(es[i].0).value + Encode(es[i].1).value);
      i := i + 1;
    }
    assert es[..|es|] == es;
    r := Ok(());
  }

  /** One item of a dict: its key, then its value. */
  method WritePair(v: Value, key: Value, value: Value, enc: CborEncoder) returns (r: Result<(), PyError>)
    requires v.Dict? && (key, value) in v.entries && InMemory(key) && InMemory(value) && enc.Valid()
    modifies enc, enc.sink, enc.sink.buffer
    ensures enc.Valid() && enc.sink.buffer == old(enc.sink.buffer)
    ensures Encode(key).Ok? && Encode(value).Ok? ==>
      r.Ok? && enc.sink.written == old(enc.sink.written) + (Encode(key).value + Encode(value).value) &&
      enc.added == old(enc.added) + 2
    ensures Encode(key).Err? ==> r == Err(Encode(key).error)
    ensures Encode(key).Ok? && Encode(value).Err? ==> r == Err(Encode(value).error)
    decreases v, 0, 0, 0
  {
    r := EncodeNested(key, enc);
    if r.Err? {
      return;
    }
    r := EncodeNested(value, enc);
    if r.Ok? {
      AppendAssociative(old(enc.sink.written), Encode(key).value, Encode(value).value);
    }
  }

  /**
   * A nested call (`parent_enc` set; lines 313-330): write the object
   * once into the container's encoder. Out-of-memory is not retried here:
   * the call returns and the caller carries on, so the sink keeps counting.
   */
  method EncodeNested(v: Value, enc: CborEncoder) returns (r: Result<(), PyError>)
    requires InMemory(v) && enc.Valid()
    modifies enc, enc.sink, enc.sink.buffer
    ensures enc.Valid() && enc.sink.buffer == old(enc.sink.buffer)
    ensures Encode(v).Ok? ==>
      r.Ok? && enc.sink.written == old(enc.sink.written) + Encode(v).value && enc.added == old(enc.added) + 1
    ensures Encode(v).Err? ==> r == Err(Encode(v).error)
    decreases v, 1
  {
    var res := WriteValue(v, enc);
    if res.Err? {
      r := Err(res.error);
      return;
    }
    var err := res.value;
    if err == NoError {
      r := Ok(());
    } else if err == ErrorOutOfMemory {
      r := Ok(());
    } else {
      assert false;
      r := Err(ValueError(EncodingFailed));
    }
  }

  /**
   * The top-level call (`parent_enc` NULL; lines 243-252, 313-318,
   * 333-335): encode into a fresh buffer, and after a pass that ran out of
   * room, grow the buffer by the extra bytes needed and start over. The
   * result is the buffer and the length of its used part: the encoding.
   * The first pass has 64 bytes, so one pass suffices for an encoding of
   * up to 64 bytes and the second, with a buffer of exactly the
   * encoding's size, for any other.
   */
  method EncodeTop(v: Value) returns (r: Result<array<byte>, PyError>, len: nat, ghost passes: nat)
    requires InMemory(v)
    ensures Encode(v).Err? ==> r == Err(Encode(v).error)
    ensures Encode(v).Ok? ==>
      r.Ok? && len == |Encode(v).value| && len <= r.value.Length && r.value[..len] == Encode(v).value
    ensures Encode(v).Ok? ==>
      r.Ok? && r.value.Length == Max(InitialBufferSize, len) && passes == if len <= InitialBufferSize then 1 else 2
  {
    var bufsize := InitialBufferSize;
    passes := 0;
    len := 0;
    while true
      invariant (passes == 0 && bufsize == InitialBufferSize) ||
        (passes == 1 && Encode(v).Ok? && bufsize == |Encode(v).value| > InitialBufferSize)
      decreases 2 - passes
    {
      var buf := new byte[bufsize];
      var sink := new Sink(buf);
      var enc := new CborEncoder(sink);
      passes := passes + 1;
      var res := WriteValue(v, enc);
      if res.Err? {
        r := Err(res.error);
        return;
      }
      sink.CountingIffOverflow();
      var err := res.value;
      if err == NoError {
        len := sink.BufferSize();
        r := Ok(buf);
        return;
      } else if err == ErrorOutOfMemory {
        bufsize := bufsize + sink.ExtraBytesNeeded();
      } else {
        assert false;
        r := Err(ValueError(EncodingFailed));
        return;
      }
    }
  }

  /**
   * `dumps(obj)` (lines 341-353): the bytes of the used part of the
   * buffer. The top-level call cannot come back without a buffer, so the
   * NULL check there never raises.
   */
  method Dumps(v: Value) returns (r: Result<seq<byte>, PyError>)
    requires InMemory(v)
    ensures r == Encode(v)
  {
    var res, len, passes := EncodeTop(v);
    if res.Err? {
      r := Err(res.error);
      return;
    }
    r := Ok(res.value[..len]);
  }
}
