/**
 * The fixtures of test/test.py, each stated both ways: the encoder gives
 * the fixture's bytes, and the decoder gives the fixture's object back
 * from them, so `loads(dumps(obj))` is the object again.
 */
module Fixtures {
  import opened Binary
  import opened Wrappers
  import opened PyObjects
  import opened Encoding
  import opened Decoder
  import opened RoundTrip
  import Cursors
  import Floats

  /** A fixture: `obj` encodes to `bytes`, which decode to `obj` with tuples read back as lists. */
  lemma Fixture(obj: Value, bytes: seq<byte>)
    requires InMemory(obj) && Encodable(obj) && WellKeyed(obj)
    requires Encode(obj) == Ok(bytes)
    ensures Decode(bytes) == Ok(Normalize(obj))
  {
    DecodeEncode(obj, []);
    assert bytes + [] == bytes;
  }

  const Abc: seq<byte> := [0x61, 0x62, 0x63]

  /** `b'\x01'` is 1 (line 7). */
  lemma IntFixture()
    ensures Encode(Int(1)) == Ok([0x01])
    ensures Decode([0x01]) == Ok(Int(1))
  {
    assert Head(0, 1) == [0x01];
    Fixture(Int(1), [0x01]);
  }

  /** `b'cabc'` is "abc" and `b'Cabc'` is b"abc" (lines 8-9). */
  lemma StringFixtures()
    ensures Encode(Str(Abc)) == Ok([0x63] + Abc)
    ensures Decode([0x63] + Abc) == Ok(Str(Abc))
    ensures Encode(Bytes(Abc)) == Ok([0x43] + Abc)
    ensures Decode([0x43] + Abc) == Ok(Bytes(Abc))
  {
    assert Head(3, 3) == [0x63] && Head(2, 3) == [0x43];
    Fixture(Str(Abc), [0x63] + Abc);
    Fixture(Bytes(Abc), [0x43] + Abc);
  }

  /** The parts one after another. */
  function Concat(parts: seq<seq<byte>>): (r: seq<byte>)
    ensures parts == [] ==> r == []
  {
    if parts == [] then [] else Concat(parts[..|parts| - 1]) + parts[|parts| - 1]
  }

  /** A small non-negative int is its own one-byte head. */
  lemma SmallInt(k: nat)
    requires k < 24
    ensures Encode(Int(k)) == Ok([k])
  {
    assert Head(0, k) == [k];
  }

  /** Children with known encodings give the array body of those encodings in order. */
  lemma {:induction false} ItemsEncode(vs: seq<Value>, parent: Value, parts: seq<seq<byte>>)
    requires (parent.List? || parent.Tuple?) && InMemory(parent)
    requires forall x :: x in vs ==> x in parent.items
    requires |parts| == |vs| && forall i | 0 <= i < |vs| :: InMemory(vs[i]) && Encode(vs[i]) == Ok(parts[i])
    ensures EncodeAll(vs, parent) == Ok(Concat(parts))
    decreases |vs|
  {
    if vs != [] {
      var n := |vs| - 1;
      assert forall x :: x in vs[..n] ==> x in vs;
      ItemsEncode(vs[..n], parent, parts[..n]);
    }
  }

  /** A list or tuple of fewer than 24 children with known encodings. */
  lemma ArrayEncodes(v: Value, parts: seq<seq<byte>>)
    requires (v.List? || v.Tuple?) && InMemory(v) && |v.items| < 24
    requires |parts| == |v.items| && forall i | 0 <= i < |v.items| :: InMemory(v.items[i]) && Encode(v.items[i]) == Ok(parts[i])
    ensures Encode(v) == Ok([0x80 + |v.items|] + Concat(parts))
  {
    ItemsEncode(v.items, v, parts);
    assert Head(4, |v.items|) == [0x80 + |v.items|];
  }

  const OneTwoThree: seq<Value> := [Int(1), Int(2), Int(3)]
  const ListBody: seq<byte> := [0x01, 0x02, 0x03]
  const ListBytes: seq<byte> := [0x83] + ListBody

  /** The list and the tuple of 1, 2, 3 give the same array. */
  lemma ListEncodes()
    ensures InMemory(List(OneTwoThree)) && Encode(List(OneTwoThree)) == Ok(ListBytes)
    ensures InMemory(Tuple(OneTwoThree)) && Encode(Tuple(OneTwoThree)) == Ok(ListBytes)
  {
    SmallInt(1); SmallInt(2); SmallInt(3);
    var parts: seq<seq<byte>> := [[0x01], [0x02], [0x03]];
    assert parts[..2][..1] == [[0x01]] && parts[..2] == [[0x01], [0x02]];
    assert Concat(parts) == ListBody;
    ArrayEncodes(List(OneTwoThree), parts);
    ArrayEncodes(Tuple(OneTwoThree), parts);
  }

  /** `[1, 2, 3]` is `b'\x83\x01\x02\x03'` (line 12), and so is `(1, 2, 3)` (line 37). */
  lemma ListFixture()
    ensures Encode(List(OneTwoThree)) == Ok(ListBytes)
    ensures Encode(Tuple(OneTwoThree)) == Ok(ListBytes)
    ensures Decode(ListBytes) == Ok(List(OneTwoThree))
  {
    ListEncodes();
    NormalizeTupleFree(List(OneTwoThree));
    Fixture(List(OneTwoThree), ListBytes);
  }

  /** A text string shorter than 24 bytes is a one-byte head and its bytes. */
  lemma ShortText(s: seq<byte>)
    requires |s| < 24
    ensures Encode(Str(s)) == Ok([0x60 + |s|] + s)
  {
    assert Head(3, |s|) == [0x60 + |s|];
  }

  /** Pairs with known encodings give the map body of those encodings in order. */
  lemma {:induction false} EntriesEncode(es: seq<(Value, Value)>, parent: Value, parts: seq<seq<byte>>)
    requires parent.Dict? && InMemory(parent)
    requires forall e :: e in es ==> e in parent.entries
    requires |parts| == |es|
    requires forall i | 0 <= i < |es| ::
      InMemory(es[i].0) && InMemory(es[i].1) && Encode(es[i].0).Ok? && Encode(es[i].1).Ok? &&
      parts[i] == Encode(es[i].0).value + Encode(es[i].1).value
    ensures EncodeEntries(es, parent) == Ok(Concat(parts))
    decreases |es|
  {
    if es != [] {
      var n := |es| - 1;
      assert forall e :: e in es[..n] ==> e in es;
      EntriesEncode(es[..n], parent, parts[..n]);
      AppendAssociative(Concat(parts[..n]), Encode(es[n].0).value, Encode(es[n].1).value);
    }
  }

  /** A dict of fewer than 24 pairs with known encodings. */
  lemma MapEncodes(v: Value, parts: seq<seq<byte>>)
    requires v.Dict? && InMemory(v) && |v.entries| < 24
    requires |parts| == |v.entries|
    requires forall i | 0 <= i < |v.entries| ::
      InMemory(v.entries[i].0) && InMemory(v.entries[i].1) && Encode(v.entries[i].0).Ok? && Encode(v.entries[i].1).Ok? &&
      parts[i] == Encode(v.entries[i].0).value + Encode(v.entries[i].1).value
    ensures Encode(v) == Ok([0xa0 + |v.entries|] + Concat(parts))
  {
    EntriesEncode(v.entries, v, parts);
    assert Head(5, |v.entries|) == [0xa0 + |v.entries|];
  }

  const Abcd: seq<byte> := [0x61, 0x62, 0x63, 0x64]
  const Efg: seq<byte> := [0x65, 0x66, 0x67]
  const Hijk: seq<byte> := [0x68, 0x69, 0x6a, 0x6b]
  const Lmnop: seq<byte> := [0x6c, 0x6d, 0x6e, 0x6f, 0x70]

  /** The bytes of the dict fixture of line 14. */
  const FirstPair: seq<byte> := [0x64] + Abcd + [0x63] + Efg
  const SecondPair: seq<byte> := [0x64] + Hijk + [0x65] + Lmnop
  const DictBytes: seq<byte> := [0xa2] + (FirstPair + SecondPair)

  const DictObject: Value := Dict([(Str(Abcd), Str(Efg)), (Str(Hijk), Str(Lmnop))])

  lemma DictEncodes()
    ensures InMemory(DictObject) && Encode(DictObject) == Ok(DictBytes)
  {
    var d := DictObject;
    ShortText(Abcd); ShortText(Efg); ShortText(Hijk); ShortText(Lmnop);
    var parts: seq<seq<byte>> := [FirstPair, SecondPair];
    assert parts[..1][..0] == [] && parts[..1] == [parts[0]];
    assert Concat(parts) == FirstPair + SecondPair;
    MapEncodes(d, parts);
  }

  lemma DictWellKeyed()
    ensures Encodable(DictObject) && TupleFree(DictObject) && WellKeyed(DictObject)
  {
    var d := DictObject;
    assert Encodable(d) && TupleFree(d);
    NormalizeTupleFree(d);
    assert Keys(d.entries) == [Str(Abcd), Str(Hijk)];
  }

  /**
   * The dict fixture of line 14, written there as
   * `{"hijk": "lmnop", "abcd": "efg"}`: the map holds the pairs in the
   * other order, "abcd" first, and the decoded dict keeps the order of the
   * map (Python compares dicts without regard to order).
   */
  lemma DictFixture()
    ensures Encode(DictObject) == Ok(DictBytes)
    ensures Decode(DictBytes) == Ok(DictObject)
  {
    DictEncodes();
    DictWellKeyed();
    NormalizeTupleFree(DictObject);
    Fixture(DictObject, DictBytes);
  }

  const PiBytes: seq<byte> := [0x40, 0x09, 0x1e, 0xb8, 0x51, 0xeb, 0x85, 0x1f]
  /** The binary64 pattern of 3.14. */
  const PiBits: nat := 0x4009_1eb8_51eb_851f
  const DoubleBytes: seq<byte> := [0xfb] + PiBytes

  /** `b'\xfb@\t\x1e\xb8Q\xeb\x85\x1f'` is 3.14 (line 10). */
  lemma DoubleFixture()
    ensures Encode(Float(PiBits)) == Ok(DoubleBytes)
    ensures Decode(DoubleBytes) == Ok(Float(PiBits))
  {
    Pow256Values();
    assert BigEndian(0x4009_1eb8_51eb_851f, 8) == PiBytes;
    Fixture(Float(PiBits), DoubleBytes);
  }

  const SingleBytes: seq<byte> := [0xfa, 0x40, 0x48, 0xf5, 0xc3]

  /**
   * `b'\xfa@H\xf5\xc3'` (line 11) is the binary32 number nearest 3.14,
   * which widens to a binary64 other than 3.14 (3.140000104904175), so the
   * fixture's comparison with 3.14 is false.
   */
  lemma SingleFixture()
    ensures Decode(SingleBytes) == Ok(Float(0x4009_1eb8_6000_0000))
    ensures Decode(SingleBytes) != Ok(Float(PiBits))
  {
    var it := Cursors.Cursor(0, Cursors.Items(1));
    assert Cursors.Init(SingleBytes) == Ok(it);
    SingleBits(it);
    WidenedPi();
  }

  lemma SingleBits(it: Cursors.Cursor)
    requires it == Cursors.Cursor(0, Cursors.Items(1)) && Cursors.Valid(SingleBytes, it)
    ensures Cursors.TypeOf(SingleBytes, it) == Cursors.FloatType
    ensures Cursors.GetFloatBits(SingleBytes, it) == 0x4048_f5c3
  {
    assert Cursors.ArgumentAt(SingleBytes, 1, 4) == 0x4048_f5c3;
  }

  lemma WidenedPi()
    ensures Floats.WidenSingle(0x4048_f5c3) == 0x4009_1eb8_6000_0000
  {
    assert Floats.SingleSign(0x4048_f5c3) == 0;
    assert Floats.SingleExponent(0x4048_f5c3) == 0x80;
    assert Floats.SingleFraction(0x4048_f5c3) == 0x48_f5c3;
  }

  const TupleKey: Value := Tuple([Int(1), Int(2)])
  const TupleKeyDict: Value := Dict([(TupleKey, Int(3))])

  /**
   * `dumps({(1, 2): 3})` writes the tuple key as an array, which `loads`
   * reads back as a list, so the round trip raises TypeError instead of
   * giving the dict back.
   */
  lemma TupleKeyNoRoundTrip()
    ensures Encode(TupleKeyDict) == Ok(Decoder.TupleKeyMap)
    ensures Decode(Decoder.TupleKeyMap) == Err(TypeError(Unhashable))
    ensures !WellKeyed(TupleKeyDict)
  {
    TupleKeyEncodes();
    Decoder.TupleKeyRejected();
    TupleKeyUnhashable();
  }

  lemma TupleKeyEncodes()
    ensures Encode(TupleKeyDict) == Ok(Decoder.TupleKeyMap)
  {
    TupleKeyArrayEncodes();
    SmallInt(3);
    var parts: seq<seq<byte>> := [[0x82, 0x01, 0x02, 0x03]];
    assert parts[..0] == [] && Concat(parts) == [0x82, 0x01, 0x02, 0x03];
    assert Encode(TupleKeyDict.entries[0].0).value + Encode(TupleKeyDict.entries[0].1).value == parts[0];
    MapEncodes(TupleKeyDict, parts);
    assert [0xa0 + |TupleKeyDict.entries|] == [0xa1];
    assert Decoder.TupleKeyMap == [0xa1, 0x82, 0x01, 0x02, 0x03];
    assert [0xa1] + Concat(parts) == [0xa1, 0x82, 0x01, 0x02, 0x03];
  }

  lemma TupleKeyArrayEncodes()
    ensures Encode(TupleKey) == Ok([0x82, 0x01, 0x02])
  {
    SmallInt(1); SmallInt(2);
    var keyParts: seq<seq<byte>> := [[0x01], [0x02]];
    assert keyParts[..1] == [[0x01]] && Concat(keyParts) == [0x01, 0x02];
    ArrayEncodes(TupleKey, keyParts);
    assert [0x80 + |TupleKey.items|] + Concat(keyParts) == [0x82, 0x01, 0x02];
  }

  /** The key is read back as a list, which cannot be a dict key. */
  lemma TupleKeyUnhashable()
    ensures !WellKeyed(TupleKeyDict)
  {
    assert NormalizeEntries(TupleKeyDict.entries, TupleKeyDict)[0].0 == List([Int(1), Int(2)]);
  }
}
