/**
 * What `loads` makes of what `dumps` wrote: decoding the encoding of an
 * encodable object gives the object back, with tuples turned into lists
 * (CBOR has one array type, which the decoder builds as a list), and
 * whatever follows the encoding in the input is ignored.
 */
module RoundTrip {
  import opened Binary
  import opened Wrappers
  import opened Cursors
  import opened PyObjects
  import opened Decoder
  import Encoding

  /**
   * Dicts whose keys, as the decoder reads them back, can be stored and
   * stay distinct: the decoder stores every key it reads, so a key read
   * back as a list or dict raises TypeError, and two keys that decode
   * equal would leave one entry.
   */
  predicate WellKeyed(v: Value)
    decreases v, 1
  {
    match v
    case List(vs) => forall x | x in vs :: WellKeyed(x)
    case Tuple(vs) => forall x | x in vs :: WellKeyed(x)
    case Dict(es) =>
      KeysHashable(NormalizeEntries(es, v)) && UniqueKeys(NormalizeEntries(es, v)) && EntriesWellKeyed(es, v)
    case _ => true
  }

  predicate EntriesWellKeyed(es: seq<(Value, Value)>, ghost parent: Value)
    requires parent.Dict? && forall e :: e in es ==> e in parent.entries
    decreases parent, 0, |es|
  {
    forall i | 0 <= i < |es| :: assert es[i] in parent.entries; WellKeyed(es[i].0) && WellKeyed(es[i].1)
  }

  /** `bytes` occur in `data` at `pos`. */
  predicate At(data: seq<byte>, pos: nat, bytes: seq<byte>) {
    pos + |bytes| <= |data| && data[pos..pos + |bytes|] == bytes
  }

  lemma {:induction false} AtSplit(data: seq<byte>, pos: nat, a: seq<byte>, b: seq<byte>)
    requires At(data, pos, a + b)
    ensures At(data, pos, a) && At(data, pos + |a|, b)
  {
    var s := data[pos..pos + |a + b|];
    assert data[pos..pos + |a|] == s[..|a|] && s[..|a|] == a;
    assert data[pos + |a|..pos + |a| + |b|] == s[|a|..] && s[|a|..] == b;
  }

  /** A head written by the encoder (major types 0 to 6) reads back as its major type and argument. */
  lemma {:induction false} HeadParses(data: seq<byte>, pos: nat, major: nat, arg: nat)
    requires major < 7 && arg < Encoding.ArgumentLimit && At(data, pos, Encoding.Head(major, arg))
    ensures ParseHead(data, pos) ==
      Ok(Cursors.Head(major, Encoding.ShortestInfo(arg), arg, |Encoding.Head(major, arg)|))
  {
    var h := Encoding.Head(major, arg);
    var info := Encoding.ShortestInfo(arg);
    var w := Encoding.ShortestWidth(arg);
    Encoding.Pow256Values();
    assert data[pos] == h[0] by {
      assert data[pos..pos + |h|][0] == data[pos];
    }
    assert data[pos] / 32 == major && data[pos] % 32 == info;
    assert ArgumentBytes(info) == w;
    if arg >= 24 {
      assert h == [h[0]] + BigEndian(arg, w);
      assert data[pos + 1..pos + 1 + w] == BigEndian(arg, w) by {
        AtSplit(data, pos, [h[0]], BigEndian(arg, w));
      }
      FromBigEndianOfBigEndian(arg, w);
      ArgumentAtBytes(data, pos + 1, w);
    }
  }

  /** In a dict with distinct keys, a pair's key is equal to none of the keys before it. */
  lemma {:induction false} FreshKey(acc: seq<(Value, Value)>, rest: seq<(Value, Value)>)
    requires UniqueKeys(acc + rest) && rest != []
    ensures !HasKey(acc, rest[0].0)
  {
    var ks := Keys(acc + rest);
    forall i | 0 <= i < |acc|
      ensures !KeyEq(acc[i].0, rest[0].0)
    {
      assert ks[i] == acc[i].0 && ks[|acc|] == rest[0].0;
    }
  }

  /** The encoding of `v` is at `pos`. */
  predicate EncodedAt(data: seq<byte>, pos: nat, v: Value) {
    Encoding.InMemory(v) && Encoding.Encode(v).Ok? && WellKeyed(v) &&
    At(data, pos, Encoding.Encode(v).value)
  }

  /** Moving on from equal positions gives equal results. */
  lemma {:induction false} NextAt(data: seq<byte>, a: nat, b: nat, rem: Remaining, wasTag: bool)
    requires a == b <= |data|
    ensures Next(data, a, rem, wasTag) == Next(data, b, rem, wasTag)
  {
  }

  /**
   * One pass of the decoding loop over the encoding of `v` at `pos`, at a
   * level with `n` items left, yields the object `v` stands for and moves
   * to the level's next item after the encoding, which ends at `q`.
   */
  lemma {:induction false} StepEncoded(data: seq<byte>, pos: nat, n: nat, v: Value, q: nat, next: Cursor)
    requires EncodedAt(data, pos, v) && n >= 1 && q == pos + |Encoding.Encode(v).value|
    requires Next(data, q, Items(n), false) == Ok(next)
    ensures Steps(data, Cursor(pos, Items(n)), Normalize(v), next)
    decreases v, 2
  {
    match v
    case NoneValue => StepNone(data, pos, n, v, q, next);
    case Int(_) => StepInt(data, pos, n, v, q, next);
    case Float(_) => StepFloat(data, pos, n, v, q, next);
    case Str(_) => StepString(data, pos, n, v, q, next);
    case Bytes(_) => StepString(data, pos, n, v, q, next);
    case List(_) => StepArray(data, pos, n, v, q, next);
    case Tuple(_) => StepArray(data, pos, n, v, q, next);
    case Dict(_) => StepMap(data, pos, n, v, q, next);
  }

  // How one pass of the decoding loop ends, by the kind of item.

  /** A string or container item has moved the cursor itself. */
  lemma {:induction false} StepMoving(data: seq<byte>, c: Cursor)
    requires Valid(data, c) && !AtEnd(c)
    requires TypeOf(data, c) in {ByteStringType, TextStringType, ArrayType, MapType}
    ensures Step(data, c) == Item(data, c)
  {
  }

  /** A fixed-size item other than a tag is stepped over after it is read, to the end `q` of its head. */
  lemma {:induction false} StepFixed(data: seq<byte>, c: Cursor, x: Value, q: nat, next: Cursor)
    requires Valid(data, c) && !AtEnd(c) && IsFixedType(TypeOf(data, c)) && TypeOf(data, c) != TagType
    requires Item(data, c) == Ok((x, c))
    requires q == c.pos + HeadAt(data, c).size && Next(data, q, c.remaining, false) == Ok(next)
    ensures Steps(data, c, x, next)
  {
    AdvanceFixedAt(data, c, q);
  }

  /** Past a fixed-size item other than a tag, the level goes on at the end `q` of its head. */
  lemma {:induction false} AdvanceFixedAt(data: seq<byte>, c: Cursor, q: nat)
    requires Valid(data, c) && IsFixedType(TypeOf(data, c)) && TypeOf(data, c) != TagType
    requires q == c.pos + HeadAt(data, c).size
    ensures AdvanceFixed(data, c) == Next(data, q, c.remaining, false)
  {
    NextAt(data, c.pos + HeadAt(data, c).size, q, c.remaining, false);
  }

  /** The simple value 22 is `None`. */
  lemma {:induction false} StepNull(data: seq<byte>, pos: nat, n: nat, q: nat, next: Cursor)
    requires n >= 1 && pos < |data| && data[pos] == 0xf6
    requires q == pos + 1 <= |data| && Next(data, q, Items(n), false) == Ok(next)
    ensures Steps(data, Cursor(pos, Items(n)), NoneValue, next)
  {
    var c := Cursor(pos, Items(n));
    assert ParseHead(data, pos) == Ok(Cursors.Head(7, 22, 22, 1));
    assert TypeOf(data, c) == NullType;
    assert Item(data, c) == Ok((NoneValue, c));
    StepFixed(data, c, NoneValue, q, next);
  }

  /** An unsigned or negative integer whose argument is below 2^63 is read exactly. */
  lemma {:induction false} StepInteger(data: seq<byte>, pos: nat, n: nat, major: nat, arg: nat, q: nat, next: Cursor, x: Value)
    requires n >= 1 && (major == 0 || major == 1) && arg < 0x8000_0000_0000_0000
    requires At(data, pos, Encoding.Head(major, arg)) && q == pos + |Encoding.Head(major, arg)|
    requires Next(data, q, Items(n), false) == Ok(next)
    requires x == Int(if major == 0 then arg else -1 - arg)
    ensures Steps(data, Cursor(pos, Items(n)), x, next)
  {
    var c := Cursor(pos, Items(n));
    Encoding.Pow256Values();
    HeadParses(data, pos, major, arg);
    assert TypeOf(data, c) == IntegerType;
    assert Item(data, c) == Ok((x, c));
    StepFixed(data, c, x, q, next);
  }

  /** A double-precision item is read bit for bit. */
  lemma {:induction false} StepDouble(data: seq<byte>, pos: nat, n: nat, bits: nat, q: nat, next: Cursor)
    requires n >= 1 && bits < Pow256(8) && At(data, pos, [0xfb] + BigEndian(bits, 8))
    requires q == pos + 9 && Next(data, q, Items(n), false) == Ok(next)
    ensures Steps(data, Cursor(pos, Items(n)), Float(bits), next)
  {
    var c := Cursor(pos, Items(n));
    DoubleHead(data, pos, bits);
    DoubleItem(data, c, bits);
    StepFixed(data, c, Float(bits), q, next);
  }

  /** A cursor at the head of a double reads it as the float with its bits. */
  lemma {:induction false} DoubleItem(data: seq<byte>, c: Cursor, bits: nat)
    requires c.remaining.Items? && c.remaining.n >= 1 && ParseHead(data, c.pos) == Ok(Cursors.Head(7, 27, bits, 9))
    ensures Valid(data, c) && !AtEnd(c) && TypeOf(data, c) == DoubleType && HeadAt(data, c).size == 9
    ensures Item(data, c) == Ok((Float(bits), c))
  {
    assert TypeOf(data, c) == DoubleType;
  }

  /** The head of a double is its initial byte and the eight bytes of its bits. */
  lemma {:induction false} DoubleHead(data: seq<byte>, pos: nat, bits: nat)
    requires bits < Pow256(8) && At(data, pos, [0xfb] + BigEndian(bits, 8))
    ensures ParseHead(data, pos) == Ok(Cursors.Head(7, 27, bits, 9))
  {
    AtSplit(data, pos, [0xfb], BigEndian(bits, 8));
    assert data[pos] == 0xfb by { assert data[pos..pos + 1][0] == data[pos]; }
    FromBigEndianOfBigEndian(bits, 8);
    ArgumentAtBytes(data, pos + 1, 8);
  }

  /** The payload `s` of a definite-length string at `c`, which begins at `p`, is copied out. */
  lemma {:induction false} DupDefinite(data: seq<byte>, c: Cursor, p: nat, s: seq<byte>, q: nat, next: Cursor)
    requires Valid(data, c) && !AtEnd(c) && (TypeOf(data, c) == ByteStringType || TypeOf(data, c) == TextStringType)
    requires HeadAt(data, c).info != IndefiniteLength && HeadAt(data, c).arg == |s|
    requires p == c.pos + HeadAt(data, c).size && At(data, p, s)
    requires q == p + |s| && Next(data, q, c.remaining, false) == Ok(next)
    ensures DupString(data, c) == Ok((s, next))
  {
    assert c.pos + HeadAt(data, c).size + HeadAt(data, c).arg == q;
    assert data[p..q] == s;
  }

  /** A definite-length byte or text string is copied out. */
  lemma {:induction false} StepDefiniteString(data: seq<byte>, pos: nat, n: nat, major: nat, s: seq<byte>,
                                              q: nat, next: Cursor, x: Value)
    requires n >= 1 && (major == 2 || major == 3) && |s| < Encoding.ArgumentLimit
    requires At(data, pos, Encoding.Head(major, |s|) + s) && q == pos + |Encoding.Head(major, |s|) + s|
    requires Next(data, q, Items(n), false) == Ok(next)
    requires x == if major == 3 then Str(s) else Bytes(s)
    ensures Steps(data, Cursor(pos, Items(n)), x, next)
  {
    var c := Cursor(pos, Items(n));
    var h := Encoding.Head(major, |s|);
    AtSplit(data, pos, h, s);
    CursorHead(data, c, major, |s|);
    DupDefinite(data, c, pos + |h|, s, q, next);
    StringItem(data, c, s, next, x);
  }

  /** A string item whose payload `s` has been copied out is the object `x`. */
  lemma {:induction false} StringItem(data: seq<byte>, c: Cursor, s: seq<byte>, next: Cursor, x: Value)
    requires Valid(data, c) && !AtEnd(c) && (TypeOf(data, c) == ByteStringType || TypeOf(data, c) == TextStringType)
    requires DupString(data, c) == Ok((s, next))
    requires x == if TypeOf(data, c) == TextStringType then Str(s) else Bytes(s)
    ensures Steps(data, c, x, next)
  {
    StepMoving(data, c);
  }

  // The same, for the encoding of each kind of object.

  lemma {:induction false} StepNone(data: seq<byte>, pos: nat, n: nat, v: Value, q: nat, next: Cursor)
    requires v.NoneValue? && EncodedAt(data, pos, v) && n >= 1 && q == pos + |Encoding.Encode(v).value|
    requires Next(data, q, Items(n), false) == Ok(next)
    ensures Steps(data, Cursor(pos, Items(n)), Normalize(v), next)
  {
    assert data[pos..pos + 1][0] == data[pos];
    StepNull(data, pos, n, q, next);
  }

  lemma {:induction false} StepInt(data: seq<byte>, pos: nat, n: nat, v: Value, q: nat, next: Cursor)
    requires v.Int? && EncodedAt(data, pos, v) && n >= 1 && q == pos + |Encoding.Encode(v).value|
    requires Next(data, q, Items(n), false) == Ok(next)
    ensures Steps(data, Cursor(pos, Items(n)), Normalize(v), next)
  {
    assert Normalize(v) == v;
    if v.i >= 0 {
      assert Encoding.Encode(v).value == Encoding.Head(0, v.i);
      StepInteger(data, pos, n, 0, v.i, q, next, v);
    } else {
      assert Encoding.Encode(v).value == Encoding.Head(1, -1 - v.i);
      StepInteger(data, pos, n, 1, -1 - v.i, q, next, v);
    }
  }

  lemma {:induction false} StepFloat(data: seq<byte>, pos: nat, n: nat, v: Value, q: nat, next: Cursor)
    requires v.Float? && EncodedAt(data, pos, v) && n >= 1 && q == pos + |Encoding.Encode(v).value|
    requires Next(data, q, Items(n), false) == Ok(next)
    ensures Steps(data, Cursor(pos, Items(n)), Normalize(v), next)
  {
    Encoding.Pow256Values();
    StepDouble(data, pos, n, v.bits, q, next);
  }

  lemma {:induction false} StepString(data: seq<byte>, pos: nat, n: nat, v: Value, q: nat, next: Cursor)
    requires (v.Str? || v.Bytes?) && EncodedAt(data, pos, v) && n >= 1 && q == pos + |Encoding.Encode(v).value|
    requires Next(data, q, Items(n), false) == Ok(next)
    ensures Steps(data, Cursor(pos, Items(n)), Normalize(v), next)
  {
    assert Normalize(v) == v;
    if v.Str? {
      StepDefiniteString(data, pos, n, 3, v.utf8, q, next, v);
    } else {
      StepDefiniteString(data, pos, n, 2, v.bytes, q, next, v);
    }
  }

  /** Entering a definite-length array or map at `c` gives the cursor `inner` over its items. */
  lemma {:induction false} EnterAt(data: seq<byte>, c: Cursor, inner: Cursor)
    requires Valid(data, c) && !AtEnd(c) && (TypeOf(data, c) == ArrayType || TypeOf(data, c) == MapType)
    requires HeadAt(data, c).info != IndefiniteLength
    requires inner.pos == c.pos + HeadAt(data, c).size
    requires inner.remaining == Items(if HeadAt(data, c).major == 5 then 2 * HeadAt(data, c).arg else HeadAt(data, c).arg)
    requires Valid(data, inner)
    ensures Enter(data, c) == Ok(inner)
  {
  }

  /**
   * The head of a definite-length array (major type 4) or map (major type
   * 5) of `m` items or pairs at `pos`, whose items begin at `inner` and
   * fill the level `empty` up to `lv`, ending at `end`: one pass of the
   * loop yields the level's object and continues at the level's next item
   * after `end`.
   */
  lemma {:induction false} StepContainer(data: seq<byte>, pos: nat, n: nat, major: nat, m: nat, inner: Cursor,
                                         empty: Level, lv: Level, end: nat, x: Value, next: Cursor)
    requires n >= 1 && m < Encoding.ArgumentLimit
    requires (major == 4 && inner.remaining == Items(m) && empty == ListLevel([])) ||
             (major == 5 && inner.remaining == Items(2 * m) && empty == DictLevel([], false, NoneValue))
    requires At(data, pos, Encoding.Head(major, m)) && inner.pos == pos + |Encoding.Head(major, m)|
    requires Fills(data, inner, empty, lv, end)
    requires x == LevelValue(lv) && Next(data, end, Items(n), false) == Ok(next)
    ensures Steps(data, Cursor(pos, Items(n)), x, next)
  {
    var c := Cursor(pos, Items(n));
    CursorHead(data, c, major, m);
    EnterAt(data, c, inner);
    assert Container(data, c, empty) == Ok((x, next));
    assert Item(data, c) == Container(data, c, empty);
    StepMoving(data, c);
  }

  /** The head of a string, array or map with argument `m`, at a cursor with items left. */
  lemma {:induction false} CursorHead(data: seq<byte>, c: Cursor, major: nat, m: nat)
    requires c.remaining.Items? && c.remaining.n >= 1 && 2 <= major <= 5 && m < Encoding.ArgumentLimit
    requires At(data, c.pos, Encoding.Head(major, m))
    ensures Valid(data, c) && !AtEnd(c)
    ensures TypeOf(data, c) ==
      if major == 2 then ByteStringType else if major == 3 then TextStringType else if major == 4 then ArrayType else MapType
    ensures HeadAt(data, c) == Cursors.Head(major, Encoding.ShortestInfo(m), m, |Encoding.Head(major, m)|)
  {
    HeadParses(data, c.pos, major, m);
  }

  /** A list or tuple is an array: entered, filled with its items, and left. */
  lemma {:induction false} StepArray(data: seq<byte>, pos: nat, n: nat, v: Value, q: nat, next: Cursor)
    requires (v.List? || v.Tuple?) && EncodedAt(data, pos, v) && n >= 1 && q == pos + |Encoding.Encode(v).value|
    requires Next(data, q, Items(n), false) == Ok(next)
    ensures Steps(data, Cursor(pos, Items(n)), Normalize(v), next)
    decreases v, 1
  {
    var vs := v.items;
    var inner := Cursor(pos + |Encoding.Head(4, |vs|)|, Items(|vs|));
    Encoding.EncodeArray(v);
    AtSplit(data, pos, Encoding.Head(4, |vs|), Encoding.EncodeAll(vs, v).value);
    ListFilled(data, inner, v, q);
    StepContainer(data, pos, n, 4, |vs|, inner, ListLevel([]), ListLevel(NormalizeAll(vs)), q, Normalize(v), next);
  }

  /** A dict is a map: entered, filled with its pairs, and left. */
  lemma {:induction false} StepMap(data: seq<byte>, pos: nat, n: nat, v: Value, q: nat, next: Cursor)
    requires v.Dict? && EncodedAt(data, pos, v) && n >= 1 && q == pos + |Encoding.Encode(v).value|
    requires Next(data, q, Items(n), false) == Ok(next)
    ensures Steps(data, Cursor(pos, Items(n)), Normalize(v), next)
    decreases v, 1
  {
    var es := v.entries;
    var inner := Cursor(pos + |Encoding.Head(5, |es|)|, Items(2 * |es|));
    Encoding.EncodeMap(v);
    AtSplit(data, pos, Encoding.Head(5, |es|), Encoding.EncodeEntries(es, v).value);
    MapFilled(data, inner, v, q);
    StepContainer(data, pos, n, 5, |es|, inner, DictLevel([], false, NoneValue),
                  DictLevel(NormalizeEntries(es, v), false, NoneValue), q, Normalize(v), next);
  }

  /** The items of a list, encoded from the cursor `inner` to `end`, fill a new list level with their objects. */
  lemma {:induction false} ListFilled(data: seq<byte>, inner: Cursor, v: Value, end: nat)
    requires (v.List? || v.Tuple?) && Encoding.InMemory(v) && WellKeyed(v)
    requires Encoding.EncodeAll(v.items, v).Ok? && At(data, inner.pos, Encoding.EncodeAll(v.items, v).value)
    requires inner.remaining == Items(|v.items|) && end == inner.pos + |Encoding.EncodeAll(v.items, v).value|
    ensures Fills(data, inner, ListLevel([]), ListLevel(NormalizeAll(v.items)), end)
    decreases v, 0, 3
  {
    var xs := NormalizeAll(v.items);
    assert [] + xs == xs;
    var cs := ItemsChain(data, inner.pos, v, end);
    assert cs[0] == inner;
    FillChain(data, cs, xs, [], end);
  }

  /** The pairs of a dict, encoded from the cursor `inner` to `end`, fill a new dict level with their objects. */
  lemma {:induction false} MapFilled(data: seq<byte>, inner: Cursor, v: Value, end: nat)
    requires v.Dict? && Encoding.InMemory(v) && WellKeyed(v)
    requires Encoding.EncodeEntries(v.entries, v).Ok? && At(data, inner.pos, Encoding.EncodeEntries(v.entries, v).value)
    requires inner.remaining == Items(2 * |v.entries|) && end == inner.pos + |Encoding.EncodeEntries(v.entries, v).value|
    ensures Fills(data, inner, DictLevel([], false, NoneValue), DictLevel(NormalizeEntries(v.entries, v), false, NoneValue), end)
    decreases v, 0, 4
  {
    var pairs := NormalizeEntries(v.entries, v);
    assert [] + pairs == pairs;
    var ks, ws := EntriesChain(data, inner.pos, v, end);
    assert ks[0] == inner;
    FillPairs(data, ks, ws, pairs, [], end);
  }

  // Reading a level whose items are known to decode one after the other.

  /** The rest of the level at `c`, read into `lv`, completes it as `filled`, ending at `end`. */
  predicate Fills(data: seq<byte>, c: Cursor, lv: Level, filled: Level, end: nat) {
    match c
    case Cursor(_, _) => Valid(data, c) && Fill(data, c, lv) == Ok((filled, Cursor(end, Items(0))))
  }

  /** One pass of the decoding loop at `c` yields `x` and leaves the cursor at `next`. */
  predicate Steps(data: seq<byte>, c: Cursor, x: Value, next: Cursor) {
    match c
    case Cursor(_, _) => Valid(data, c) && !AtEnd(c) && Step(data, c) == Ok((x, next))
  }

  /** The cursor a chain of items ends at. */
  function Last(cs: seq<Cursor>): (r: Cursor)
    requires |cs| > 0
    ensures r in cs
  {
    cs[|cs| - 1]
  }

  /** The objects `xs` are read one after the other, the i-th from `cs[i]` to `cs[i + 1]`. */
  predicate Chain(data: seq<byte>, cs: seq<Cursor>, xs: seq<Value>) {
    |cs| == |xs| + 1 &&
    forall i | 0 <= i < |xs| :: Steps(data, cs[i], xs[i], cs[i + 1])
  }

  /** The pairs are read one after the other: the j-th key from `ks[j]`, its value from `ws[j]`. */
  predicate PairChain(data: seq<byte>, ks: seq<Cursor>, ws: seq<Cursor>, pairs: seq<(Value, Value)>) {
    |ks| == |pairs| + 1 && |ws| == |pairs| && KeysStep(data, ks, ws, pairs) && ValuesStep(data, ks, ws, pairs)
  }

  /** Each key is read from `ks[j]` to the cursor `ws[j]` of its value. */
  predicate KeysStep(data: seq<byte>, ks: seq<Cursor>, ws: seq<Cursor>, pairs: seq<(Value, Value)>)
    requires |ks| == |pairs| + 1 && |ws| == |pairs|
  {
    forall j | 0 <= j < |pairs| :: Steps(data, ks[j], pairs[j].0, ws[j])
  }

  /** Each value is read from `ws[j]` to the cursor `ks[j + 1]` of the next pair. */
  predicate ValuesStep(data: seq<byte>, ks: seq<Cursor>, ws: seq<Cursor>, pairs: seq<(Value, Value)>)
    requires |ks| == |pairs| + 1 && |ws| == |pairs|
  {
    forall j | 0 <= j < |pairs| :: Steps(data, ws[j], pairs[j].1, ks[j + 1])
  }

  /** A chain of no items starts where it ends. */
  lemma {:induction false} LastOfOne(cs: seq<Cursor>)
    requires |cs| == 1
    ensures Last(cs) == cs[0]
  {
  }

  /** Dropping the first cursor of a chain keeps its end. */
  lemma {:induction false} LastOfTail(cs: seq<Cursor>)
    requires |cs| >= 2
    ensures Last(cs[1..]) == Last(cs) && cs[1..][0] == cs[1]
  {
  }

  /** A chain is its first item, then the chain of the rest. */
  lemma {:induction false} ChainTail(data: seq<byte>, cs: seq<Cursor>, xs: seq<Value>)
    requires Chain(data, cs, xs) && |xs| > 0
    ensures Steps(data, cs[0], xs[0], cs[1]) && Chain(data, cs[1..], xs[1..])
  {
    forall i | 0 <= i < |xs| - 1
      ensures Steps(data, cs[1..][i], xs[1..][i], cs[1..][i + 1])
    {
      assert cs[1..][i] == cs[i + 1] && cs[1..][i + 1] == cs[i + 1 + 1] && xs[1..][i] == xs[i + 1];
    }
  }

  /** A pair chain is its first key and value, then the chain of the rest. */
  lemma {:induction false} PairChainTail(data: seq<byte>, ks: seq<Cursor>, ws: seq<Cursor>, pairs: seq<(Value, Value)>)
    requires PairChain(data, ks, ws, pairs) && |pairs| > 0
    ensures Steps(data, ks[0], pairs[0].0, ws[0]) && Steps(data, ws[0], pairs[0].1, ks[1])
    ensures PairChain(data, ks[1..], ws[1..], pairs[1..])
  {
    assert KeysStep(data, ks, ws, pairs) && ValuesStep(data, ks, ws, pairs);
    forall j | 0 <= j < |pairs| - 1
      ensures Steps(data, ks[1..][j], pairs[1..][j].0, ws[1..][j])
    {
      assert ks[1..][j] == ks[j + 1] && ws[1..][j] == ws[j + 1] && pairs[1..][j] == pairs[j + 1];
    }
    forall j | 0 <= j < |pairs| - 1
      ensures Steps(data, ws[1..][j], pairs[1..][j].1, ks[1..][j + 1])
    {
      assert ks[1..][j + 1] == ks[j + 1 + 1] && ws[1..][j] == ws[j + 1] && pairs[1..][j] == pairs[j + 1];
    }
  }

  /** A level with no items left is complete; a dict's is only if no key waits for a value. */
  lemma {:induction false} FillAtEnd(data: seq<byte>, pos: nat, lv: Level)
    requires pos <= |data| && !(lv.DictLevel? && lv.valueNext)
    ensures Fills(data, Cursor(pos, Items(0)), lv, lv, pos)
  {
  }

  /** One pass of the loop that adds its object, then the rest of the level. */
  lemma {:induction false} FillStep(data: seq<byte>, c: Cursor, lv: Level, x: Value, next: Cursor)
    requires Steps(data, c, x, next) && Add(lv, x).Ok?
    ensures Fill(data, c, lv) == Fill(data, next, Add(lv, x).value)
  {
  }

  /** The list level gets the chained objects. */
  lemma {:induction false} FillChain(data: seq<byte>, cs: seq<Cursor>, xs: seq<Value>, acc: seq<Value>, end: nat)
    requires Chain(data, cs, xs) && Last(cs) == Cursor(end, Items(0)) && end <= |data|
    ensures Fills(data, cs[0], ListLevel(acc), ListLevel(acc + xs), end)
    decreases |xs|
  {
    if xs == [] {
      assert acc + xs == acc;
      LastOfOne(cs);
      FillAtEnd(data, end, ListLevel(acc));
    } else {
      assert acc + xs == (acc + [xs[0]]) + xs[1..];
      LastOfTail(cs);
      ChainTail(data, cs, xs);
      FillChain(data, cs[1..], xs[1..], acc + [xs[0]], end);
      FillStep(data, cs[0], ListLevel(acc), xs[0], cs[1]);
    }
  }

  /** The dict level gets the chained pairs, each key being new. */
  lemma {:induction false} FillPairs(data: seq<byte>, ks: seq<Cursor>, ws: seq<Cursor>, pairs: seq<(Value, Value)>,
                                     acc: seq<(Value, Value)>, end: nat)
    requires PairChain(data, ks, ws, pairs) && Last(ks) == Cursor(end, Items(0)) && end <= |data|
    requires UniqueKeys(acc + pairs) && KeysHashable(pairs)
    ensures Fills(data, ks[0], DictLevel(acc, false, NoneValue), DictLevel(acc + pairs, false, NoneValue), end)
    decreases |pairs|
  {
    if pairs == [] {
      assert acc + pairs == acc;
      LastOfOne(ks);
      FillAtEnd(data, end, DictLevel(acc, false, NoneValue));
    } else {
      FreshFirst(acc, pairs);
      LastOfTail(ks);
      PairChainTail(data, ks, ws, pairs);
      assert Hashable(pairs[0].0) && KeysHashable(pairs[1..]) by {
        assert forall j | 0 <= j < |pairs[1..]| :: pairs[1..][j] == pairs[j + 1];
      }
      FillPairs(data, ks[1..], ws[1..], pairs[1..], acc + [pairs[0]], end);
      FillKeyValue(data, ks[0], ws[0], ks[1], acc, pairs[0].0, pairs[0].1);
    }
  }

  /** The first pair's key is equal to no earlier key, so storing the pair appends it. */
  lemma {:induction false} FreshFirst(acc: seq<(Value, Value)>, pairs: seq<(Value, Value)>)
    requires |pairs| > 0 && UniqueKeys(acc + pairs)
    ensures Store(acc, pairs[0].0, pairs[0].1) == acc + [pairs[0]]
    ensures acc + pairs == (acc + [pairs[0]]) + pairs[1..]
  {
    FreshKey(acc, pairs);
    StoreFreshKey(acc, pairs[0].0, pairs[0].1);
    assert pairs == [pairs[0]] + pairs[1..];
  }

  /** A key, then its value: the pair is stored. */
  lemma {:induction false} FillKeyValue(data: seq<byte>, ck: Cursor, cv: Cursor, next: Cursor, acc: seq<(Value, Value)>, k: Value, x: Value)
    requires Steps(data, ck, k, cv) && Steps(data, cv, x, next) && Hashable(k)
    ensures Fill(data, ck, DictLevel(acc, false, NoneValue)) == Fill(data, next, DictLevel(Store(acc, k, x), false, NoneValue))
  {
    FillStep(data, ck, DictLevel(acc, false, NoneValue), k, cv);
    FillStep(data, cv, DictLevel(acc, true, k), x, next);
  }

  // Where the encodings of a container's children lie.

  /** `b` begins with `a`, so `a` occurs wherever `b` does. */
  lemma {:induction false} AtPrefix(data: seq<byte>, pos: nat, a: seq<byte>, b: seq<byte>)
    requires a <= b && At(data, pos, b)
    ensures At(data, pos, a)
  {
    assert data[pos..pos + |a|] == data[pos..pos + |b|][..|a|];
  }

  /** Where the encoding of the i-th item of the list encoded at `pos` begins. */
  function ItemStart(pos: nat, v: Value, i: nat): nat
    requires (v.List? || v.Tuple?) && Encoding.InMemory(v) && Encoding.EncodeAll(v.items, v).Ok? && i <= |v.items|
  {
    Encoding.EncodeAllPrefix(v.items, i, v);
    pos + |Encoding.EncodeAll(v.items[..i], v).value|
  }

  /** Where the encoding of the j-th pair of the dict encoded at `pos` begins. */
  function PairStart(pos: nat, v: Value, j: nat): nat
    requires v.Dict? && Encoding.InMemory(v) && Encoding.EncodeEntries(v.entries, v).Ok? && j <= |v.entries|
  {
    Encoding.EncodeEntriesPrefix(v.entries, j, v);
    pos + |Encoding.EncodeEntries(v.entries[..j], v).value|
  }

  /** Where the encoding of the j-th value of the dict encoded at `pos` begins, after its key's. */
  function ValueStart(pos: nat, v: Value, j: nat): nat
    requires v.Dict? && Encoding.InMemory(v) && Encoding.EncodeEntries(v.entries, v).Ok? && j < |v.entries|
  {
    PairEncodes(v, j);
    PairStart(pos, v, j) + |Encoding.Encode(v.entries[j].0).value|
  }

  /** The i-th item of a list that encodes encodes too, and its encoding lies at ItemStart. */
  lemma {:induction false} ItemAt(data: seq<byte>, pos: nat, v: Value, i: nat)
    requires (v.List? || v.Tuple?) && Encoding.InMemory(v) && Encoding.EncodeAll(v.items, v).Ok? && i < |v.items|
    requires At(data, pos, Encoding.EncodeAll(v.items, v).value)
    ensures Encoding.InMemory(v.items[i]) && Encoding.Encode(v.items[i]).Ok?
    ensures ItemStart(pos, v, i + 1) == ItemStart(pos, v, i) + |Encoding.Encode(v.items[i]).value|
    ensures At(data, ItemStart(pos, v, i), Encoding.Encode(v.items[i]).value)
  {
    var vs := v.items;
    Encoding.EncodeAllPrefix(vs, i + 1, v);
    Encoding.EncodeAllPrefix(vs, i, v);
    Encoding.EncodeAllStep(vs, i, v);
    var front := Encoding.EncodeAll(vs[..i], v).value;
    var e := Encoding.Encode(vs[i]).value;
    AtPrefix(data, pos, front + e, Encoding.EncodeAll(vs, v).value);
    AtSplit(data, pos, front, e);
  }

  /** The key and the value of the j-th pair of a dict that encodes encode too. */
  lemma {:induction false} PairEncodes(v: Value, j: nat)
    requires v.Dict? && Encoding.InMemory(v) && Encoding.EncodeEntries(v.entries, v).Ok? && j < |v.entries|
    ensures Encoding.InMemory(v.entries[j].0) && Encoding.InMemory(v.entries[j].1)
    ensures Encoding.Encode(v.entries[j].0).Ok? && Encoding.Encode(v.entries[j].1).Ok?
    ensures Encoding.EncodeEntries(v.entries[..j], v).Ok? && Encoding.EncodeEntries(v.entries[..j + 1], v).Ok?
    ensures Encoding.EncodeEntries(v.entries[..j + 1], v).value ==
      Encoding.EncodeEntries(v.entries[..j], v).value + Encoding.Encode(v.entries[j].0).value +
      Encoding.Encode(v.entries[j].1).value
  {
    Encoding.EncodeEntriesPrefix(v.entries, j + 1, v);
    Encoding.EncodeEntriesPrefix(v.entries, j, v);
    Encoding.EncodeEntriesStep(v.entries, j, v);
  }

  /** The encodings of the j-th key and value lie at PairStart and ValueStart, and the next pair's after them. */
  lemma {:induction false} PairAt(data: seq<byte>, pos: nat, v: Value, j: nat)
    requires v.Dict? && Encoding.InMemory(v) && Encoding.EncodeEntries(v.entries, v).Ok? && j < |v.entries|
    requires At(data, pos, Encoding.EncodeEntries(v.entries, v).value)
    ensures Encoding.InMemory(v.entries[j].0) && Encoding.InMemory(v.entries[j].1)
    ensures Encoding.Encode(v.entries[j].0).Ok? && Encoding.Encode(v.entries[j].1).Ok?
    ensures At(data, PairStart(pos, v, j), Encoding.Encode(v.entries[j].0).value)
    ensures At(data, ValueStart(pos, v, j), Encoding.Encode(v.entries[j].1).value)
    ensures PairStart(pos, v, j + 1) == ValueStart(pos, v, j) + |Encoding.Encode(v.entries[j].1).value|
  {
    var es := v.entries;
    PairEncodes(v, j);
    Encoding.EncodeEntriesPrefix(es, j + 1, v);
    var front := Encoding.EncodeEntries(es[..j], v).value;
    var ek := Encoding.Encode(es[j].0).value;
    var ev := Encoding.Encode(es[j].1).value;
    AtPrefix(data, pos, front + ek + ev, Encoding.EncodeEntries(es, v).value);
    AtSplitThree(data, pos, front, ek, ev, PairStart(pos, v, j), ValueStart(pos, v, j));
  }

  /** `a + b + c` at `pos` puts `b` at `p`, after `a`, and `c` at `q`, after `b`. */
  lemma {:induction false} AtSplitThree(data: seq<byte>, pos: nat, a: seq<byte>, b: seq<byte>, c: seq<byte>, p: nat, q: nat)
    requires At(data, pos, a + b + c) && p == pos + |a| && q == p + |b|
    ensures At(data, p, b) && At(data, q, c)
  {
    AtSplit(data, pos, a + b, c);
    AtSplit(data, pos, a, b);
  }

  /** An encoding begins with a well-formed head. */
  lemma {:induction false} EncodedHead(data: seq<byte>, pos: nat, v: Value)
    requires Encoding.InMemory(v) && Encoding.Encode(v).Ok? && At(data, pos, Encoding.Encode(v).value)
    ensures ParseHead(data, pos).Ok?
  {
    var e := Encoding.Encode(v).value;
    assert data[pos] == e[0] by {
      assert data[pos..pos + |e|][0] == data[pos];
    }
    match v
    case NoneValue =>
    case Int(i) =>
      if i >= 0 {
        HeadParses(data, pos, 0, i);
      } else {
        HeadParses(data, pos, 1, -1 - i);
      }
    case Float(bits) =>
      Encoding.Pow256Values();
      AtSplit(data, pos, [0xfb], BigEndian(bits, 8));
    case Str(s) =>
      AtSplit(data, pos, Encoding.Head(3, |s|), s);
      HeadParses(data, pos, 3, |s|);
    case Bytes(b) =>
      AtSplit(data, pos, Encoding.Head(2, |b|), b);
      HeadParses(data, pos, 2, |b|);
    case List(vs) =>
      Encoding.EncodeArray(v);
      AtSplit(data, pos, Encoding.Head(4, |vs|), Encoding.EncodeAll(vs, v).value);
      HeadParses(data, pos, 4, |vs|);
    case Tuple(vs) =>
      Encoding.EncodeArray(v);
      AtSplit(data, pos, Encoding.Head(4, |vs|), Encoding.EncodeAll(vs, v).value);
      HeadParses(data, pos, 4, |vs|);
    case Dict(es) =>
      Encoding.EncodeMap(v);
      AtSplit(data, pos, Encoding.Head(5, |es|), Encoding.EncodeEntries(es, v).value);
      HeadParses(data, pos, 5, |es|);
  }

  /** The list's items decode one after the other from the starts of their encodings. */
  lemma {:induction false} ItemsChain(data: seq<byte>, pos: nat, v: Value, end: nat) returns (cs: seq<Cursor>)
    requires (v.List? || v.Tuple?) && Encoding.InMemory(v) && WellKeyed(v)
    requires Encoding.EncodeAll(v.items, v).Ok? && At(data, pos, Encoding.EncodeAll(v.items, v).value)
    requires end == pos + |Encoding.EncodeAll(v.items, v).value|
    ensures Chain(data, cs, NormalizeAll(v.items))
    ensures cs[0] == Cursor(pos, Items(|v.items|)) && Last(cs) == Cursor(end, Items(0)) && end <= |data|
    decreases v, 0, 2
  {
    cs := seq(|v.items| + 1, i requires 0 <= i <= |v.items| => Cursor(ItemStart(pos, v, i), Items(|v.items| - i)));
    assert v.items[..0] == [] && v.items[..|v.items|] == v.items;
    assert cs[0] == Cursor(pos, Items(|v.items|));
    assert Last(cs) == cs[|v.items|] == Cursor(end, Items(0));
    assert end <= |data|;
    ItemsLinked(data, pos, v, cs);
  }

  /** Each item decodes from its start to the next one's. */
  lemma {:induction false} ItemsLinked(data: seq<byte>, pos: nat, v: Value, cs: seq<Cursor>)
    requires (v.List? || v.Tuple?) && Encoding.InMemory(v) && WellKeyed(v)
    requires Encoding.EncodeAll(v.items, v).Ok? && At(data, pos, Encoding.EncodeAll(v.items, v).value)
    requires |cs| == |v.items| + 1
    requires forall i | 0 <= i <= |v.items| :: cs[i] == Cursor(ItemStart(pos, v, i), Items(|v.items| - i))
    ensures Chain(data, cs, NormalizeAll(v.items))
    decreases v, 0, 1
  {
    forall i | 0 <= i < |v.items|
      ensures Steps(data, cs[i], NormalizeAll(v.items)[i], cs[i + 1])
    {
      ItemSteps(data, pos, v, i, cs[i], cs[i + 1]);
      NormalizeAllIndex(v.items, i);
    }
  }

  /** The i-th item of the list decodes from the start of its encoding to the start of the next one's. */
  lemma {:induction false} ItemSteps(data: seq<byte>, pos: nat, v: Value, i: nat, c: Cursor, d: Cursor)
    requires (v.List? || v.Tuple?) && Encoding.InMemory(v) && WellKeyed(v) && i < |v.items|
    requires Encoding.EncodeAll(v.items, v).Ok? && At(data, pos, Encoding.EncodeAll(v.items, v).value)
    requires c == Cursor(ItemStart(pos, v, i), Items(|v.items| - i))
    requires d == Cursor(ItemStart(pos, v, i + 1), Items(|v.items| - (i + 1)))
    ensures Steps(data, c, Normalize(v.items[i]), d)
    decreases v, 0, 0
  {
    ItemAt(data, pos, v, i);
    ItemFollows(data, pos, v, i, c.remaining.n, d);
    assert v.items[i] in v.items;
    StepEncoded(data, c.pos, c.remaining.n, v.items[i], d.pos, d);
  }

  /** After the i-th item of the list the level goes on at the start of the next one's encoding. */
  lemma {:induction false} ItemFollows(data: seq<byte>, pos: nat, v: Value, i: nat, n: nat, d: Cursor)
    requires (v.List? || v.Tuple?) && Encoding.InMemory(v) && i < |v.items|
    requires Encoding.EncodeAll(v.items, v).Ok? && At(data, pos, Encoding.EncodeAll(v.items, v).value)
    requires n == |v.items| - i
    requires d == Cursor(ItemStart(pos, v, i + 1), Items(|v.items| - (i + 1)))
    ensures d.pos <= |data|
    ensures Next(data, d.pos, Items(n), false) == Ok(d)
  {
    var vs := v.items;
    if i + 1 < |vs| {
      ItemAt(data, pos, v, i + 1);
      EncodedHead(data, d.pos, vs[i + 1]);
    } else {
      assert vs[..i + 1] == vs;
    }
    NextCounted(data, d.pos, n, d.remaining.n);
  }

  /** The dict's keys and values decode one after the other from the starts of their encodings. */
  lemma {:induction false} EntriesChain(data: seq<byte>, pos: nat, v: Value, end: nat) returns (ks: seq<Cursor>, ws: seq<Cursor>)
    requires v.Dict? && Encoding.InMemory(v) && WellKeyed(v)
    requires Encoding.EncodeEntries(v.entries, v).Ok? && At(data, pos, Encoding.EncodeEntries(v.entries, v).value)
    requires end == pos + |Encoding.EncodeEntries(v.entries, v).value|
    ensures PairChain(data, ks, ws, NormalizeEntries(v.entries, v))
    ensures ks[0] == Cursor(pos, Items(2 * |v.entries|)) && Last(ks) == Cursor(end, Items(0)) && end <= |data|
    decreases v, 0, 3
  {
    ks, ws := EntryCursors(pos, v);
    assert end <= |data|;
    KeysLinked(data, pos, v, ks, ws);
    ValuesLinked(data, pos, v, ks, ws);
  }

  /** The cursors at the starts of a dict's keys, `ks[j]`, and of its values, `ws[j]`. */
  predicate PairCursors(pos: nat, v: Value, ks: seq<Cursor>, ws: seq<Cursor>)
    requires v.Dict? && Encoding.InMemory(v) && Encoding.EncodeEntries(v.entries, v).Ok?
  {
    |ks| == |v.entries| + 1 && |ws| == |v.entries| &&
    (forall j | 0 <= j <= |v.entries| :: ks[j] == Cursor(PairStart(pos, v, j), Items(2 * |v.entries| - 2 * j))) &&
    (forall j | 0 <= j < |v.entries| :: ws[j] == Cursor(ValueStart(pos, v, j), Items(2 * |v.entries| - 2 * j - 1)))
  }

  /** The key and value cursors exist; the first is at `pos` with every item left, the last at the end with none. */
  lemma {:induction false} EntryCursors(pos: nat, v: Value) returns (ks: seq<Cursor>, ws: seq<Cursor>)
    requires v.Dict? && Encoding.InMemory(v) && Encoding.EncodeEntries(v.entries, v).Ok?
    ensures PairCursors(pos, v, ks, ws)
    ensures ks[0] == Cursor(pos, Items(2 * |v.entries|))
    ensures Last(ks) == Cursor(pos + |Encoding.EncodeEntries(v.entries, v).value|, Items(0))
  {
    ks := KeyCursors(pos, v);
    ws := ValueCursors(pos, v);
    assert v.entries[..0] == [] && v.entries[..|v.entries|] == v.entries;
    assert Last(ks) == ks[|v.entries|];
  }

  function KeyCursors(pos: nat, v: Value): (ks: seq<Cursor>)
    requires v.Dict? && Encoding.InMemory(v) && Encoding.EncodeEntries(v.entries, v).Ok?
    ensures |ks| == |v.entries| + 1
    ensures forall j | 0 <= j <= |v.entries| :: ks[j] == Cursor(PairStart(pos, v, j), Items(2 * |v.entries| - 2 * j))
  {
    seq(|v.entries| + 1, j requires 0 <= j <= |v.entries| => Cursor(PairStart(pos, v, j), Items(2 * |v.entries| - 2 * j)))
  }

  function ValueCursors(pos: nat, v: Value): (ws: seq<Cursor>)
    requires v.Dict? && Encoding.InMemory(v) && Encoding.EncodeEntries(v.entries, v).Ok?
    ensures |ws| == |v.entries|
    ensures forall j | 0 <= j < |v.entries| :: ws[j] == Cursor(ValueStart(pos, v, j), Items(2 * |v.entries| - 2 * j - 1))
  {
    seq(|v.entries|, j requires 0 <= j < |v.entries| => Cursor(ValueStart(pos, v, j), Items(2 * |v.entries| - 2 * j - 1)))
  }

  /** Each key decodes from its start to its value's. */
  lemma {:induction false} KeysLinked(data: seq<byte>, pos: nat, v: Value, ks: seq<Cursor>, ws: seq<Cursor>)
    requires v.Dict? && Encoding.InMemory(v) && WellKeyed(v)
    requires Encoding.EncodeEntries(v.entries, v).Ok? && At(data, pos, Encoding.EncodeEntries(v.entries, v).value)
    requires PairCursors(pos, v, ks, ws)
    ensures KeysStep(data, ks, ws, NormalizeEntries(v.entries, v))
    decreases v, 0, 1
  {
    forall j | 0 <= j < |v.entries|
      ensures Steps(data, ks[j], NormalizeEntries(v.entries, v)[j].0, ws[j])
    {
      KeySteps(data, pos, v, j, ks[j], ws[j]);
      NormalizeEntriesIndex(v.entries, v, j);
    }
  }

  /** Each value decodes from its start to the next pair's. */
  lemma {:induction false} ValuesLinked(data: seq<byte>, pos: nat, v: Value, ks: seq<Cursor>, ws: seq<Cursor>)
    requires v.Dict? && Encoding.InMemory(v) && WellKeyed(v)
    requires Encoding.EncodeEntries(v.entries, v).Ok? && At(data, pos, Encoding.EncodeEntries(v.entries, v).value)
    requires PairCursors(pos, v, ks, ws)
    ensures ValuesStep(data, ks, ws, NormalizeEntries(v.entries, v))
    decreases v, 0, 1
  {
    forall j | 0 <= j < |v.entries|
      ensures Steps(data, ws[j], NormalizeEntries(v.entries, v)[j].1, ks[j + 1])
    {
      ValueSteps(data, pos, v, j, ws[j], ks[j + 1]);
      NormalizeEntriesIndex(v.entries, v, j);
    }
  }

  /** The j-th key decodes from the start of its encoding to the start of its value's. */
  lemma {:induction false} KeySteps(data: seq<byte>, pos: nat, v: Value, j: nat, c: Cursor, d: Cursor)
    requires v.Dict? && Encoding.InMemory(v) && WellKeyed(v) && j < |v.entries|
    requires Encoding.EncodeEntries(v.entries, v).Ok? && At(data, pos, Encoding.EncodeEntries(v.entries, v).value)
    requires c == Cursor(PairStart(pos, v, j), Items(2 * |v.entries| - 2 * j))
    requires d == Cursor(ValueStart(pos, v, j), Items(2 * |v.entries| - 2 * j - 1))
    ensures Steps(data, c, Normalize(v.entries[j].0), d)
    decreases v, 0, 0
  {
    PairAt(data, pos, v, j);
    EncodedHead(data, d.pos, v.entries[j].1);
    NextCounted(data, d.pos, c.remaining.n, d.remaining.n);
    assert v.entries[j] in v.entries && WellKeyed(v.entries[j].0);
    StepEncoded(data, c.pos, c.remaining.n, v.entries[j].0, d.pos, d);
  }

  /** The j-th value decodes from the start of its encoding to the start of the next pair's. */
  lemma {:induction false} ValueSteps(data: seq<byte>, pos: nat, v: Value, j: nat, c: Cursor, d: Cursor)
    requires v.Dict? && Encoding.InMemory(v) && WellKeyed(v) && j < |v.entries|
    requires Encoding.EncodeEntries(v.entries, v).Ok? && At(data, pos, Encoding.EncodeEntries(v.entries, v).value)
    requires c == Cursor(ValueStart(pos, v, j), Items(2 * |v.entries| - 2 * j - 1))
    requires d == Cursor(PairStart(pos, v, j + 1), Items(2 * |v.entries| - 2 * (j + 1)))
    ensures Steps(data, c, Normalize(v.entries[j].1), d)
    decreases v, 0, 0
  {
    PairAt(data, pos, v, j);
    PairFollows(data, pos, v, j, c.remaining.n, d);
    assert v.entries[j] in v.entries && WellKeyed(v.entries[j].1);
    StepEncoded(data, c.pos, c.remaining.n, v.entries[j].1, d.pos, d);
  }

  /** After the j-th value the level goes on at the start of the next pair's encoding. */
  lemma {:induction false} PairFollows(data: seq<byte>, pos: nat, v: Value, j: nat, n: nat, d: Cursor)
    requires v.Dict? && Encoding.InMemory(v) && j < |v.entries|
    requires Encoding.EncodeEntries(v.entries, v).Ok? && At(data, pos, Encoding.EncodeEntries(v.entries, v).value)
    requires n == 2 * |v.entries| - 2 * j - 1
    requires d == Cursor(PairStart(pos, v, j + 1), Items(2 * |v.entries| - 2 * (j + 1)))
    ensures d.pos <= |data|
    ensures Next(data, d.pos, Items(n), false) == Ok(d)
  {
    var es := v.entries;
    if j + 1 < |es| {
      PairAt(data, pos, v, j + 1);
      EncodedHead(data, d.pos, es[j + 1].0);
    } else {
      assert es[..j + 1] == es;
    }
    NextCounted(data, d.pos, n, d.remaining.n);
  }

  /** Stepping past an item at a counted level of `n` items leaves `k` = n - 1: a cursor at the following item, or at the end. */
  lemma {:induction false} NextCounted(data: seq<byte>, pos: nat, n: nat, k: nat)
    requires n == k + 1 && Valid(data, Cursor(pos, Items(k)))
    ensures Next(data, pos, Items(n), false) == Ok(Cursor(pos, Items(k)))
  {
  }

  /**
   * `loads(dumps(obj))` gives back the object for every encodable object
   * whose dict keys stay distinct, with its tuples as lists; bytes after
   * the encoding are never read.
   */
  lemma {:induction false} DecodeEncode(v: Value, rest: seq<byte>)
    requires Encoding.InMemory(v) && Encoding.Encodable(v) && WellKeyed(v)
    ensures Encoding.Encode(v).Ok?
    ensures Decode(Encoding.Encode(v).value + rest) == Ok(Normalize(v))
  {
    Encoding.EncodeOkIffEncodable(v);
    var e := Encoding.Encode(v).value;
    var data := e + rest;
    AtSplit(data, 0, e, rest);
    assert Next(data, |e|, Items(1), false) == Ok(Cursor(|e|, Items(0)));
    StepEncoded(data, 0, 1, v, |e|, Cursor(|e|, Items(0)));
    var it := Cursor(0, Items(1));
    assert Init(data) == Ok(it);
    StepItem(data, it);
  }

  /** A pass of the decoding loop that succeeds read its item successfully, with the same object. */
  lemma {:induction false} StepItem(data: seq<byte>, c: Cursor)
    requires Valid(data, c) && !AtEnd(c) && Step(data, c).Ok?
    ensures Item(data, c).Ok? && Item(data, c).value.0 == Step(data, c).value.0
  {
  }

  /** "\u00e9" and "\u00e9a" in UTF-8. */
  const EAcute: seq<byte> := [0xc3, 0xa9]
  const EAcuteA: seq<byte> := EAcute + [0x61]

  /**
   * The encoder's `str` branch as written loses data: "\u00e9a" is three
   * bytes but two characters, so the item written is a two-byte text string
   * holding only "\u00e9", and decoding it gives back "\u00e9" alone. The
   * model of the encoder uses the byte length, with which the whole string
   * comes back (DecodeEncode).
   */
  lemma StrAsWrittenTruncates()
    ensures Encoding.CodePoints(EAcuteA) == 2
    ensures Decode(Encoding.EncodeStrAsWritten(EAcuteA)) == Ok(Str(EAcute))
    ensures Decode(Encoding.Encode(Str(EAcuteA)).value) == Ok(Str(EAcuteA))
  {
    StrAsWrittenBytes();
    DecodeEncode(Str(EAcute), []);
    DecodeEncode(Str(EAcuteA), []);
    assert Encoding.Encode(Str(EAcuteA)).value + [] == Encoding.Encode(Str(EAcuteA)).value;
  }

  /** The item written for "\u00e9a" as written is the encoding of "\u00e9". */
  lemma StrAsWrittenBytes()
    ensures Encoding.CodePoints(EAcuteA) == 2
    ensures Encoding.EncodeStrAsWritten(EAcuteA) == Encoding.Encode(Str(EAcute)).value + []
  {
    assert Encoding.CodePoints(EAcuteA[2..]) == 1;
    assert Encoding.CodePoints(EAcuteA[1..]) == 1;
    assert EAcuteA[..2] == EAcute;
    Encoding.EncodeText(EAcute);
  }
}
