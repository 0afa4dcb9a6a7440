/**
 * The MicroPython objects the codec produces and consumes, and the
 * exceptions it raises. A `dict` is a sequence of key/value pairs in
 * insertion order, whose keys are compared as Python's `==` compares them.
 */
module PyObjects {
  import opened Binary
  import opened Wrappers
  import Floats

  datatype Value =
    | NoneValue
    | Bool(b: bool)
    | Int(i: int)
    /** A `float` of a build with double-precision floats, as its IEEE 754 binary64 bit pattern. */
    | Float(bits: nat)
    | Bytes(bytes: seq<byte>)
    /** A `str`, as its UTF-8 bytes. */
    | Str(utf8: seq<byte>)
    | List(items: seq<Value>)
    | Tuple(items: seq<Value>)
    | Dict(entries: seq<(Value, Value)>)
    /** Any object of another type (a set, a function, a user class instance, ...). */
    | Unsupported

  /** The exceptions `mp_raise_ValueError` and friends raise. */
  datatype PyError =
    | ValueError(msg: Message)
    | NotImplementedError(msg: Message)
    | OverflowError(msg: Message)
    /** Raised by the runtime's `mp_obj_dict_store` for a key that cannot be hashed. */
    | TypeError(msg: Message)

  /** The messages of the exceptions the module raises; MessageText gives their wording. */
  datatype Message =
    | InitFailed
    | ByteStringFailed
    | TextStringFailed
    | UnknownTag
    | UnknownSimple
    | UndefinedFound
    | HalfFloatUnsupported
    | InvalidFound
    | ParseError
    | DanglingKey
    | CannotEncode
    | IntOverflow
    | EncodingFailed
    | ArrayFailed
    | Unhashable

  function MessageText(m: Message): string {
    match m
    case InitFailed => "tinycbor init failed"
    case ByteStringFailed => "parse bytestring failed"
    case TextStringFailed => "parse string failed"
    case UnknownTag => "unknown tag present"
    case UnknownSimple => "unknown simple value present"
    case UndefinedFound => "undefined type encountered"
    case HalfFloatUnsupported => "half float type not supported"
    case InvalidFound => "invalid type encountered"
    case ParseError => "parse error"
    case DanglingKey => "key with no value in map"
    case CannotEncode => "Found object which cannot be encoded"
    case IntOverflow => "overflow converting long int to machine word"
    case EncodingFailed => "CBOR encoding failed"
    case ArrayFailed => "Failed to encode array"
    case Unhashable => "unsupported type for __hash__"
  }

  /** The keys of a dict's entries, in order. */
  function Keys(es: seq<(Value, Value)>): (ks: seq<Value>)
    ensures |ks| == |es| && forall i :: 0 <= i < |es| ==> ks[i] == es[i].0
  {
    if es == [] then [] else [es[0].0] + Keys(es[1..])
  }

  // Dict keys. A dict hashes its keys and compares them with Python's `==`:
  // lists and dicts cannot be keys, and numbers that are equal (1, 1.0 and
  // True; 0.0 and -0.0) are one key.

  /** Objects that can be dict keys: a list, a dict or another object inside a tuple cannot. */
  predicate Hashable(v: Value)
    decreases v
  {
    match v
    case Tuple(vs) => forall x | x in vs :: Hashable(x)
    case List(_) => false
    case Dict(_) => false
    case Unsupported => false
    case _ => true
  }

  /** Objects holding a NaN, which is equal to nothing, not even itself. */
  predicate HasNaN(v: Value)
    decreases v
  {
    match v
    case Float(bits) => Floats.DoubleIsNaN(bits)
    case Tuple(vs) => exists x | x in vs :: HasNaN(x)
    case _ => false
  }

  /**
   * The integer a binary64 pattern stands for, when it is a whole number:
   * the significand 2^52 + fraction scaled by 2^(exponent - 1075), with
   * the sign applied. Zeros of either sign are 0; infinities, NaNs and
   * numbers with a fractional part have none.
   */
  function FloatInteger(bits: nat): (r: Option<int>) {
    match Magnitude(Floats.DoubleExponent(bits), Floats.DoubleFraction(bits))
    case None => None
    case Some(n) => Some(if Floats.DoubleSign(bits) == 0 then n else -n)
  }

  /** The whole number a binary64 exponent and fraction stand for, if they stand for one. */
  function Magnitude(exponent: nat, fraction: nat): Option<int> {
    if exponent == 0x7ff then None
    else if exponent == 0 then (if fraction == 0 then Some(0) else None)
    else if exponent >= 1075 then Some((0x10_0000_0000_0000 + fraction) * Floats.Pow2(exponent - 1075))
    else
      var scale := Floats.Pow2(1075 - exponent);
      if (0x10_0000_0000_0000 + fraction) % scale == 0 then Some((0x10_0000_0000_0000 + fraction) / scale) else None
  }

  /** What `==` compares a key by: numbers by their value, other objects by their contents. */
  datatype Key =
    | NoneKey
    | NumberKey(n: int)
    | FloatKey(bits: nat)
    | StrKey(s: seq<byte>)
    | BytesKey(b: seq<byte>)
    | TupleKey(items: seq<Key>)

  function KeyOf(v: Value): Key
    requires Hashable(v)
    decreases v
  {
    match v
    case NoneValue => NoneKey
    case Bool(b) => NumberKey(if b then 1 else 0)
    case Int(i) => NumberKey(i)
    case Float(bits) => if FloatInteger(bits).Some? then NumberKey(FloatInteger(bits).value) else FloatKey(bits)
    case Str(s) => StrKey(s)
    case Bytes(b) => BytesKey(b)
    case Tuple(vs) => TupleKey(seq(|vs|, i requires 0 <= i < |vs| => KeyOf(vs[i])))
  }

  /** `a == b` for two objects that can be keys. */
  predicate KeyEq(a: Value, b: Value) {
    Hashable(a) && Hashable(b) && !HasNaN(a) && !HasNaN(b) && KeyOf(a) == KeyOf(b)
  }

  /**
   * Keys as Python compares them: True is the key 1, 0.0 and -0.0 are the
   * key 0, a NaN is equal to no key, not even one with its own bits, and a
   * str is never the bytes of the same contents.
   */
  lemma NumberKeys(s: seq<byte>)
    ensures KeyEq(Bool(true), Int(1)) && KeyEq(Float(0), Int(0))
    ensures KeyEq(Float(0), Float(NegativeZero))
    ensures !KeyEq(Float(QuietNaN), Float(QuietNaN))
    ensures !KeyEq(Str(s), Bytes(s))
  {
    ZeroKeys();
    QuietNaNFields();
  }

  const NegativeZero: nat := 0x8000_0000_0000_0000
  const QuietNaN: nat := 0x7ff8_0000_0000_0000

  /** Both zeros are the key 0. */
  lemma ZeroKeys()
    ensures KeyEq(Float(0), Int(0)) && KeyEq(Float(NegativeZero), Int(0))
  {
    NegativeZeroFields();
    assert KeyOf(Float(NegativeZero)) == NumberKey(0);
    assert Floats.DoubleExponent(0) == 0 && Floats.DoubleFraction(0) == 0;
    assert KeyOf(Float(0)) == NumberKey(0);
  }

  lemma NegativeZeroFields()
    ensures FloatInteger(NegativeZero) == Some(0) && !Floats.DoubleIsNaN(NegativeZero)
  {
    assert Floats.DoubleExponent(NegativeZero) == 0 && Floats.DoubleFraction(NegativeZero) == 0;
  }

  lemma QuietNaNFields()
    ensures Floats.DoubleIsNaN(QuietNaN)
  {
    assert Floats.DoubleExponent(QuietNaN) == 0x7ff;
  }

  /** The dict holds a key equal to `k`. */
  predicate HasKey(es: seq<(Value, Value)>, k: Value) {
    exists i | 0 <= i < |es| :: KeyEq(es[i].0, k)
  }

  /** No two of the keys are equal. */
  predicate DistinctKeys(ks: seq<Value>) {
    forall i, j | 0 <= i < j < |ks| :: !KeyEq(ks[i], ks[j])
  }

  /** A Python dict never holds two equal keys. */
  predicate UniqueKeys(es: seq<(Value, Value)>) {
    DistinctKeys(Keys(es))
  }

  /** Every key of the dict can be hashed. */
  predicate KeysHashable(es: seq<(Value, Value)>) {
    forall i | 0 <= i < |es| :: Hashable(es[i].0)
  }

  /** `d[k]`: the value stored under the first key equal to `k`, if any. */
  function Lookup(es: seq<(Value, Value)>, k: Value): (r: Option<Value>)
    ensures r.None? <==> !HasKey(es, k)
  {
    if es == [] then None
    else if KeyEq(es[0].0, k) then Some(es[0].1)
    else
      var r := Lookup(es[1..], k);
      assert HasKey(es, k) <==> HasKey(es[1..], k) by {
        if HasKey(es[1..], k) {
          var i :| 0 <= i < |es[1..]| && KeyEq(es[1..][i].0, k);
          assert KeyEq(es[i + 1].0, k);
        }
      }
      r
  }

  /**
   * `mp_obj_dict_store(d, k, v)` for a key that can be hashed: an entry
   * with an equal key keeps its key object and its place and gets the new
   * value; a new key is added at the end.
   */
  function Store(es: seq<(Value, Value)>, k: Value, v: Value): seq<(Value, Value)> {
    if es == [] then [(k, v)]
    else if KeyEq(es[0].0, k) then [(es[0].0, v)] + es[1..]
    else [es[0]] + Store(es[1..], k, v)
  }

  /** Equal keys are equal to the same keys. */
  lemma KeyEqTransitive(a: Value, b: Value, c: Value)
    requires KeyEq(a, b)
    ensures KeyEq(a, c) <==> KeyEq(b, c)
  {
  }

  /** After a store, a key equal to `k` finds the new value and every other key finds what it found before. */
  lemma {:induction false} StoreLookup(es: seq<(Value, Value)>, k: Value, v: Value, k': Value)
    requires Hashable(k) && !HasNaN(k)
    ensures Lookup(Store(es, k, v), k') == if KeyEq(k', k) then Some(v) else Lookup(es, k')
  {
    if es == [] {
      LookupCons((k, v), [], k');
    } else if KeyEq(es[0].0, k) {
      StoreLookupFirst(es, k, v, k');
    } else {
      LookupCons(es[0], Store(es[1..], k, v), k');
      StoreLookup(es[1..], k, v, k');
      LookupCons(es[0], es[1..], k');
      assert es == [es[0]] + es[1..];
      if KeyEq(k', k) {
        KeyEqTransitive(k', k, es[0].0);
      }
    }
  }

  /** A store that replaces the value of the first entry. */
  lemma StoreLookupFirst(es: seq<(Value, Value)>, k: Value, v: Value, k': Value)
    requires es != [] && KeyEq(es[0].0, k)
    ensures Lookup(Store(es, k, v), k') == if KeyEq(k', k) then Some(v) else Lookup(es, k')
  {
    assert Store(es, k, v) == [(es[0].0, v)] + es[1..];
    LookupCons((es[0].0, v), es[1..], k');
    KeyEqTransitive(es[0].0, k, k');
    LookupCons(es[0], es[1..], k');
    assert es == [es[0]] + es[1..];
  }

  /** Looking up in a dict whose first entry is `e`. */
  lemma LookupCons(e: (Value, Value), es: seq<(Value, Value)>, k: Value)
    ensures Lookup([e] + es, k) == if KeyEq(e.0, k) then Some(e.1) else Lookup(es, k)
  {
    assert ([e] + es)[1..] == es;
  }

  /** A store keeps the keys in order, and appends the key only when the dict holds no equal key. */
  lemma {:induction false} StoreKeys(es: seq<(Value, Value)>, k: Value, v: Value)
    ensures Keys(Store(es, k, v)) == if HasKey(es, k) then Keys(es) else Keys(es) + [k]
  {
    if es != [] {
      assert Keys(es) == [es[0].0] + Keys(es[1..]);
      if !KeyEq(es[0].0, k) {
        StoreKeys(es[1..], k, v);
        HasKeyTail(es, k);
        assert Keys([es[0]] + Store(es[1..], k, v)) == [es[0].0] + Keys(Store(es[1..], k, v));
      } else {
        assert Keys([(es[0].0, v)] + es[1..]) == [es[0].0] + Keys(es[1..]);
      }
    }
  }

  /** Past a first key not equal to `k`, the dict holds `k` exactly when its tail does. */
  lemma HasKeyTail(es: seq<(Value, Value)>, k: Value)
    requires es != [] && !KeyEq(es[0].0, k)
    ensures HasKey(es, k) <==> HasKey(es[1..], k)
  {
    if HasKey(es, k) {
      var i :| 0 <= i < |es| && KeyEq(es[i].0, k);
      assert es[1..][i - 1] == es[i];
    }
    if HasKey(es[1..], k) {
      var i :| 0 <= i < |es[1..]| && KeyEq(es[1..][i].0, k);
      assert es[i + 1] == es[1..][i];
    }
  }

  /** A store keeps the keys of a dict unique. */
  lemma StoreUnique(es: seq<(Value, Value)>, k: Value, v: Value)
    requires UniqueKeys(es)
    ensures UniqueKeys(Store(es, k, v))
  {
    StoreKeys(es, k, v);
    if !HasKey(es, k) {
      var ks := Keys(es);
      forall i | 0 <= i < |ks|
        ensures !KeyEq(ks[i], k)
      {
        assert ks[i] == es[i].0;
      }
      assert DistinctKeys(ks + [k]);
    }
  }

  /** Storing a key the dict holds no equal of appends the pair. */
  lemma {:induction false} StoreFreshKey(es: seq<(Value, Value)>, k: Value, v: Value)
    requires !HasKey(es, k)
    ensures Store(es, k, v) == es + [(k, v)]
  {
    if es != [] {
      assert !KeyEq(es[0].0, k);
      HasKeyTail(es, k);
      StoreFreshKey(es[1..], k, v);
      assert [es[0]] + (es[1..] + [(k, v)]) == es + [(k, v)];
    }
  }

  /** The object `loads` builds for an encoded one: tuples come back as lists. */
  function Normalize(v: Value): (r: Value)
    ensures v.Tuple? || v.List? <==> r.List?
    ensures !v.Tuple? ==> r.Tuple? == false
  {
    match v
    case List(items) => List(NormalizeAll(items))
    case Tuple(items) => List(NormalizeAll(items))
    case Dict(es) => Dict(NormalizeEntries(es, v))
    case _ => v
  }

  function NormalizeAll(vs: seq<Value>): (r: seq<Value>)
    ensures |r| == |vs|
    decreases vs
  {
    if vs == [] then [] else [Normalize(vs[0])] + NormalizeAll(vs[1..])
  }

  function NormalizeEntries(es: seq<(Value, Value)>, ghost parent: Value): (r: seq<(Value, Value)>)
    requires parent.Dict? && forall e :: e in es ==> e in parent.entries
    ensures |r| == |es|
    decreases parent, 0, |es|
  {
    if es == [] then []
    else
      assert es[0] in parent.entries;
      [(Normalize(es[0].0), Normalize(es[0].1))] + NormalizeEntries(es[1..], parent)
  }

  /** Each object is normalized in its place. */
  lemma {:induction false} NormalizeAllIndex(vs: seq<Value>, i: nat)
    requires i < |vs|
    ensures NormalizeAll(vs)[i] == Normalize(vs[i])
    decreases i
  {
    if i > 0 {
      NormalizeAllIndex(vs[1..], i - 1);
    }
  }

  /** Each pair is normalized in its place, key and value. */
  lemma {:induction false} NormalizeEntriesIndex(es: seq<(Value, Value)>, parent: Value, j: nat)
    requires parent.Dict? && forall e :: e in es ==> e in parent.entries
    requires j < |es|
    ensures NormalizeEntries(es, parent)[j] == (Normalize(es[j].0), Normalize(es[j].1))
    decreases j
  {
    if j > 0 {
      NormalizeEntriesIndex(es[1..], parent, j - 1);
    }
  }

  /** Objects with no tuple inside: lists, dicts and scalars only. */
  predicate TupleFree(v: Value)
    decreases v, 1
  {
    match v
    case List(vs) => forall x | x in vs :: TupleFree(x)
    case Tuple(_) => false
    case Dict(es) => EntriesTupleFree(es, v)
    case _ => true
  }

  predicate EntriesTupleFree(es: seq<(Value, Value)>, ghost parent: Value)
    requires parent.Dict? && forall e :: e in es ==> e in parent.entries
    decreases parent, 0, |es|
  {
    forall i | 0 <= i < |es| :: assert es[i] in parent.entries; TupleFree(es[i].0) && TupleFree(es[i].1)
  }

  /** Decoding gives back exactly the objects that hold no tuple. */
  lemma {:induction false} NormalizeTupleFree(v: Value)
    requires TupleFree(v)
    ensures Normalize(v) == v
    decreases v, 1
  {
    match v
    case List(vs) => NormalizeAllTupleFree(vs, v);
    case Dict(es) => NormalizeEntriesTupleFree(es, v);
    case _ =>
  }

  lemma {:induction false} NormalizeAllTupleFree(vs: seq<Value>, parent: Value)
    requires parent.List? && forall x :: x in vs ==> x in parent.items
    requires forall x | x in vs :: TupleFree(x)
    ensures NormalizeAll(vs) == vs
    decreases parent, 0, |vs|
  {
    if vs != [] {
      assert vs[0] in parent.items;
      NormalizeTupleFree(vs[0]);
      NormalizeAllTupleFree(vs[1..], parent);
    }
  }

  lemma {:induction false} NormalizeEntriesTupleFree(es: seq<(Value, Value)>, parent: Value)
    requires parent.Dict? && forall e :: e in es ==> e in parent.entries
    requires EntriesTupleFree(es, parent)
    ensures NormalizeEntries(es, parent) == es
    decreases parent, 0, |es|
  {
    if es != [] {
      assert es[0] in parent.entries;
      NormalizeTupleFree(es[0].0);
      NormalizeTupleFree(es[0].1);
      assert EntriesTupleFree(es[1..], parent) by {
        forall i | 0 <= i < |es| - 1
          ensures TupleFree(es[1..][i].0) && TupleFree(es[1..][i].1)
        {
          assert es[1..][i] == es[i + 1];
        }
      }
      NormalizeEntriesTupleFree(es[1..], parent);
    }
  }
}
