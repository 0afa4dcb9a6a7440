/**
 * The bytes `dumps` produces for an object: what the encoder of
 * src/ucbor.c (lines 254-311) writes into an unbounded sink. Heads are
 * the shortest ones (tinycbor's `encode_number`, the preferred
 * serialization of section 4.2.1 of RFC 8949); arrays and maps always
 * have a definite length.
 */
module Encoding {
  import opened Binary
  import opened Wrappers
  import opened PyObjects

  /** One more than the largest argument a head can carry. */
  const ArgumentLimit: nat := 0x1_0000_0000_0000_0000

  lemma Pow256Values()
    ensures Pow256(1) == 0x100 && Pow256(2) == 0x1_0000 && Pow256(4) == 0x1_0000_0000
    ensures Pow256(8) == ArgumentLimit
  {
    assert Pow256(2) == 0x1_0000;
    assert Pow256(4) == Pow256(2) * Pow256(2) by { Pow256Split(2, 2); }
    assert Pow256(8) == Pow256(4) * Pow256(4) by { Pow256Split(4, 4); }
  }

  lemma {:induction false} Pow256Split(a: nat, b: nat)
    ensures Pow256(a + b) == Pow256(a) * Pow256(b)
    decreases a
  {
    if a > 0 {
      Pow256Split(a - 1, b);
    }
  }

  /** The additional information of the shortest head for `arg`. */
  function ShortestInfo(arg: nat): (info: nat)
    ensures info <= 27
  {
    if arg < 24 then arg
    else if arg < 0x100 then 24
    else if arg < 0x1_0000 then 25
    else if arg < 0x1_0000_0000 then 26
    else 27
  }

  /** The bytes of argument the shortest head for `arg` carries. */
  function ShortestWidth(arg: nat): (n: nat) {
    if arg < 24 then 0
    else if arg < 0x100 then 1
    else if arg < 0x1_0000 then 2
    else if arg < 0x1_0000_0000 then 4
    else 8
  }

  /** The shortest head with major type `major` and argument `arg`. */
  function Head(major: nat, arg: nat): (r: seq<byte>)
    requires major < 8 && arg < ArgumentLimit
    ensures |r| == 1 + ShortestWidth(arg)
    ensures r[0] == major * 32 + ShortestInfo(arg)
  {
    Pow256Values();
    [major * 32 + ShortestInfo(arg)] + (if arg < 24 then [] else BigEndian(arg, ShortestWidth(arg)))
  }

  predicate InInt64(i: int) {
    -0x8000_0000_0000_0000 <= i < 0x8000_0000_0000_0000
  }

  /**
   * Objects the runtime can hold: every float is a 64-bit pattern, and
   * every string, bytes object, list, tuple and dict is shorter than the
   * `size_t` range.
   */
  predicate InMemory(v: Value)
    decreases v, 1
  {
    match v
    case Float(bits) => bits < ArgumentLimit
    case Bytes(b) => |b| < ArgumentLimit
    case Str(s) => |s| < ArgumentLimit
    case List(vs) => |vs| < ArgumentLimit && forall x | x in vs :: InMemory(x)
    case Tuple(vs) => |vs| < ArgumentLimit && forall x | x in vs :: InMemory(x)
    case Dict(es) => |es| < ArgumentLimit && EntriesInMemory(es, v)
    case _ => true
  }

  predicate EntriesInMemory(es: seq<(Value, Value)>, ghost parent: Value)
    requires parent.Dict? && forall e :: e in es ==> e in parent.entries
    decreases parent, 0, |es|
  {
    forall i | 0 <= i < |es| :: assert es[i] in parent.entries; InMemory(es[i].0) && InMemory(es[i].1)
  }

  /**
   * Objects `dumps` accepts: None, int within the machine word, float,
   * str, bytes, and lists, tuples and dicts of such objects. A bool is
   * not an int here: it has a type of its own, for which the encoder has
   * no branch.
   */
  predicate Encodable(v: Value)
    decreases v, 1
  {
    match v
    case NoneValue => true
    case Int(i) => InInt64(i)
    case Float(_) => true
    case Bytes(_) => true
    case Str(_) => true
    case List(vs) => forall x | x in vs :: Encodable(x)
    case Tuple(vs) => forall x | x in vs :: Encodable(x)
    case Dict(es) => EntriesEncodable(es, v)
    case Bool(_) => false
    case Unsupported => false
  }

  predicate EntriesEncodable(es: seq<(Value, Value)>, ghost parent: Value)
    requires parent.Dict? && forall e :: e in es ==> e in parent.entries
    decreases parent, 0, |es|
  {
    forall i | 0 <= i < |es| :: assert es[i] in parent.entries; Encodable(es[i].0) && Encodable(es[i].1)
  }

  /**
   * The encoding of `v`, or the exception the walk raises at the first
   * object it cannot encode, in the order the walk visits objects.
   */
  function Encode(v: Value): (r: Result<seq<byte>, PyError>)
    requires InMemory(v)
    decreases v, 1
  {
    match v
    case NoneValue => Ok([0xf6])
    case Int(i) =>
      if !InInt64(i) then Err(OverflowError(IntOverflow))
      else if i >= 0 then Ok(Head(0, i))
      else Ok(Head(1, -1 - i))
    case Float(bits) =>
      Pow256Values();
      Ok([0xfb] + BigEndian(bits, 8))
    case Str(s) => Ok(Head(3, |s|) + s)
    case Bytes(b) => Ok(Head(2, |b|) + b)
    case List(vs) =>
      var body :- EncodeAll(vs, v);
      Ok(Head(4, |vs|) + body)
    case Tuple(vs) =>
      var body :- EncodeAll(vs, v);
      Ok(Head(4, |vs|) + body)
    case Dict(es) =>
      var body :- EncodeEntries(es, v);
      Ok(Head(5, |es|) + body)
    case Bool(_) => Err(ValueError(CannotEncode))
    case Unsupported => Err(ValueError(CannotEncode))
  }

  /** The encodings of the children in index order, or the first child's exception. */
  function EncodeAll(vs: seq<Value>, ghost parent: Value): (r: Result<seq<byte>, PyError>)
    requires (parent.List? || parent.Tuple?) && InMemory(parent)
    requires forall x :: x in vs ==> x in parent.items
    decreases parent, 0, |vs|
  {
    if vs == [] then Ok([])
    else
      var front :- EncodeAll(vs[..|vs| - 1], parent);
      assert vs[|vs| - 1] in parent.items;
      var last :- Encode(vs[|vs| - 1]);
      Ok(front + last)
  }

  /** For every pair in order, the key's encoding and then the value's. */
  function EncodeEntries(es: seq<(Value, Value)>, ghost parent: Value): (r: Result<seq<byte>, PyError>)
    requires parent.Dict? && InMemory(parent)
    requires forall e :: e in es ==> e in parent.entries
    decreases parent, 0, |es|
  {
    if es == [] then Ok([])
    else
      var front :- EncodeEntries(es[..|es| - 1], parent);
      var e := es[|es| - 1];
      assert e in parent.entries;
      assert InMemory(e.0) && InMemory(e.1) by { InMemoryEntry(parent, e); }
      var key :- Encode(e.0);
      var value :- Encode(e.1);
      Ok(front + key + value)
  }

  lemma InMemoryEntry(parent: Value, e: (Value, Value))
    requires parent.Dict? && InMemory(parent) && e in parent.entries
    ensures InMemory(e.0) && InMemory(e.1)
  {
    var j :| 0 <= j < |parent.entries| && parent.entries[j] == e;
    assert parent.entries[j] in parent.entries;
  }

  /** Once a prefix of the children fails, the whole sequence fails with its exception. */
  lemma {:induction false} EncodeAllPrefixError(vs: seq<Value>, j: nat, parent: Value)
    requires (parent.List? || parent.Tuple?) && InMemory(parent)
    requires forall x :: x in vs ==> x in parent.items
    requires j <= |vs| && EncodeAll(vs[..j], parent).Err?
    ensures EncodeAll(vs, parent) == EncodeAll(vs[..j], parent)
    decreases |vs| - j
  {
    if j == |vs| {
      assert vs[..j] == vs;
    } else {
      assert vs[..j + 1][..j] == vs[..j];
      EncodeAllPrefixError(vs, j + 1, parent);
    }
  }

  /** Once a prefix of the pairs fails, the whole dict fails with its exception. */
  lemma {:induction false} EncodeEntriesPrefixError(es: seq<(Value, Value)>, j: nat, parent: Value)
    requires parent.Dict? && InMemory(parent)
    requires forall e :: e in es ==> e in parent.entries
    requires j <= |es| && EncodeEntries(es[..j], parent).Err?
    ensures EncodeEntries(es, parent) == EncodeEntries(es[..j], parent)
    decreases |es| - j
  {
    if j == |es| {
      assert es[..j] == es;
    } else {
      assert es[..j + 1][..j] == es[..j];
      EncodeEntriesPrefixError(es, j + 1, parent);
    }
  }

  /** When all the children encode, so do the first `j`, to a prefix of the whole encoding. */
  lemma {:induction false} EncodeAllPrefix(vs: seq<Value>, j: nat, parent: Value)
    requires (parent.List? || parent.Tuple?) && InMemory(parent)
    requires forall x :: x in vs ==> x in parent.items
    requires j <= |vs| && EncodeAll(vs, parent).Ok?
    ensures EncodeAll(vs[..j], parent).Ok? && EncodeAll(vs[..j], parent).value <= EncodeAll(vs, parent).value
    decreases |vs| - j
  {
    if j == |vs| {
      assert vs[..j] == vs;
    } else {
      EncodeAllPrefix(vs, j + 1, parent);
      assert vs[..j + 1][..j] == vs[..j];
    }
  }

  /** When all the pairs encode, so do the first `j`, to a prefix of the whole encoding. */
  lemma {:induction false} EncodeEntriesPrefix(es: seq<(Value, Value)>, j: nat, parent: Value)
    requires parent.Dict? && InMemory(parent)
    requires forall e :: e in es ==> e in parent.entries
    requires j <= |es| && EncodeEntries(es, parent).Ok?
    ensures EncodeEntries(es[..j], parent).Ok? && EncodeEntries(es[..j], parent).value <= EncodeEntries(es, parent).value
    decreases |es| - j
  {
    if j == |es| {
      assert es[..j] == es;
    } else {
      EncodeEntriesPrefix(es, j + 1, parent);
      assert es[..j + 1][..j] == es[..j];
    }
  }

  /** A list or tuple encodes as an array head and its items' encodings. */
  lemma EncodeArray(v: Value)
    requires (v.List? || v.Tuple?) && InMemory(v)
    ensures EncodeAll(v.items, v).Ok? ==> Encode(v) == Ok(Head(4, |v.items|) + EncodeAll(v.items, v).value)
    ensures EncodeAll(v.items, v).Err? ==> Encode(v) == Err(EncodeAll(v.items, v).error)
  {
  }

  /** A dict encodes as a map head and its pairs' encodings. */
  lemma EncodeMap(v: Value)
    requires v.Dict? && InMemory(v)
    ensures EncodeEntries(v.entries, v).Ok? ==> Encode(v) == Ok(Head(5, |v.entries|) + EncodeEntries(v.entries, v).value)
    ensures EncodeEntries(v.entries, v).Err? ==> Encode(v) == Err(EncodeEntries(v.entries, v).error)
  {
  }

  /** Encoding one more child extends the encoding of the first ones, or fails with the child's exception. */
  lemma EncodeAllStep(vs: seq<Value>, i: nat, parent: Value)
    requires (parent.List? || parent.Tuple?) && InMemory(parent)
    requires vs == parent.items && i < |vs| && EncodeAll(vs[..i], parent).Ok?
    ensures InMemory(vs[i])
    ensures Encode(vs[i]).Ok? ==> EncodeAll(vs[..i + 1], parent) == Ok(EncodeAll(vs[..i], parent).value + Encode(vs[i]).value)
    ensures Encode(vs[i]).Err? ==> EncodeAll(vs[..i + 1], parent) == Err(Encode(vs[i]).error)
  {
    assert vs[..i + 1][..i] == vs[..i];
    assert vs[i] in parent.items;
  }

  /** Encoding one more pair extends the encoding of the first ones, or fails with the key's or the value's exception. */
  lemma EncodeEntriesStep(es: seq<(Value, Value)>, i: nat, parent: Value)
    requires parent.Dict? && InMemory(parent)
    requires es == parent.entries && i < |es| && EncodeEntries(es[..i], parent).Ok?
    ensures InMemory(es[i].0) && InMemory(es[i].1)
    ensures Encode(es[i].0).Ok? && Encode(es[i].1).Ok? ==>
      EncodeEntries(es[..i + 1], parent) == Ok(EncodeEntries(es[..i], parent).value + Encode(es[i].0).value + Encode(es[i].1).value)
    ensures Encode(es[i].0).Err? ==> EncodeEntries(es[..i + 1], parent) == Err(Encode(es[i].0).error)
    ensures Encode(es[i].0).Ok? && Encode(es[i].1).Err? ==> EncodeEntries(es[..i + 1], parent) == Err(Encode(es[i].1).error)
  {
    assert es[..i + 1][..i] == es[..i];
    assert es[i] in parent.entries;
    InMemoryEntry(parent, es[i]);
  }

  /** `dumps` raises exactly for the objects outside the encodable ones. */
  lemma {:induction false} EncodeOkIffEncodable(v: Value)
    requires InMemory(v)
    ensures Encode(v).Ok? <==> Encodable(v)
    decreases v, 1
  {
    match v
    case List(vs) => EncodeAllOkIff(vs, v);
    case Tuple(vs) => EncodeAllOkIff(vs, v);
    case Dict(es) => EncodeEntriesOkIff(es, v);
    case _ =>
  }

  lemma {:induction false} EncodeAllOkIff(vs: seq<Value>, parent: Value)
    requires (parent.List? || parent.Tuple?) && InMemory(parent)
    requires forall x :: x in vs ==> x in parent.items
    ensures EncodeAll(vs, parent).Ok? <==> forall x | x in vs :: Encodable(x)
    decreases parent, 0, |vs|
  {
    if vs != [] {
      var n := |vs| - 1;
      assert vs == vs[..n] + [vs[n]];
      assert vs[n] in parent.items;
      EncodeAllOkIff(vs[..n], parent);
      EncodeOkIffEncodable(vs[n]);
    }
  }

  lemma {:induction false} EncodeEntriesOkIff(es: seq<(Value, Value)>, parent: Value)
    requires parent.Dict? && InMemory(parent)
    requires forall e :: e in es ==> e in parent.entries
    ensures EncodeEntries(es, parent).Ok? <==> EntriesEncodable(es, parent)
    decreases parent, 0, |es|
  {
    if es != [] {
      var n := |es| - 1;
      assert es[n] in parent.entries;
      InMemoryEntry(parent, es[n]);
      EncodeEntriesOkIff(es[..n], parent);
      EncodeOkIffEncodable(es[n].0);
      EncodeOkIffEncodable(es[n].1);
      assert forall i | 0 <= i < n :: es[..n][i] == es[i];
    }
  }

  /** A UTF-8 continuation byte, 0b10xxxxxx. */
  predicate IsContinuation(b: byte) {
    b / 64 == 2
  }

  /**
   * The length of a `str` as the runtime's `len` reports it in a build with
   * Unicode strings: the number of bytes that start a character, i.e. that
   * are not continuation bytes.
   */
  function CodePoints(s: seq<byte>): (n: nat)
    ensures n <= |s|
    ensures n == |s| <==> forall i | 0 <= i < |s| :: !IsContinuation(s[i])
  {
    if s == [] then 0
    else
      assert forall i | 1 <= i < |s| :: s[i] == s[1..][i - 1];
      (if IsContinuation(s[0]) then 0 else 1) + CodePoints(s[1..])
  }

  /**
   * The text-string item the encoder's `str` branch writes as written: the
   * head carries the character count, and that many bytes of the UTF-8 data
   * follow.
   */
  function EncodeStrAsWritten(s: seq<byte>): (r: seq<byte>)
    requires |s| < ArgumentLimit
  {
    Head(3, CodePoints(s)) + s[..CodePoints(s)]
  }

  /**
   * The as-written item is the encoding of the whole string exactly when the
   * string has no multi-byte character, that is, when every byte is ASCII or
   * a lead byte.
   */
  lemma StrAsWrittenExactIff(s: seq<byte>)
    requires |s| < ArgumentLimit
    ensures EncodeStrAsWritten(s) == Encode(Str(s)).value <==> CodePoints(s) == |s|
  {
    EncodeText(s);
    if CodePoints(s) == |s| {
      StrAsWrittenWhole(s);
    } else {
      StrAsWrittenShort(s);
    }
  }

  lemma StrAsWrittenWhole(s: seq<byte>)
    requires |s| < ArgumentLimit && CodePoints(s) == |s|
    ensures EncodeStrAsWritten(s) == Head(3, |s|) + s
  {
    assert s[..|s|] == s;
  }

  /** With a multi-byte character the as-written item is shorter than the encoding. */
  lemma StrAsWrittenShort(s: seq<byte>)
    requires |s| < ArgumentLimit && CodePoints(s) < |s|
    ensures |EncodeStrAsWritten(s)| < |Head(3, |s|) + s|
  {
    WidthMonotone(CodePoints(s), |s|);
  }

  /** A `str` encodes as a text-string head with its byte length, then its bytes. */
  lemma EncodeText(s: seq<byte>)
    requires |s| < ArgumentLimit
    ensures Encode(Str(s)) == Ok(Head(3, |s|) + s)
  {
  }

  lemma WidthMonotone(a: nat, b: nat)
    requires a <= b
    ensures ShortestWidth(a) <= ShortestWidth(b)
  {
  }
}
