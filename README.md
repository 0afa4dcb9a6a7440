# micropython_cbor in Dafny

A model of `ucbor`, a MicroPython native module. It converts between
MicroPython objects and CBOR (RFC 8949) on top of the tinycbor library.
`ucbor.loads(data)` reads the first CBOR item of a byte buffer and builds
its object. `ucbor.dumps(obj)` encodes an object into a fresh buffer.
When the first 64-byte buffer is too small, it is grown to the exact
size needed and the encoding is done again.

The model has these modules:

- `PyObjects` (values.dfy): the objects and the exceptions.
  - A `str` is its UTF-8 bytes.
  - A `float` is its binary64 bit pattern.
  - A `dict` is the sequence of its pairs, in the model's order (a new key
    goes at the end). Keys are
    compared as Python's `==` compares them: a list or dict cannot be a
    key, and equal numbers (1, 1.0 and True; 0.0 and -0.0) are one key.
    Storing under a key equal to one already present replaces that
    entry's value and keeps its key.
- `Cursors` (cursor.dfy): tinycbor's parsing cursor over the input bytes.
  It holds a position and a count of items left, or "until break" for
  indefinite-length containers.
- `Decoder` (decoder.dfy): the decoder.
  - The functions `Item`, `Add`, `Advance`, `Fill` and `Decode` state
    what `cbor_it_to_mp_obj_recursive` and `cbor_loads` compute. `Fill`
    takes each item in the order of the C loop: make the object, add it
    to the parent, then step over it.
  - The classes `PyList` and `PyDict` are the parent objects that are
    updated in place.
  - The methods `NextElement`, `AddToParent`, `ItToObj` and `Loads` carry
    out the C loop and are proved equal to those functions.
- `Encoding` (encoding.dfy): `Encode` is the byte string the encoder
  produces, or the exception it raises.
- `Sinks` (sink.dfy): tinycbor's encoder.
  - The `Sink` class is a fixed-size output buffer. On overflow it
    counts the bytes that did not fit instead of storing them.
  - The `CborEncoder` class is an encoder object. It keeps count of the
    items added to a container.
- `Encoder` (encoder.dfy): `mp_obj_to_cbor_text_recursive` and
  `cbor_dumps` as methods writing into a `CborEncoder`. Each is proved to
  write exactly `Encode(v)` or raise its exception. `EncodeTop` proves the
  one-or-two-pass buffer sizing.
- `RoundTrip` (roundtrip.dfy): `loads(dumps(obj))` gives the object back,
  with tuples read back as lists, whatever bytes follow.
- `Fixtures` (fixtures.dfy): the fixtures of test/test.py, in both
  directions.
- `LibC` (libc.dfy): the freestanding `memcmp`, `strlen`, `memset` and
  `memcpy` of the module, as array methods.
- `CborErrors` (errors.dfy): tinycbor's error codes and
  `cbor_error_string`.
- `Binary`, `Floats` and `Wrappers` (binary.dfy, floats.dfy,
  wrappers.dfy): big-endian numbers, IEEE 754 field arithmetic, and
  `Option`/`Result`.

tinycbor's parser and encoder sources (cborparser.c, cborencoder.c) are
not part of this model. `Cursors` and `Sinks` model the behaviour that
src/ucbor.c relies on: item types, advancing, entering and leaving
containers, the shortest-form heads, and out-of-memory counting.

Where the code and the module's description disagree, the model follows
the code:

- `loads` returns the first item without looking at anything after it,
  so trailing bytes are ignored. They are not reported as an error.
- `dumps(True)` raises "Found object which cannot be encoded". A `bool`
  has a type of its own, and the encoder has no branch for it.

The encoder's `str` branch is the one place where the model does not
follow the code. The code writes the length `len(s)`, which counts
characters. The model writes the UTF-8 byte length (see Findings and Left
out). `Encoder.WriteStrAsWritten` models the branch as written.

The float32 fixture (test/test.py:11) cannot hold. Its bytes are the
binary32 number nearest 3.14, which widens to a binary64 that is not 3.14
(`Fixtures.SingleFixture`).

## Model

| member | source | states |
|---|---|---|
| Cursors.ParseHead | src/ucbor.c:220-223 | a head that parses fits in the data, takes its major type and additional information from the initial byte, has an argument below 2^64, is never the break byte, and an additional information below 24 is its own argument |
| Cursors.Init | src/ucbor.c:220-223 | the parser starts at position 0 with one item to read, and succeeds exactly when the first head parses |
| Cursors.TypeOf | src/ucbor.c:100 | the item type is the invalid type exactly when the cursor is at the end of its level |
| Cursors.AdvanceFixed | src/ucbor.c:194-201 | stepping over a fixed-size item moves the cursor forward, past exactly the item's head, unless the level ends there |
| Cursors.GetInt64 | src/ucbor.c:104-107 | the integer read always fits in int64 (larger arguments wrap) |
| Cursors.GetFloatBits | src/ucbor.c:137-144 | a float32 item gives a 32-bit pattern and a double gives a 64-bit one |
| Cursors.Chunks | src/ucbor.c:108-123 | reading a string's chunks ends strictly after where it started and within the data |
| Cursors.DupString | src/ucbor.c:108-123 | a duplicated string leaves the cursor valid and strictly after the string |
| Cursors.Enter | src/ucbor.c:149-154 | entering a container gives a valid cursor strictly after the container's head |
| Cursors.Leave | src/ucbor.c:163-165 | leaving a container gives a valid cursor no earlier than the end of the inner level |
| Decoder.Item | src/ucbor.c:100-169 | the object for one item: the fixed-size types leave the cursor where it is, and strings and containers move it forward |
| Decoder.Container | src/ucbor.c:149-165 | an array or map is entered, filled and left, and the cursor ends up past it |
| Decoder.Advance | src/ucbor.c:192-201 | after the object is added, the cursor moves forward: strings and containers have already moved it, and the other types are stepped over |
| Decoder.Step | src/ucbor.c:98-201 | reading one item and stepping over it always moves the cursor forward |
| Decoder.Add | src/ucbor.c:176-186 | adding an object fails exactly when a dict stores a value under a key that cannot be hashed, with TypeError; otherwise the kind of the parent (list or dict) is kept |
| Decoder.Fill | src/ucbor.c:98-207 | filling a level ends at the level's end and keeps the kind of the parent; a dict level never comes back with a key waiting for its value (lines 204-205) |
| Decoder.Decode | src/ucbor.c:210-228 | data whose first head does not parse raises "tinycbor init failed" |
| Decoder.PyList.constructor | src/ucbor.c:157 | a new list is empty |
| Decoder.PyList.Append | src/ucbor.c:177 | appending adds the object at the end and changes nothing else |
| Decoder.PyDict.constructor | src/ucbor.c:159 | a new dict is empty |
| Decoder.PyDict.Store | src/ucbor.c:180 | a key that cannot be hashed raises TypeError and leaves the dict unchanged; any other key updates the pairs as `PyObjects.Store` does |
| Decoder.NextElement | src/ucbor.c:100-169 | the object made for the item, and the cursor after it, are those of Item, and so is its exception |
| Decoder.AddToParent | src/ucbor.c:171-190 | the in-place update of a list or dict parent, and of the key machine, matches Add |
| Decoder.ItToObj | src/ucbor.c:90-208 | with no parent it returns the first item's object; under a parent it fills the list or dict in place with exactly Fill's result, or raises Fill's exception |
| Decoder.Loads | src/ucbor.c:210-228 | `loads` is exactly Decode |
| Decoder.DecodeRejects | src/ucbor.c:125-146 | a tag, an unknown simple value, `undefined` and a half float are each rejected with the source's exception |
| Decoder.DanglingFill | src/ucbor.c:204-205 | an indefinite map holding a key and then a break fails with "key with no value in map" |
| Decoder.DanglingKeyRejected | src/ucbor.c:204-205 | `loads` of that map raises "key with no value in map" |
| Decoder.TinyHead | src/ucbor.c:100 | a head whose additional information is below 24 is one byte and carries that number |
| Decoder.TinyIntPass | src/ucbor.c:103-107 | one pass over a small int adds the int and steps over its head |
| Decoder.TinyStrPass | src/ucbor.c:116-123 | one pass over a one-byte text string adds the string and moves past it |
| Decoder.FillPass | src/ucbor.c:98-201 | one pass of the loop is read, add, then advance |
| Decoder.DecodeMap | src/ucbor.c:149-165 | a top-level map decodes to the dict its level fills, or raises the level's exception |
| Decoder.EnterOnePair | src/ucbor.c:149-154 | entering a one-pair map gives a level of two items |
| Decoder.UnhashableValue | src/ucbor.c:179-180 | a value read while the pending key cannot be hashed raises TypeError |
| Decoder.ListKeyItem | src/ucbor.c:149-165 | the empty array key is read as an empty list |
| Decoder.ListKeyRejected | src/ucbor.c:180 | `loads(a1 80 01)`, whose key is a list, raises TypeError |
| Decoder.TupleKeyArray | src/ucbor.c:149-165 | the array key [1, 2] is read as a list |
| Decoder.TupleKeyItems | src/ucbor.c:98-207 | the array's level holds 1 and then 2 |
| Decoder.TupleKeyRejected | src/ucbor.c:180 | `loads(a1 82 01 02 03)` raises TypeError, because the array key is read as a list |
| Decoder.OnePointZeroIsOne | src/ucbor.c:180 | 1.0 is the whole number 1 and the same dict key as 1 |
| Decoder.EqualKeysMerge | src/ucbor.c:180 | `loads` of `{1: "a", 1.0: "b"}` keeps one entry, with the first key and the second value |
| Decoder.EqualKeysFill | src/ucbor.c:98-207 | the map's level ends with the single entry 1: "b" |
| Decoder.EqualKeysFirstPair | src/ucbor.c:176-186 | the first pair is stored in the empty dict |
| Decoder.EqualKeysSecondPair | src/ucbor.c:176-186 | the second pair replaces the first pair's value |
| Decoder.EqualKeysDouble | src/ucbor.c:137-140 | the head at position 4 is the double 1.0 |
| Decoder.LargeIntegerWraps | src/ucbor.c:104-107 | an unsigned 64-bit argument of 2^63 or more decodes to that argument minus 2^64 |
| Floats.WidenSingle | src/ucbor.c:141-144 | widening a float32 pattern gives a 64-bit pattern |
| Floats.WidenSingleKinds | src/ucbor.c:141-144 | widening keeps the sign, maps NaN to NaN and infinity to infinity, and zero exactly to zero |
| Floats.WidenedFields | src/ucbor.c:141-144 | the widened fields are a valid binary64 whose exponent and fraction correspond to the single's |
| Floats.SubnormalShift | src/ucbor.c:141-144 | normalising a subnormal single's fraction fits in a binary64 fraction |
| Encoding.Head | src/ucbor.c:257 | a head is one byte of major type and additional information, and then the argument in its shortest width |
| Encoding.EncodeOkIffEncodable | src/ucbor.c:254-311 | encoding succeeds exactly for objects made of None, int64, float, str, bytes, list, tuple and dict |
| Encoding.EncodeAllOkIff | src/ucbor.c:281-284 | an array body encodes exactly when every item is encodable |
| Encoding.EncodeEntriesOkIff | src/ucbor.c:300-307 | a map body encodes exactly when every key and value is encodable |
| Encoding.EncodeArray | src/ucbor.c:273-285 | a list or tuple is an array head for its length followed by its items, or the first item's exception |
| Encoding.EncodeMap | src/ucbor.c:286-308 | a dict is a map head for its pair count followed by its keys and values in order, or the first exception |
| Encoding.CodePoints | src/ucbor.c:265-266 | the character count of a UTF-8 string is at most its byte count, and equal exactly when it has no continuation bytes |
| Encoding.StrAsWrittenExactIff | src/ucbor.c:264-267 | the string branch as written writes the correct encoding exactly when the string is all ASCII-like (no continuation bytes) |
| Encoder.WriteValue | src/ucbor.c:254-311 | writing an object appends exactly Encode(v) to the stream, or raises Encode's exception; a `str` gets its byte length (the corrected branch) |
| Encoder.WriteScalar | src/ucbor.c:254-263 | None, int and float append their encoding; an out-of-range int raises OverflowError |
| Encoder.WriteString | src/ucbor.c:264-272 | a bytes object, or a str with the corrected byte length, appends its head and all of its bytes |
| Encoder.WriteStrAsWritten | src/ucbor.c:265-267 | the str branch as written appends a head with the character count and only that many bytes |
| Encoder.WriteArray | src/ucbor.c:273-285 | a list or tuple appends its encoding, or raises the first item's exception |
| Encoder.WriteItems | src/ucbor.c:281-284 | the item loop appends the items' encodings in order |
| Encoder.WriteMap | src/ucbor.c:286-308 | a dict appends its encoding, or raises the first exception |
| Encoder.WriteEntries | src/ucbor.c:300-307 | the pair loop appends each key and then its value, in order |
| Encoder.WritePair | src/ucbor.c:302-306 | one pair appends the key's encoding and then the value's |
| Encoder.EncodeNested | src/ucbor.c:313-330 | a nested call under a parent encoder appends Encode(v); out of memory is not an exception there |
| Encoder.EncodeTop | src/ucbor.c:243-335 | the top-level call returns a buffer whose used part is exactly Encode(v), with the corrected str length; the buffer is 64 bytes, or exactly the encoding's size, after one or two passes |
| Encoder.Dumps | src/ucbor.c:341-353 | `dumps` is exactly Encode, with the corrected str length |
| Sinks.Sink.constructor | src/ucbor.c:251 | a new output buffer is empty and not in counting mode |
| Sinks.Sink.CountingIffOverflow | src/ucbor.c:246-247 | the encoder is counting exactly when the stream written is longer than the buffer |
| Sinks.Sink.Append | src/ucbor.c:246-247 | appending extends the stream, and reports out of memory exactly when counting |
| Sinks.Sink.ExtraBytesNeeded | src/ucbor.c:317 | the extra bytes needed are the stream's excess over the buffer |
| Sinks.Sink.BufferSize | src/ucbor.c:334 | without overflow, the used size is the stream's length and the buffer holds the stream |
| Sinks.CborEncoder.constructor | src/ucbor.c:251 | a top-level encoder accepts one item |
| Sinks.CborEncoder.Container | src/ucbor.c:277 | a container encoder declares its item count |
| Sinks.CborEncoder.EncodeNull | src/ucbor.c:255 | `null` appends 0xf6 |
| Sinks.CborEncoder.EncodeInt | src/ucbor.c:257 | an int appends a major 0 head for itself, or a major 1 head for -1-i |
| Sinks.CborEncoder.EncodeDouble | src/ucbor.c:260 | a double appends 0xfb and its 8 big-endian bytes |
| Sinks.CborEncoder.EncodeString | src/ucbor.c:264-272 | a string appends a head for the given length and that many bytes |
| Sinks.CborEncoder.CreateContainer | src/ucbor.c:277 | an array or map head is appended and a child encoder declares its items (twice the pairs for a map) |
| Sinks.CborEncoder.CloseContainer | src/ucbor.c:285 | closing reports too many or too few items, otherwise out of memory exactly when counting |
| LibC.Compare | src/ucbor.c:40-49 | the comparison is -1, 0 or 1, and is 0 exactly when the ranges are equal |
| LibC.CompareFirstDifference | src/ucbor.c:44-46 | the sign comes from the first differing byte |
| LibC.Memcmp | src/ucbor.c:40-49 | `memcmp` returns Compare of the two ranges |
| LibC.Strlen | src/ucbor.c:51-60 | `strlen` is the distance to the first zero byte |
| LibC.UnsignedChar | src/ucbor.c:67 | the conversion to unsigned char keeps the value modulo 256 |
| LibC.Memset | src/ucbor.c:62-70 | `memset` fills exactly the range with the byte and leaves the rest |
| LibC.Memcpy | src/ucbor.c:72-79 | `memcpy` copies the source range into the destination range and leaves the rest |
| CborErrors.ErrorStringAsWritten | tinycbor/cborerrorstrings.c:80-152 | only NoError has the empty message; ErrorTooFewItems and unnamed codes get "unknown error"; out of memory gets "out of memory/need more memory" and both key-not-string codes get "key in map is not a string" |
| CborErrors.ErrorString | tinycbor/cborerrorstrings.c:80-152 | with the missing branch added, only NoError has the empty message and every named code other than UnknownError has a message other than "unknown error"; unnamed codes get "unknown error"; out of memory and the two key-not-string codes keep their messages |
| CborErrors.TooFewItemsFallsThroughAsWritten | tinycbor/cborerrorstrings.c:133-152 | ErrorTooFewItems gets the fallback message as written and its own message corrected |
| CborErrors.SharedKeyMessage | tinycbor/cborerrorstrings.c:127-128 | the map-key and JSON-object-key codes share "key in map is not a string" in both tables, while out of memory (lines 87-88) has a message of its own |
| CborErrors.UnnamedFallsBack | tinycbor/cborerrorstrings.c:149-150 | a code the table does not name gets "unknown error" |
| PyObjects.Keys | src/ucbor.c:180 | the keys of a dict are its pairs' first components, in order |
| PyObjects.Lookup | src/ucbor.c:180 | a lookup misses exactly when the dict holds no key equal to the one looked up |
| PyObjects.NumberKeys | src/ucbor.c:180 | True is the key 1, 0.0 and -0.0 are the key 0, a NaN equals no key, and a str never equals bytes |
| PyObjects.ZeroKeys | src/ucbor.c:180 | 0.0 and -0.0 are both the key 0 |
| PyObjects.NegativeZeroFields | src/ucbor.c:180 | -0.0 is the whole number 0 and not a NaN |
| PyObjects.QuietNaNFields | src/ucbor.c:180 | the quiet NaN pattern is a NaN |
| PyObjects.KeyEqTransitive | src/ucbor.c:180 | keys equal to each other are equal to the same keys |
| PyObjects.LookupCons | src/ucbor.c:180 | a lookup checks the first entry and then the rest |
| PyObjects.HasKeyTail | src/ucbor.c:180 | past a first key that differs, the dict holds the key exactly when its tail does |
| PyObjects.StoreLookup | src/ucbor.c:180 | after a store, every key equal to the stored one maps to the new value and every other key to what it mapped to before |
| PyObjects.StoreLookupFirst | src/ucbor.c:180 | replacing the first entry's value: keys equal to the stored one find the new value, others what they found before |
| PyObjects.StoreKeys | src/ucbor.c:180 | a store adds the key at the end when no equal key is present, and otherwise keeps the keys as they were |
| PyObjects.StoreUnique | src/ucbor.c:180 | a store keeps the keys pairwise unequal |
| PyObjects.StoreFreshKey | src/ucbor.c:180 | storing a key with no equal in the dict appends the pair |
| PyObjects.Normalize | src/ucbor.c:273 | reading back turns tuples and lists into lists and nothing else into a tuple |
| PyObjects.NormalizeTupleFree | src/ucbor.c:273 | an object without tuples reads back as itself |
| RoundTrip.DecodeEncode | test/test.py:28-30 | every encodable object whose keys, read back, can be hashed and are pairwise unequal encodes, and `loads` of its encoding followed by any bytes gives it back with tuples as lists |
| RoundTrip.StrAsWrittenBytes | src/ucbor.c:264-267 | as written, "éa" has two characters and is written as the encoding of "é" |
| RoundTrip.StrAsWrittenTruncates | src/ucbor.c:264-267 | as written, "éa" comes back as "é"; with the byte length it comes back whole |
| Fixtures.Fixture | test/test.py:18-30 | a fixture whose object encodes to its bytes decodes back to the object |
| Fixtures.IntFixture | test/test.py:7 | 1 is `01` both ways |
| Fixtures.StringFixtures | test/test.py:8-9 | "abc" is `63 61 62 63` and b"abc" is `43 61 62 63`, both ways |
| Fixtures.DoubleFixture | test/test.py:10 | 3.14 is `fb 40 09 1e b8 51 eb 85 1f`, both ways |
| Fixtures.SingleFixture | test/test.py:11 | `fa 40 48 f5 c3` decodes to the widened single 0x40091eb860000000, which is not 3.14 |
| Fixtures.ListFixture | test/test.py:12 | [1, 2, 3] and (1, 2, 3) both encode to `83 01 02 03`, which decodes to [1, 2, 3] |
| Fixtures.DictFixture | test/test.py:14 | the two-pair dict encodes to the fixture's bytes and decodes back, with its pairs in stream order |
| Fixtures.TupleKeyNoRoundTrip | src/ucbor.c:273-308 | `dumps({(1, 2): 3})` is `a1 82 01 02 03`, `loads` of it raises TypeError, and the dict is outside the round trip |
| Fixtures.TupleKeyArrayEncodes | src/ucbor.c:273-285 | the tuple (1, 2) is written as `82 01 02` |
| Fixtures.TupleKeyUnhashable | src/ucbor.c:180 | the tuple key, read back as a list, puts the dict outside the round trip |
| Fixtures.TupleKeyEncodes | src/ucbor.c:273-308 | the tuple key is written as an array inside the map |

## Left out

- UTF-8 validation of text strings and the strict-mode flag passed to `cbor_parser_init`: no check of string contents is modelled.
- Chunked (indefinite-length) strings are reassembled by `Cursors.Chunks`. The limits of that model: a chunk that is itself indefinite fails with CborErrorIllegalNumber, and a chunk of another major type fails with CborErrorIllegalType. The tinycbor source that does this, cborparser.c, is not part of this model.
- Hash values and the hash table: a dict is the sequence of its pairs, and the encoder writes them in that order. MicroPython's map implementation (py/map.c, py/obj.c) is not part of this model. Its key equality is modelled by `PyObjects.KeyEq`, following Python's `==`.
- PyObjects.Store, Decoder.PyDict.Store: the TypeError for a key that cannot be hashed carries a fixed message, "unsupported type for __hash__". The runtime's wording also names the type and depends on its error-reporting level. The decoder never hands `Unsupported` to a dict, and the model treats it as unhashable.
- PyObjects.KeyEq: an int beyond 2^53 and a float are compared by exact value, where MicroPython converts the int to a float first. The decoder never produces an int beyond int64, but such an int can still round to the float next to it.
- RoundTrip.DecodeEncode: a dict that has a tuple or list key, or two keys that become equal once read back, is outside its precondition. `loads` raises TypeError on the first (`Fixtures.TupleKeyNoRoundTrip`) and merges the second (`Decoder.EqualKeysMerge`).
- Encoder.WriteString, Encoder.WriteValue, Encoder.EncodeTop, Encoder.Dumps: these write the UTF-8 byte length of a `str`, which is the corrected half of Findings row 1. The code as written passes the character count. `Encoder.WriteStrAsWritten` and `RoundTrip.StrAsWrittenTruncates` model that case.
- The build without double-precision floats: lines 259-263 choose `cbor_encode_double` when `MICROPY_FLOAT_IMPL == MICROPY_FLOAT_IMPL_DOUBLE`, and otherwise `cbor_encode_float`. The model is the double-precision build. Floats are bit patterns, and the decoder widens float32 exactly at the bit level. The `USE_DOUBLE` macro of lines 31-38 is never read.
- Floats.WidenSingleKinds: states that the sign and the kind (zero, NaN, infinity) are kept, not that the widened pattern denotes the same real number, because the model has no real-number semantics for floats.
- Big integers: an int outside int64 raises OverflowError in `dumps`. This is what `mp_obj_get_int` does on a port with a 64-bit machine word; a 32-bit port's narrower limit is not modelled. How the runtime stores such ints is not modelled either.
- Nesting depth and stack use of the recursive calls.
- LibC.Strlen: the wrap-around of the `unsigned int` counter for strings of 2^32 bytes or more is not modelled.
- LibC.Memcpy: overlapping ranges, which are undefined behaviour in C, are excluded by its precondition.
- `malloc`, `free`, `m_realloc`, `m_free` and the garbage collector: a buffer is a fresh `array`, and freeing is not modelled.
- Module registration (`mpy_init`, lines 355-366) and argument marshalling (lines 210-216 and 341-343): `loads` takes the bytes directly, so the "expecting bytes or bytearray" check is not modelled.
- CborErrorDataTooLarge and other tinycbor limits on sizes: lengths up to 2^64 are accepted.
- An out-of-memory code ORed with another error: line 315 compares for equality. The model's encoder never produces such combined codes.
- The nested_list and big_mix fixtures (test/test.py:13, 15) are not stated byte by byte; `RoundTrip.DecodeEncode` covers them in general.
- Decoder.Add: its own contract states when it raises TypeError and that the parent's kind is kept. What it does to a list or a dict is stated through `Decoder.AddToParent` and the `PyObjects.Store` lemmas.
- Decoder.Decode: its own contract states only the init failure. What it returns is stated by `RoundTrip.DecodeEncode`, `Decoder.DecodeRejects` and the fixtures.

## Findings

| source | as written | input that shows it | evidently intended | confidence | as-written member | corrected member |
|---|---|---|---|---|---|---|
| src/ucbor.c:264-267 | the length given to `cbor_encode_text_string` is `len(s)`, the number of characters | "éa" (bytes c3 a9 61) is written as `62 c3 a9`, and `loads` of that gives "é" | the UTF-8 byte length of the string | not executed; affects builds with Unicode strings | RoundTrip.StrAsWrittenTruncates | RoundTrip.DecodeEncode |
| tinycbor/cborerrorstrings.c:133-150 | no branch for CborErrorTooFewItems, which the documentation lists at line 65 | CborErrorTooFewItems gives "unknown error" | a message of its own, "too few items added to encoder" | not executed | CborErrors.TooFewItemsFallsThroughAsWritten | CborErrors.ErrorString |
