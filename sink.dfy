/**
 * The tinycbor encoder state the encoder of src/ucbor.c writes through
 * (`CborEncoder`), stated by the contract the code relies on: writes go
 * into a fixed buffer while they fit; the first write that does not fit
 * switches the sink to counting, after which every write only adds to the
 * count of bytes still needed and reports out-of-memory. Container
 * encoders share their parent's sink and count the items added to them.
 */
module Sinks {
  import opened Binary
  import opened CborErrors
  import opened Encoding
  import LibC

  class Sink {
    /** The buffer handed to `cbor_encoder_init`; its length is the capacity. */
    var buffer: array<byte>
    /** Bytes stored in the buffer. */
    var used: nat
    /** Whether a write has failed to fit (tinycbor clears its `end` pointer then). */
    var counting: bool
    /** In counting mode, how many bytes beyond the capacity the writes so far need. */
    var needed: nat
    /** Everything written so far, stored or not. */
    ghost var written: seq<byte>

    ghost predicate Valid()
      reads this, buffer
    {
      used <= buffer.Length && used <= |written| && buffer[..used] == written[..used] &&
      (!counting ==> used == |written| && needed == 0) &&
      (counting ==> buffer.Length < |written| && needed == |written| - buffer.Length)
    }

    /** `cbor_encoder_init(enc, buf, size, ...)`: an empty sink over `buf`. */
    constructor (buf: array<byte>)
      ensures Valid() && buffer == buf && written == [] && !counting
    {
      buffer := buf;
      used := 0;
      counting := false;
      needed := 0;
      written := [];
    }

    /** The sink counts exactly when what was written exceeds the capacity. */
    lemma CountingIffOverflow()
      requires Valid()
      ensures counting <==> |written| > buffer.Length
    {
    }

    /**
     * `append_to_buffer`: store `bs` if it fits, else switch to (or stay
     * in) counting mode and report out-of-memory.
     */
    method Append(bs: seq<byte>) returns (err: CborError)
      requires Valid()
      modifies this, buffer
      ensures Valid() && buffer == old(buffer) && written == old(written) + bs
      ensures err == if counting then ErrorOutOfMemory else NoError
    {
      ghost var before := written;
      written := written + bs;
      if counting {
        needed := needed + |bs|;
        err := ErrorOutOfMemory;
        assert buffer[..used] == written[..used] by {
          assert written[..used] == before[..used];
        }
      } else if |bs| > buffer.Length - used {
        needed := used + |bs| - buffer.Length;
        counting := true;
        err := ErrorOutOfMemory;
        assert buffer[..used] == written[..used] by {
          assert written[..used] == before[..used];
        }
      } else {
        var source := new byte[|bs|](i requires 0 <= i < |bs| => bs[i]);
        assert source[..] == bs;
        LibC.Memcpy(buffer, used, source, 0, |bs|);
        assert buffer[..used + |bs|] == before + bs by {
          assert buffer[..used + |bs|] == old(buffer[..used]) + bs;
        }
        used := used + |bs|;
        err := NoError;
      }
    }

    /** `cbor_encoder_get_extra_bytes_needed`: the deficit, or 0 if everything fit. */
    function ExtraBytesNeeded(): (n: nat)
      reads this, buffer
      requires Valid()
      ensures counting ==> buffer.Length + n == |written|
      ensures !counting ==> n == 0
    {
      if counting then needed else 0
    }

    /** `cbor_encoder_get_buffer_size`: the bytes stored in the buffer. */
    function BufferSize(): (n: nat)
      reads this, buffer
      requires Valid()
      ensures !counting ==> n == |written| && buffer[..n] == written
    {
      used
    }
  }

  /** A `CborEncoder`: the top-level one, or one for an array or map being written. */
  class CborEncoder {
    const sink: Sink
    /** The item count the container was created with (one for the top level). */
    const declared: nat
    /** Items written into it so far. */
    var added: nat

    ghost predicate Valid()
      reads this, sink, sink.buffer
    {
      sink.Valid()
    }

    /** The encoder `cbor_encoder_init` sets up: it expects one item. */
    constructor (s: Sink)
      ensures sink == s && declared == 1 && added == 0
    {
      sink := s;
      declared := 1;
      added := 0;
    }

    /** The encoder of a container holding `n` items. */
    constructor Container(s: Sink, n: nat)
      ensures sink == s && declared == n && added == 0
    {
      sink := s;
      declared := n;
      added := 0;
    }

    /** `cbor_encode_null`: the simple value 22. */
    method EncodeNull() returns (err: CborError)
      requires Valid()
      modifies this, sink, sink.buffer
      ensures Valid() && sink.buffer == old(sink.buffer) && added == old(added) + 1
      ensures sink.written == old(sink.written) + [0xf6]
      ensures err == if sink.counting then ErrorOutOfMemory else NoError
    {
      added := added + 1;
      err := sink.Append([0xf6]);
    }

    /** `cbor_encode_int`: major type 0 for a non-negative number, else 1 with argument `-1 - i`. */
    method EncodeInt(i: int) returns (err: CborError)
      requires Valid() && InInt64(i)
      modifies this, sink, sink.buffer
      ensures Valid() && sink.buffer == old(sink.buffer) && added == old(added) + 1
      ensures sink.written == old(sink.written) + (if i >= 0 then Head(0, i) else Head(1, -1 - i))
      ensures err == if sink.counting then ErrorOutOfMemory else NoError
    {
      added := added + 1;
      if i >= 0 {
        err := sink.Append(Head(0, i));
      } else {
        err := sink.Append(Head(1, -1 - i));
      }
    }

    /** `cbor_encode_double`: the initial byte 0xfb and the 64-bit pattern, big-endian. */
    method EncodeDouble(bits: nat) returns (err: CborError)
      requires Valid() && bits < ArgumentLimit
      modifies this, sink, sink.buffer
      ensures Valid() && sink.buffer == old(sink.buffer) && added == old(added) + 1
      ensures Pow256(8) == ArgumentLimit && sink.written == old(sink.written) + [0xfb] + BigEndian(bits, 8)
      ensures err == if sink.counting then ErrorOutOfMemory else NoError
    {
      Pow256Values();
      added := added + 1;
      err := sink.Append([0xfb] + BigEndian(bits, 8));
    }

    /**
     * `cbor_encode_text_string` / `cbor_encode_byte_string`: a head with
     * the length, then the first `len` bytes of `s`.
     */
    method EncodeString(major: nat, s: seq<byte>, len: nat) returns (err: CborError)
      requires Valid() && (major == 2 || major == 3) && len <= |s| && len < ArgumentLimit
      modifies this, sink, sink.buffer
      ensures Valid() && sink.buffer == old(sink.buffer) && added == old(added) + 1
      ensures sink.written == old(sink.written) + Head(major, len) + s[..len]
      ensures err == if sink.counting then ErrorOutOfMemory else NoError
    {
      added := added + 1;
      err := sink.Append(Head(major, len));
      err := sink.Append(s[..len]);
    }

    /**
     * `cbor_encoder_create_array` / `cbor_encoder_create_map`: count the
     * container as one item here, write its head, and return the encoder
     * for its items (twice the pair count for a map).
     */
    method CreateContainer(major: nat, len: nat) returns (child: CborEncoder, err: CborError)
      requires Valid() && (major == 4 || major == 5) && len < ArgumentLimit
      modifies this, sink, sink.buffer
      ensures Valid() && sink.buffer == old(sink.buffer) && added == old(added) + 1
      ensures sink.written == old(sink.written) + Head(major, len)
      ensures err == if sink.counting then ErrorOutOfMemory else NoError
      ensures fresh(child) && child.sink == sink && child.added == 0
      ensures child.declared == if major == 5 then 2 * len else len
    {
      added := added + 1;
      child := new CborEncoder.Container(sink, if major == 5 then 2 * len else len);
      err := sink.Append(Head(major, len));
    }

    /**
     * `cbor_encoder_close_container`: a wrong number of items is an
     * error; otherwise out-of-memory is reported while the sink counts.
     */
    method CloseContainer(child: CborEncoder) returns (err: CborError)
      requires Valid() && child.sink == sink
      ensures child.added > child.declared ==> err == ErrorTooManyItems
      ensures child.added < child.declared ==> err == ErrorTooFewItems
      ensures child.added == child.declared ==> err == if sink.counting then ErrorOutOfMemory else NoError
    {
      if child.added > child.declared {
        err := ErrorTooManyItems;
      } else if child.added < child.declared {
        err := ErrorTooFewItems;
      } else if sink.counting {
        err := ErrorOutOfMemory;
      } else {
        err := NoError;
      }
    }
  }
}
