/** PacketDecoder as it is written: a cursor moved in place over a shared buffer. */
module PacketDecoders {
  import opened Bytes
  import opened Crc32
  import opened Wire
  import opened Decoder

  class PacketDecoder {
    var buff: seq<byte>
    var size: nat
    var cursor: nat
    var err: Err
    var lastDecompressed: Option<seq<byte>>

    ghost function View(): Dec
      reads this
    {
      Dec(buff, size, cursor, err, lastDecompressed)
    }

    predicate Ok()
      reads this
    {
      err == ErrNone
    }

    constructor (buffer: seq<byte>)
      ensures View() == FromBuffer(buffer)
    {
      buff, size, cursor, err, lastDecompressed := buffer, |buffer|, 0, ErrNone, None;
    }

    method SetReadableLength(length: nat)
      modifies this`size
      ensures View() == old(View()).(size := length)
    {
      size := length;
    }

    /** can_read, on size_t values: the subtraction wraps when the cursor is past the end. */
    method Check(bytes: int) returns (ok: bool)
      modifies this`err
      ensures View() == CanRead(old(View()), bytes) && ok == Ok()
    {
      if Ok() {
        var remaining := (size - cursor) % TWO64;
        if bytes % TWO64 > remaining {
          err := ErrTruncated;
        }
      }
      ok := Ok();
    }

    method GetNum(width: nat) returns (value: int)
      modifies this`err, this`cursor
      ensures (View(), value) == ReadNum(old(View()), width)
    {
      value := 0;
      var ok := Check(width);
      if !ok { return; }
      if cursor + width > |buff| {
        err := Fault;
        return;
      }
      value := DecodeInt(buff[cursor..cursor + width]);
      cursor := cursor + width;
    }

    method GetSlice(len: int) returns (value: seq<byte>)
      modifies this`err, this`cursor
      ensures (View(), value) == ReadSlice(old(View()), len)
    {
      value := [];
      var ok := Check(len);
      if !ok { return; }
      if len < 0 || cursor >= |buff| || cursor + len > |buff| {
        err := Fault;
        return;
      }
      value := buff[cursor..cursor + len];
      cursor := cursor + len;
    }

    method GetSized(width: nat) returns (value: seq<byte>)
      modifies this`err, this`cursor
      ensures (View(), value) == ReadSized(old(View()), width)
    {
      var len := GetNum(width);
      if Ok() && len == -1 { return []; }
      value := GetSlice(len);
    }

    /**
     The inflate loop: one chunk of output space at a time, the buffer extended by a chunk
     whenever it was filled. out is everything the stream inflates to.
     */
    method Inflate(out: seq<byte>) returns (buffer: seq<byte>, written: nat)
      ensures buffer == Padded(out) && written == |out|
    {
      buffer, written := Zeros(CHUNK), 0;
      var full := true;
      while full
        invariant written <= |out| && written <= |buffer|
        invariant full ==> written % CHUNK == 0 && |buffer| == written + CHUNK
        invariant !full ==> written == |out| && |buffer| == written + Padding(written)
        invariant buffer[..written] == out[..written]
        invariant forall i :: written <= i < |buffer| ==> buffer[i] == 0
        decreases |out| - written, full
      {
        var have := if |out| - written < CHUNK then |out| - written else CHUNK;
        NextChunk(written, have);
        buffer := buffer[..written] + out[written..written + have] + buffer[written + have..];
        assert out[..written + have] == out[..written] + out[written..written + have];
        written := written + have;
        full := have == CHUNK;
        if full {
          buffer := buffer + Zeros(CHUNK);
        }
      }
      assert out[..|out|] == out;
      assert buffer == buffer[..written] + buffer[written..];
      assert buffer[written..] == Zeros(Padding(written));
    }

    method GetValue(libs: Libraries, c: CompressionType) returns (value: seq<byte>)
      modifies this`err, this`cursor, this`lastDecompressed
      ensures (View(), value) == ReadValue(libs, old(View()), c)
    {
      if c == CompNone {
        value := GetSized(4);
        return;
      }
      var len := GetNum(4);
      if Ok() && len == -1 { return []; }
      if c == CompInvalid {
        var _ := Check(len);
        return [];
      }
      var start := cursor;
      var raw := GetSlice(len);
      if !Ok() { return []; }
      match Lib(libs, c == CompGzip).decompress(raw)
      case None =>
        cursor, err := start, ErrCompressFail;
        value := [];
      case Some(out) =>
        if c == CompGzip {
          var buffer, written := Inflate(out);
          lastDecompressed := Some(buffer);
          value := buffer[..written];
          assert value == out;
        } else if out == [] {
          cursor, err := start, Fault;
          value := [];
        } else {
          lastDecompressed := Some(out);
          value := out;
        }
    }

    /** start_crc and start_length: step over the field without looking. */
    method StartField() returns (field: nat)
      modifies this`cursor
      ensures field == old(cursor) && View() == Skip(old(View()), 4)
    {
      field := cursor;
      cursor := cursor + 4;
    }

    method FinishCrc(field: nat)
      modifies this`err, this`cursor
      ensures View() == EndCrc(old(View()), field)
    {
      if !Ok() { return; }
      if !(field + 4 < cursor <= |buff|) {
        err := Fault;
        return;
      }
      var calculated := Crc(buff[field + 4..cursor]);
      var current := cursor;
      cursor := field;
      var given := GetNum(4);
      cursor := current;
      if !Ok() || given != calculated {
        err := ErrChecksumFail;
      }
    }
  }

  lemma NextChunk(written: nat, have: nat)
    requires written % CHUNK == 0 && have <= CHUNK
    ensures have == CHUNK ==> (written + have) % CHUNK == 0
    ensures have < CHUNK ==> Padding(written + have) == CHUNK - have
  {}
}
