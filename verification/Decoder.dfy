/**
 PacketDecoder: reads with bounds checks against a readable length. The checks subtract
 unsigned and the field starts advance the cursor unchecked, so the cursor can pass the
 readable end; what happens then (vector::at throwing) is part of the model, as Fault.
 */
module Decoder {
  import opened Bytes
  import opened Crc32
  import opened Wire

  /** buff_, size_, cursor_, err_ and the last element of decompress_buffs_. */
  datatype Dec = Dec(buf: seq<byte>, size: nat, cursor: nat, err: Err, last: Option<seq<byte>>) {
    predicate Ok() { err == ErrNone }
  }

  function FromBuffer(buf: seq<byte>): Dec {
    Dec(buf, |buf|, 0, ErrNone, None)
  }

  function Skip(d: Dec, n: nat): Dec {
    d.(cursor := d.cursor + n)
  }

  /** can_read: both the request and the remainder are size_t values. */
  function CanRead(d: Dec, n: int): Dec {
    if d.Ok() && n % TWO64 > (d.size - d.cursor) % TWO64 then d.(err := ErrTruncated) else d
  }

  function ReadNum(d: Dec, k: nat): (r: (Dec, int))
    ensures r.0.buf == d.buf && r.0.size == d.size && r.0.last == d.last
    ensures r.0.Ok() ==> d.Ok() && r.0 == Skip(d, k) && r.0.cursor <= |d.buf|
    ensures !r.0.Ok() ==> r.0.cursor == d.cursor && r.1 == 0
  {
    var c := CanRead(d, k);
    if !c.Ok() then (c, 0)
    else if d.cursor + k > |d.buf| then (d.(err := Fault), 0)
    else (Skip(d, k), DecodeInt(d.buf[d.cursor..d.cursor + k]))
  }

  /** The len bytes at the cursor, after can_read and vector::at. */
  function ReadSlice(d: Dec, len: int): (r: (Dec, seq<byte>))
    ensures r.0.buf == d.buf && r.0.size == d.size && r.0.last == d.last
    ensures r.0.Ok() ==> d.Ok() && len >= 0 && r.0 == Skip(d, len) && r.0.cursor <= |d.buf|
    ensures !r.0.Ok() ==> r.0.cursor == d.cursor
  {
    var c := CanRead(d, len);
    if !c.Ok() then (c, [])
    else if len < 0 || d.cursor >= |d.buf| || d.cursor + len > |d.buf| then (d.(err := Fault), [])
    else (Skip(d, len), d.buf[d.cursor..d.cursor + len])
  }

  /** io(slice) and io_bytes(slice, COMP_None): -1 is the null value. */
  function ReadSized(d: Dec, k: nat): (r: (Dec, seq<byte>))
    ensures r.0.buf == d.buf && r.0.size == d.size && r.0.last == d.last
    ensures r.0.Ok() ==> d.Ok() && d.cursor + k <= r.0.cursor <= |d.buf|
  {
    var (d1, len) := ReadNum(d, k);
    if d1.Ok() && len == -1 then (d1, []) else ReadSlice(d1, len)
  }

  const CHUNK: nat := 128 * 1024

  function Zeros(n: nat): (s: seq<byte>)
    ensures |s| == n
    ensures forall i :: 0 <= i < n ==> s[i] == 0
  {
    seq(n, i requires 0 <= i < n => 0)
  }

  /** How many zero bytes the inflate buffer holds beyond the output. */
  function Padding(n: nat): (p: nat)
    ensures 1 <= p <= CHUNK
  {
    CHUNK - n % CHUNK
  }

  /** The buffer inflate leaves: whole chunks, never cut back to the bytes written. */
  function Padded(out: seq<byte>): seq<byte> {
    out + Zeros(Padding(|out|))
  }

  /** io_bytes for a message value: the field is decompressed as the attributes say. */
  function ReadValue(libs: Libraries, d: Dec, c: CompressionType): (r: (Dec, seq<byte>))
    ensures r.0.buf == d.buf && r.0.size == d.size
    ensures r.0.Ok() ==> d.Ok() && d.cursor + 4 <= r.0.cursor <= |d.buf|
  {
    if c == CompNone then ReadSized(d, 4) else
    var (d1, len) := ReadNum(d, 4);
    if d1.Ok() && len == -1 then (d1, [])
    else if c == CompInvalid then (CanRead(d1, len), [])
    else
      var (d2, raw) := ReadSlice(d1, len);
      if !d2.Ok() then (d2, [])
      else match Lib(libs, c == CompGzip).decompress(raw)
        case None => (d1.(err := ErrCompressFail), [])
        case Some(out) =>
          if c == CompGzip then (d2.(last := Some(Padded(out))), out)
          else if out == [] then (d1.(err := Fault), [])
          else (d2.(last := Some(out)), out)
  }

  /**
   end_crc: recompute over what was read since the field and compare. A stored value that
   cannot be read is compared all the same, as whatever was in the variable.
   */
  function EndCrc(d: Dec, field: nat): (r: Dec)
    ensures r.buf == d.buf && r.size == d.size && r.last == d.last && r.cursor == d.cursor
    ensures r.Ok() ==> d.Ok() && d.cursor <= |d.buf|
  {
    if !d.Ok() then d
    else if !(field + 4 < d.cursor <= |d.buf|) then d.(err := Fault)
    else
      var (g, given) := ReadNum(d.(cursor := field), 4);
      if g.Ok() && given == Crc(d.buf[field + 4..d.cursor]) then d else d.(err := ErrChecksumFail)
  }

  // ---------- reading back what the format puts on the wire ----------

  /** The decoder is good and the next bytes, all readable, are s. */
  predicate At(d: Dec, s: seq<byte>) {
    && d.Ok()
    && d.cursor + |s| <= d.size <= |d.buf| < TWO64
    && d.buf[d.cursor..d.cursor + |s|] == s
  }

  lemma AtOk(d: Dec, s: seq<byte>)
    requires At(d, s)
    ensures d.Ok()
  {}

  lemma AtWhole(buf: seq<byte>)
    requires |buf| < TWO64
    ensures At(FromBuffer(buf), buf)
  {}

  lemma AtSkip(d: Dec, a: seq<byte>, b: seq<byte>)
    requires At(d, a + b)
    ensures At(d, a) && At(Skip(d, |a|), b)
  {
    var s := d.buf[d.cursor..d.cursor + |a| + |b|];
    assert s == a + b;
    assert d.buf[d.cursor..d.cursor + |a|] == s[..|a|] == a;
    assert d.buf[d.cursor + |a|..d.cursor + |a| + |b|] == s[|a|..] == b;
  }

  lemma Remaining(d: Dec, n: int)
    requires d.Ok() && d.cursor <= d.size < TWO64 && 0 <= n < TWO64
    ensures CanRead(d, n).Ok() <==> d.cursor + n <= d.size
    ensures !CanRead(d, n).Ok() ==> CanRead(d, n) == d.(err := ErrTruncated)
  {}

  lemma ReadRaw(d: Dec, s: seq<byte>)
    requires At(d, s)
    ensures ReadNum(d, |s|) == (Skip(d, |s|), DecodeInt(s))
  {}

  lemma ReadNumAt(d: Dec, v: int, k: nat, rest: seq<byte>)
    requires k < TWO64 && At(d, EncodeInt(v, k) + rest)
    ensures ReadNum(d, k) == (Skip(d, k), Wrap(v, k)) && At(Skip(d, k), rest)
  {
    AtSkip(d, EncodeInt(v, k), rest);
    Remaining(d, k);
    IntRoundTrip(v, k);
  }

  lemma ReadSliceAt(d: Dec, s: seq<byte>, rest: seq<byte>)
    requires At(d, s + rest) && s != []
    ensures ReadSlice(d, |s|) == (Skip(d, |s|), s) && At(Skip(d, |s|), rest)
  {
    AtSkip(d, s, rest);
    Remaining(d, |s|);
  }

  lemma ReadSizedAt(d: Dec, s: seq<byte>, k: nat, rest: seq<byte>)
    requires 0 < k < TWO64 && Fits(|s|, k) && At(d, Sized(s, k) + rest)
    ensures ReadSized(d, k) == (Skip(d, |Sized(s, k)|), s) && At(Skip(d, |Sized(s, k)|), rest)
  {
    MinusOne(k);
    if s == [] {
      ReadNumAt(d, -1, k, rest);
    } else {
      assert Sized(s, k) + rest == EncodeInt(|s|, k) + (s + rest);
      ReadNumAt(d, |s|, k, s + rest);
      ReadSliceAt(Skip(d, k), s, rest);
    }
  }

  lemma MinusOne(k: nat)
    requires 0 < k
    ensures Fits(-1, k)
  {}

  /** Too few bytes left for a number is a truncation, nothing worse. */
  lemma ReadNumShort(d: Dec, k: nat)
    requires d.Ok() && d.cursor <= d.size < TWO64 && d.size < d.cursor + k && k < TWO64
    ensures ReadNum(d, k) == (d.(err := ErrTruncated), 0)
  {}

  /**
   A string or byte field with any length prefix: -1 is the null value; a negative length or one
   that goes past the readable end is a truncation, found before anything of the value is
   touched; and an empty value at the very end of the buffer is an exception.
   */
  lemma SizedCases(d: Dec, k: nat, prefix: seq<byte>)
    requires (k == 2 || k == 4) && |prefix| == k && At(d, prefix) && 2 * d.size < TWO64
    ensures var len, e := DecodeInt(prefix), Skip(d, k);
      ReadSized(d, k) ==
        if len == -1 then (e, [])
        else if len < 0 || e.cursor + len > d.size then (e.(err := ErrTruncated), [])
        else if e.cursor == |d.buf| then (e.(err := Fault), [])
        else (Skip(e, len), d.buf[e.cursor..e.cursor + len])
  {
    ReadRaw(d, prefix);
    Widths();
    var len, e := DecodeInt(prefix), Skip(d, k);
    assert Fits(len, k);
    hide DecodeInt, ReadNum, FromBigEndian, CanRead;
    if len < 0 { Negative(e, len); } else { Remaining(e, len); }
  }

  lemma Negative(d: Dec, n: int)
    requires d.Ok() && d.cursor <= d.size && 2 * d.size < TWO64 && -TWO32 <= n < 0
    ensures CanRead(d, n) == d.(err := ErrTruncated)
  {
    ModShift(n, TWO64);
  }
}
