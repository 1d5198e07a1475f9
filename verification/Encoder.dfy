/** PacketEncoder: a growing buffer with a cursor, and fields patched in after their contents. */
module Encoder {
  import opened Bytes
  import opened Crc32
  import opened Wire

  /** s with data written at an offset: at the end it extends s, inside it replaces bytes. */
  function Overwrite(s: seq<byte>, at: nat, data: seq<byte>): (r: seq<byte>)
    requires at == |s| || at + |data| <= |s|
    ensures |r| == if at == |s| then |s| + |data| else |s|
  {
    s[..at] + data + (if at == |s| then [] else s[at + |data|..])
  }

  /** Patching a reserved four-byte field leaves what is before and after it. */
  lemma PatchedField(before: seq<byte>, full: seq<byte>, body: seq<byte>, field: seq<byte>)
    requires |field| == 4 && |full| == |before| + 4 + |body|
    requires full[..|before|] == before && full[|before| + 4..] == body
    ensures Overwrite(full, |before|, field) == before + (field + body)
  {}

  lemma EncodeWrap(v: int, k: nat)
    ensures EncodeInt(Wrap(v, k), k) == EncodeInt(v, k)
  {
    var p: int := Pow256(k);
    var u := v % p;
    assert 0 <= u < p;
    if 2 * u >= p { ModShift(u - p, p); } else { ModSmall(u, p); }
  }

  class PacketEncoder {
    var buff: array<byte>
    var cursor: nat
    var size: nat
    var err: Err
    // Bytes moved by all resizes so far, and the capacity the encoder started with.
    ghost var moved: nat
    ghost const initial: nat

    ghost predicate Valid()
      reads this
    {
      && cursor <= size <= buff.Length
      && 4 <= size
      && 0 < initial
      && moved + initial <= buff.Length
    }

    ghost function Contents(): (s: seq<byte>)
      requires Valid()
      reads this, buff
      ensures |s| == size
    {
      buff[..size]
    }

    /** What the encoder stands for: the packet so far, or the error that stopped it. */
    ghost function State(): Encoded
      requires Valid()
      reads this, buff
    {
      if err == ErrNone then Packet(Contents()) else Failed(err)
    }

    predicate Ok()
      reads this
    {
      err == ErrNone
    }

    constructor (bufferSize: nat)
      ensures Valid() && fresh(buff)
      ensures err == ErrNone && cursor == size == 4 && buff.Length == initial == bufferSize + 4 && moved == 0
    {
      buff := new byte[bufferSize + 4](i => 0);
      cursor, size := 4, 4;
      err := ErrNone;
      moved := 0;
      initial := bufferSize + 4;
    }

    /** Doubles the buffer until it has room for len more bytes. */
    method EnsureSpaceFor(len: nat)
      requires Valid()
      modifies this`buff, this`moved
      ensures Valid() && (buff == old(buff) || fresh(buff))
      ensures size + len <= buff.Length
      ensures old(buff.Length) >= size + len ==> buff == old(buff) && moved == old(moved)
      ensures old(buff.Length) < size + len ==> old(buff.Length) < buff.Length < 2 * (size + len)
      ensures Contents() == old(Contents())
    {
      if buff.Length < size + len {
        var grown := 2 * buff.Length;
        while grown < size + len
          invariant 2 * buff.Length <= grown < 2 * (size + len)
          decreases size + len - grown
        {
          grown := 2 * grown;
        }
        var bigger := new byte[grown](i => 0);
        forall i | 0 <= i < buff.Length { bigger[i] := buff[i]; }
        moved := moved + buff.Length;
        buff := bigger;
      }
    }

    /** A raw store at the cursor followed by update_size_after_write. */
    method Store(data: seq<byte>)
      requires Valid() && size + |data| <= buff.Length
      requires cursor == size || cursor + |data| <= size
      modifies this`cursor, this`size, buff
      ensures Valid()
      ensures Contents() == Overwrite(old(Contents()), old(cursor), data)
      ensures cursor == old(cursor) + |data|
    {
      forall i | 0 <= i < |data| { buff[cursor + i] := data[i]; }
      if cursor == size {
        size := size + |data|;
      }
      cursor := cursor + |data|;
    }

    method WriteNum(value: int, width: nat)
      requires Valid() && (cursor == size || cursor + width <= size)
      modifies this, buff
      ensures Valid() && (buff == old(buff) || fresh(buff)) && err == old(err)
      ensures buff.Length >= old(buff.Length)
      ensures !Ok() ==> cursor == old(cursor) && Contents() == old(Contents())
      ensures Ok() ==> cursor == old(cursor) + width
      ensures Ok() ==> Contents() == Overwrite(old(Contents()), old(cursor), EncodeInt(value, width))
    {
      if !Ok() { return; }
      EnsureSpaceFor(width);
      Store(EncodeInt(value, width));
    }

    /** io(slice) and io_bytes(slice, COMP_None): a prefix of the given width, -1 for empty. */
    method WriteSized(value: seq<byte>, width: nat, limit: nat)
      requires Valid() && cursor == size
      modifies this, buff
      ensures Valid() && (buff == old(buff) || fresh(buff)) && cursor == size
      ensures State() ==
        Then(old(State()), if |value| > limit then Failed(ErrInvalidValue) else Packet(Sized(value, width)))
    {
      if !Ok() { return; }
      if |value| > limit {
        err := ErrInvalidValue;
        return;
      }
      EnsureSpaceFor(width + |value|);
      var len := |value|;
      if len == 0 {
        len := -1;
      }
      WriteNum(len, width);
      if len < 0 { return; }
      Store(value);
    }

    /** start_length and start_crc: reserve four bytes to be patched later. */
    method StartField() returns (field: nat)
      requires Valid() && cursor == size
      modifies this, buff
      ensures Valid() && (buff == old(buff) || fresh(buff)) && err == old(err)
      ensures field == old(cursor) && cursor == size
      ensures !Ok() ==> Contents() == old(Contents())
      ensures Ok() ==> size == old(size) + 4 && Contents()[..old(size)] == old(Contents())
      ensures buff.Length >= old(buff.Length)
    {
      field := cursor;
      if !Ok() { return; }
      EnsureSpaceFor(4);
      size := size + 4;
      cursor := cursor + 4;
    }

    method Patch(field: nat, value: int)
      requires Valid() && Ok() && cursor == size && field + 4 <= size
      modifies this, buff
      ensures Valid() && (buff == old(buff) || fresh(buff)) && Ok() && cursor == old(cursor) == size
      ensures Contents() == Overwrite(old(Contents()), field, EncodeInt(value, 4))
    {
      var current := cursor;
      cursor := field;
      WriteNum(value, 4);
      cursor := current;
    }

    /** The packet is before, then the reserved field, then body. */
    ghost predicate Reserved(field: nat, before: seq<byte>, body: seq<byte>)
      requires Valid()
      reads this, buff
    {
      && cursor == size == field + 4 + |body|
      && |before| == field
      && Contents()[..field] == before
      && Contents()[field + 4..] == body
    }

    method EndLength(field: nat, ghost before: seq<byte>, ghost body: seq<byte>)
      requires Valid() && (Ok() ==> Reserved(field, before, body))
      modifies this, buff
      ensures Valid() && (buff == old(buff) || fresh(buff)) && err == old(err) && cursor == old(cursor)
        && size == old(size)
      ensures Ok() ==> Contents() == before + (EncodeInt(|body|, 4) + body)
    {
      if !Ok() { return; }
      PatchedField(before, Contents(), body, EncodeInt(|body|, 4));
      EncodeWrap(cursor - field - 4, 4);
      Patch(field, Wrap(cursor - field - 4, 4));
    }

    method EndCrc(field: nat, ghost before: seq<byte>, ghost body: seq<byte>)
      requires Valid() && (Ok() ==> Reserved(field, before, body) && body != [])
      modifies this, buff
      ensures Valid() && (buff == old(buff) || fresh(buff)) && err == old(err) && cursor == old(cursor)
        && size == old(size)
      ensures Ok() ==> Contents() == before + (EncodeInt(Crc(body), 4) + body)
    {
      if !Ok() { return; }
      var crc := Crc(buff[field + 4..cursor]);
      assert buff[field + 4..cursor] == body;
      PatchedField(before, Contents(), body, EncodeInt(crc, 4));
      Patch(field, crc);
    }

    /** io_bytes with gzip or snappy: the output goes straight into the reserved worst case. */
    method WriteCompressed(libs: Libraries, gzip: bool, raw: seq<byte>)
      requires Valid() && cursor == size && Lawful(libs)
      modifies this, buff
      ensures Valid() && (buff == old(buff) || fresh(buff)) && cursor == size
      ensures State() == Then(old(State()), EncodeItem(libs, Packed(gzip, raw)))
    {
      if !Ok() { return; }
      var lib := Lib(libs, gzip);
      WriteOutput(lib.compress(raw), lib.bound(|raw|), gzip);
    }

    method WriteOutput(out: seq<byte>, worst: nat, gzip: bool)
      requires Valid() && cursor == size && Ok() && |out| <= worst
      modifies this, buff
      ensures Valid() && (buff == old(buff) || fresh(buff)) && cursor == size
      ensures State() == Then(old(State()),
        if !gzip && |out| < 1 then Failed(ErrCompressFail) else Packet(EncodeInt(|out|, 4) + out))
    {
      EnsureSpaceFor(4 + worst);
      var field := StartField();
      if !gzip && |out| < 1 {
        err := ErrCompressFail;
        return;
      }
      Store(out);
      EndLength(field, old(Contents()), out);
    }

    /** update_length: the four bytes at the head of the packet. */
    method UpdateLength(extra: nat)
      requires Valid() && cursor == size && Ok()
      modifies this, buff
      ensures Valid() && (buff == old(buff) || fresh(buff)) && Ok() && cursor == size
      ensures Contents() == Overwrite(old(Contents()), 0, EncodeInt(size - 4 + extra, 4))
    {
      EncodeWrap(size - 4 + extra, 4);
      Patch(0, Wrap(size - 4 + extra, 4));
    }

    /** get_as_slice(false): everything after the length prefix. */
    method Body() returns (s: seq<byte>)
      requires Valid()
      ensures s == Contents()[4..]
    {
      s := buff[4..size];
    }

    /** get_as_buffer_sequence_head: the packet, its prefix counting extra bytes sent after it. */
    method Head(extra: nat) returns (s: seq<byte>)
      requires Valid() && cursor == size && Ok()
      modifies this, buff
      ensures Valid() && Ok() && s == Contents() == EncodeInt(size - 4 + extra, 4) + old(Contents())[4..]
    {
      UpdateLength(extra);
      s := buff[..size];
    }

    /**
     Any run of writes with well-nested length and CRC fields. Whatever buffer size the
     encoder was made with, the packet grows by exactly the bytes of the pure format, so
     every length field holds the number of bytes it spans and every CRC still matches the
     final bytes: no later patch lands in a region already checksummed.
     */
    method WriteItem(libs: Libraries, item: Item)
      requires Valid() && cursor == size && Lawful(libs) && ChecksNonEmpty(item)
      modifies this, buff
      ensures Valid() && (buff == old(buff) || fresh(buff)) && cursor == size
      ensures State() == Then(old(State()), EncodeItem(libs, item))
      decreases item, 1
    {
      match item
      case Num(v, k) => WriteNum(v, k);
      case Str(s) => WriteSized(s, 2, MAX_STRING);
      case Blob(s) => WriteSized(s, 4, MAX_BYTES);
      case Packed(gzip, raw) => WriteCompressed(libs, gzip, raw);
      case Len(body) => WriteField(libs, body, false);
      case Check(body) => WriteField(libs, body, true);
    }

    method WriteField(libs: Libraries, body: seq<Item>, check: bool)
      requires Valid() && cursor == size && Lawful(libs) && AllChecksNonEmpty(body)
      requires check ==> body != [] && body[0].Num? && body[0].width > 0
      modifies this, buff
      ensures Valid() && (buff == old(buff) || fresh(buff)) && cursor == size
      ensures State() == Then(old(State()), EncodeItem(libs, if check then Check(body) else Len(body)))
      decreases body, 2
    {
      if check { NonEmptyBody(libs, body); }
      hide Encode, Crc, EncodeInt, Lawful, AllChecksNonEmpty, Reserved;
      var field := BeginField(libs, body);
      EndField(field, old(Contents()), if Ok() then Encode(libs, body).bytes else [], check);
    }

    /** A reserved field and the fields behind it. */
    method BeginField(libs: Libraries, body: seq<Item>) returns (field: nat)
      requires Valid() && cursor == size && Lawful(libs) && AllChecksNonEmpty(body)
      modifies this, buff
      ensures Valid() && (buff == old(buff) || fresh(buff)) && cursor == size
      ensures Ok() <==> old(Ok()) && Encode(libs, body).Packet?
      ensures Ok() ==> Reserved(field, old(Contents()), Encode(libs, body).bytes)
      ensures !Ok() ==> State() == Then(old(State()), Encode(libs, body))
      decreases body, 1
    {
      hide Encode, Lawful, AllChecksNonEmpty;
      field := StartField();
      WriteItems(libs, body);
    }

    method EndField(field: nat, ghost before: seq<byte>, ghost body: seq<byte>, check: bool)
      requires Valid() && cursor == size && (Ok() ==> Reserved(field, before, body) && (check ==> body != []))
      modifies this, buff
      ensures Valid() && (buff == old(buff) || fresh(buff)) && err == old(err) && cursor == size
      ensures Ok() ==> Contents() == before + (EncodeInt(if check then Crc(body) else |body|, 4) + body)
    {
      hide Crc, EncodeInt, Reserved;
      if check {
        EndCrc(field, before, body);
      } else {
        EndLength(field, before, body);
      }
    }

    method WriteItems(libs: Libraries, items: seq<Item>)
      requires Valid() && cursor == size && Lawful(libs) && AllChecksNonEmpty(items)
      modifies this, buff
      ensures Valid() && (buff == old(buff) || fresh(buff)) && cursor == size
      ensures State() == Then(old(State()), Encode(libs, items))
      decreases items, 0
    {
      if items == [] {
        ThenUnit(State());
        return;
      }
      WriteItem(libs, items[0]);
      WriteItems(libs, items[1..]);
      ThenAssociative(old(State()), EncodeItem(libs, items[0]), Encode(libs, items[1..]));
    }
  }

  lemma NonEmptyBody(libs: Libraries, body: seq<Item>)
    requires body != [] && body[0].Num? && body[0].width > 0
    ensures Encode(libs, body).Packet? ==> |Encode(libs, body).bytes| > 0
  {}
}
