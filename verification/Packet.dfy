/**
 * The packet buffer: one 8192-byte array with a cursor and a size, both `uint16_t`.
 * `Image` is the value of a packet; `ServerPacket` is the object that updates it in place.
 */
module Packet {
  import opened Bytes

  datatype Image = Image(bytes: seq<Byte>, off: nat, size: nat)

  /**
   * What every packet object keeps. No writer ever stores a non-zero byte at the last index,
   * so reading a C string from inside the buffer always meets a NUL inside the buffer.
   */
  predicate Sound(im: Image) {
    && |im.bytes| == BUFFER_SIZE
    && im.off < U16_LIMIT
    && im.size < U16_LIMIT
    && im.bytes[BUFFER_SIZE - 1] == 0
  }

  const EMPTY: Image := Image(Zeros(BUFFER_SIZE), 0, 0)

  // ---------------------------------------------------------------- writers

  /** `append<T>` and `appendArray`. */
  function Appended(im: Image, data: seq<Byte>): (r: Image)
    requires Sound(im)
    ensures Sound(r)
  {
    if im.off + |data| < BUFFER_SIZE then
      Image(Splice(im.bytes, im.off, data), im.off + |data|, Wrap16(im.size + |data|))
    else
      im
  }

  /** `appendString(cmd, width)`: the guard looks at the text, the cursor moves by the width. */
  function AppendedString(im: Image, text: seq<Byte>, width: nat): (r: Image)
    requires Sound(im)
    ensures Sound(r)
  {
    if im.off + |text| < BUFFER_SIZE then
      Image(Splice(im.bytes, im.off, CString(text) + [0]),
            Wrap16(im.off + width), Wrap16(im.size + width))
    else
      im
  }

  /** `setArray`. */
  function Placed(im: Image, data: seq<Byte>, at: nat): (r: Image)
    requires Sound(im)
    ensures Sound(r)
  {
    if at + |data| < BUFFER_SIZE then im.(bytes := Splice(im.bytes, at, data)) else im
  }

  /** `setType` and `setSubType` write a `uint16_t` at a fixed place. */
  function WithWord(im: Image, at: nat, v: nat): (r: Image)
    requires Sound(im) && at + 2 < BUFFER_SIZE && v < U16_LIMIT
    ensures Sound(r)
  {
    im.(bytes := Splice(im.bytes, at, WordBytes(v)))
  }

  /** The packet every reply starts from: cleared, cursor and size behind the 6-byte head. */
  function Begun(ty: nat, subtype: nat): (r: Image)
    requires ty < U16_LIMIT && subtype < U16_LIMIT
    ensures Sound(r)
  {
    WithWord(WithWord(EMPTY.(off := 6, size := 6), 2, ty), 4, subtype)
  }

  // ---------------------------------------------------------------- readers

  /** `get<T>()`: the value and the new cursor; past the end it is 0 and the cursor stays. */
  function ReadLE(bytes: seq<Byte>, off: nat, width: nat): (r: (nat, nat))
    requires |bytes| == BUFFER_SIZE
  {
    if off + width > BUFFER_SIZE then (0, off) else (Value(bytes[off..off + width]), off + width)
  }

  /** `getArray(in, size)`: the strict bound leaves the destination as it was. */
  function ReadArray(bytes: seq<Byte>, off: nat, destination: seq<Byte>): (r: (seq<Byte>, nat))
    requires |bytes| == BUFFER_SIZE
    ensures |r.0| == |destination|
  {
    var n := |destination|;
    if off + n < BUFFER_SIZE then (bytes[off..off + n], off + n) else (destination, off)
  }

  /**
   * `getStringA(size)`: the text is re-read as a NUL-terminated string whatever the width,
   * because searching for the empty string always succeeds.
   */
  function ReadString(bytes: seq<Byte>, off: nat, width: nat): (r: (seq<Byte>, nat))
    requires |bytes| == BUFFER_SIZE
  {
    if off + width > BUFFER_SIZE then ([], off) else (CString(bytes[off..]), off + width)
  }

  // ---------------------------------------------------------------- laws of the codec

  /** A C string that starts inside a sound buffer ends inside it. */
  lemma StringStaysInside(im: Image, off: nat)
    requires Sound(im) && off < BUFFER_SIZE
    ensures off + |CString(im.bytes[off..])| < BUFFER_SIZE
    ensures im.bytes[off + |CString(im.bytes[off..])|] == 0
  {
  }

  /** Reading where an integer was stored gives it back. */
  lemma ReadLEAt(bytes: seq<Byte>, off: nat, width: nat, v: nat)
    requires |bytes| == BUFFER_SIZE && v < Pow256(width)
    requires At(bytes, off, LE(width, v))
    ensures ReadLE(bytes, off, width) == (v, off + width)
  {
    ValueOfLE(width, v);
  }

  /** A fixed-width text field as the builders leave it on a cleared buffer. */
  function Field(text: seq<Byte>, width: nat): (r: seq<Byte>)
    requires |text| <= width
    ensures |r| == width
  {
    text + Zeros(width - |text|)
  }

  /** A text shorter than its field and free of NULs is read back. */
  lemma ReadStringAt(bytes: seq<Byte>, off: nat, width: nat, text: seq<Byte>)
    requires |bytes| == BUFFER_SIZE && 0 !in text && |text| < width
    requires At(bytes, off, Field(text, width))
    ensures ReadString(bytes, off, width) == (text, off + width)
  {
    FieldStarts(bytes, off, width, text);
    CStringIs(bytes, off, |text|);
  }

  lemma FieldStarts(bytes: seq<Byte>, off: nat, width: nat, text: seq<Byte>)
    requires |text| < width && 0 !in text && At(bytes, off, Field(text, width))
    ensures bytes[off..off + |text|] == text && bytes[off + |text|] == 0
    ensures forall i :: off <= i < off + |text| ==> bytes[i] != 0
  {
    var field, stored := Field(text, width), bytes[off..off + width];
    assert stored[..|text|] == bytes[off..off + |text|];
    assert field[..|text|] == text && field[|text|] == 0;
    forall i | off <= i < off + |text| ensures bytes[i] != 0 {
      assert bytes[i] == stored[i - off] == text[i - off];
    }
  }

  // ---------------------------------------------------------------- building on a clear packet

  /**
   * The cursor and the size agree, the fields written since the head are `fields`,
   * and everything behind them is still clear.
   */
  predicate Built(im: Image, fields: seq<Byte>) {
    && Sound(im)
    && im.off == im.size == 6 + |fields|
    && At(im.bytes, 6, fields)
    && forall i :: im.off <= i < BUFFER_SIZE ==> im.bytes[i] == 0
  }

  lemma BegunIsBuilt(ty: nat, subtype: nat)
    requires ty < U16_LIMIT && subtype < U16_LIMIT
    ensures Built(Begun(ty, subtype), [])
    ensures Word(Begun(ty, subtype).bytes, 2) == ty && Word(Begun(ty, subtype).bytes, 4) == subtype
  {
  }

  lemma BuiltAppended(im: Image, fields: seq<Byte>, data: seq<Byte>)
    requires Built(im, fields) && im.off + |data| < BUFFER_SIZE
    ensures Built(Appended(im, data), fields + data)
  {
  }

  lemma BuiltAppendedString(im: Image, fields: seq<Byte>, text: seq<Byte>, width: nat)
    requires Built(im, fields) && im.off + width < BUFFER_SIZE
    requires 0 !in text && |text| < width
    ensures Built(AppendedString(im, text, width), fields + Field(text, width))
  {
  }

  // ---------------------------------------------------------------- the object

  class ServerPacket {
    const buffer: array<Byte>
    var pOffset: nat
    var pSize: nat

    ghost predicate Valid()
      reads this, buffer
    {
      buffer.Length == BUFFER_SIZE && Sound(Img())
    }

    ghost function Img(): Image
      reads this, buffer
    {
      Image(buffer[..], pOffset, pSize)
    }

    constructor ()
      ensures Valid() && Img() == EMPTY && fresh(buffer)
    {
      buffer := new Byte[BUFFER_SIZE](_ => 0);
      pOffset, pSize := 0, 0;
      new;
      assert buffer[..] == Zeros(BUFFER_SIZE);
    }

    method ClearBuffer()
      requires buffer.Length == BUFFER_SIZE
      modifies this, buffer
      ensures Valid() && Img() == EMPTY
    {
      pOffset, pSize := 0, 0;
      forall i | 0 <= i < buffer.Length { buffer[i] := 0; }
      assert buffer[..] == Zeros(BUFFER_SIZE);
    }

    /** `CopyMemory` into the buffer. */
    method Store(at: nat, data: seq<Byte>)
      requires buffer.Length == BUFFER_SIZE && at + |data| <= BUFFER_SIZE
      modifies buffer
      ensures buffer[..] == Splice(old(buffer[..]), at, data)
    {
      forall i | 0 <= i < |data| { buffer[at + i] := data[i]; }
    }

    method SetType(v: nat)
      requires Valid() && v < U16_LIMIT
      modifies buffer
      ensures Valid() && Img() == WithWord(old(Img()), 2, v)
    {
      Store(2, WordBytes(v));
    }

    method SetSubType(v: nat)
      requires Valid() && v < U16_LIMIT
      modifies buffer
      ensures Valid() && Img() == WithWord(old(Img()), 4, v)
    {
      Store(4, WordBytes(v));
    }

    /** The five calls every reply handler opens with. */
    method Begin(ty: nat, subtype: nat)
      requires Valid() && ty < U16_LIMIT && subtype < U16_LIMIT
      modifies this, buffer
      ensures Valid() && Img() == Begun(ty, subtype)
    {
      ClearBuffer();
      pSize := 6;
      pOffset := 6;
      SetType(ty);
      SetSubType(subtype);
    }

    /** `append<T>` with `width == sizeof(T)`. */
    method Append(width: nat, v: nat)
      requires Valid() && width in {1, 2, 4, 8} && v < Pow256(width)
      modifies this, buffer
      ensures Valid() && Img() == Appended(old(Img()), LE(width, v))
      ensures var off := old(pOffset);
              if off + width < 8192
              then pOffset == off + width && pSize == (old(pSize) + width) % 65536
                   && buffer[..] == old(buffer[..off]) + LE(width, v) + old(buffer[off + width..])
              else Img() == old(Img())
    {
      if pOffset + width < BUFFER_SIZE {
        Store(pOffset, LE(width, v));
        pOffset := pOffset + width;
        pSize := Wrap16(pSize + width);
      }
    }

    method AppendArray(data: seq<Byte>)
      requires Valid()
      modifies this, buffer
      ensures Valid() && Img() == Appended(old(Img()), data)
      ensures var off := old(pOffset);
              if off + |data| < 8192
              then pOffset == off + |data| && pSize == (old(pSize) + |data|) % 65536
                   && buffer[..] == old(buffer[..off]) + data + old(buffer[off + |data|..])
              else Img() == old(Img())
    {
      if pOffset + |data| < BUFFER_SIZE {
        Store(pOffset, data);
        pOffset := pOffset + |data|;
        pSize := Wrap16(pSize + |data|);
      }
    }

    method AppendString(text: seq<Byte>, width: nat)
      requires Valid()
      modifies this, buffer
      ensures Valid() && Img() == AppendedString(old(Img()), text, width)
      ensures var off, shown := old(pOffset), CString(text) + [0];
              if off + |text| < 8192
              then pOffset == (off + width) % 65536 && pSize == (old(pSize) + width) % 65536
                   && buffer[..] == old(buffer[..off]) + shown + old(buffer[off + |shown|..])
              else Img() == old(Img())
    {
      if pOffset + |text| < BUFFER_SIZE {
        Store(pOffset, CString(text) + [0]);
        pOffset := Wrap16(pOffset + width);
        pSize := Wrap16(pSize + width);
      }
    }

    method SetArray(data: seq<Byte>, at: nat)
      requires Valid()
      modifies buffer
      ensures Valid() && Img() == Placed(old(Img()), data, at)
      ensures buffer[..] == if at + |data| < 8192 then old(buffer[..at]) + data + old(buffer[at + |data|..])
                            else old(buffer[..])
    {
      if at + |data| < BUFFER_SIZE {
        Store(at, data);
      }
    }

    /** `addSize(n)` and `addOffset(n)`. */
    method Advance(n: nat)
      requires Valid()
      modifies this
      ensures Valid() && Img() == old(Img()).(off := Wrap16(old(pOffset) + n), size := Wrap16(old(pSize) + n))
    {
      pSize := Wrap16(pSize + n);
      pOffset := Wrap16(pOffset + n);
    }

    method Get(width: nat) returns (v: nat)
      requires Valid()
      modifies this
      ensures Valid() && Img().(off := old(pOffset)) == old(Img())
      ensures (v, pOffset) == ReadLE(buffer[..], old(pOffset), width)
      ensures var off := old(pOffset);
              if off + width <= 8192 then v == Value(buffer[off..off + width]) && pOffset == off + width
              else v == 0 && pOffset == off
    {
      if pOffset + width > BUFFER_SIZE {
        v := 0;
      } else {
        v := Value(buffer[pOffset..pOffset + width]);
        assert buffer[..][pOffset..pOffset + width] == buffer[pOffset..pOffset + width];
        pOffset := pOffset + width;
      }
    }

    /** The bytes the destination holds afterwards, given what it held before. */
    method GetArray(destination: seq<Byte>) returns (data: seq<Byte>)
      requires Valid()
      modifies this
      ensures Valid() && Img().(off := old(pOffset)) == old(Img())
      ensures (data, pOffset) == ReadArray(buffer[..], old(pOffset), destination)
      ensures var off, n := old(pOffset), |destination|;
              if off + n < 8192 then data == buffer[off..off + n] && pOffset == off + n
              else data == destination && pOffset == off
    {
      data := destination;
      if pOffset + |destination| < BUFFER_SIZE {
        data := buffer[pOffset..pOffset + |destination|];
        assert buffer[..][pOffset..pOffset + |destination|] == data;
        pOffset := pOffset + |destination|;
      }
    }

    method GetStringA(width: nat) returns (text: seq<Byte>)
      requires Valid() && width > 0
      modifies this
      ensures Valid() && Img().(off := old(pOffset)) == old(Img())
      ensures (text, pOffset) == ReadString(buffer[..], old(pOffset), width)
      ensures var off := old(pOffset);
              if off + width <= 8192 then text == CString(buffer[off..]) && pOffset == off + width
              else text == [] && pOffset == off
      ensures old(pOffset) + width <= BUFFER_SIZE ==> old(pOffset) + |text| < BUFFER_SIZE
    {
      if pOffset + width > BUFFER_SIZE {
        text := [];
      } else {
        StringStaysInside(Img(), pOffset);
        text := CString(buffer[pOffset..]);
        assert buffer[..][pOffset..] == buffer[pOffset..];
        pOffset := pOffset + width;
      }
    }
  }
}
