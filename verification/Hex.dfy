/** Hexadecimal text for the SQL statements. */
module Hex {
  import opened Bytes

  /** `MAX_MESG_LEN`. */
  const MAX_TEXT: nat := 4096

  /** The size of the server's own text buffer. */
  const HEX_BUFFER: nat := 8194

  function Digit(n: nat): char
    requires n < 16
  {
    if n < 10 then '0' + n as char else 'A' + (n - 10) as char
  }

  lemma DigitsAre()
    ensures Digit(0) == '0' && Digit(9) == '9' && Digit(10) == 'A' && Digit(15) == 'F'
    ensures forall n :: 0 <= n < 9 ==> Digit(n + 1) == Digit(n) + 1 as char
    ensures forall n :: 10 <= n < 15 ==> Digit(n + 1) == Digit(n) + 1 as char
  {
  }

  /** "%02X" of every byte in turn. */
  function Encode(bs: seq<Byte>): (r: seq<char>)
    ensures |r| == 2 * |bs|
  {
    if bs == [] then []
    else
      var last := bs[|bs| - 1] as int;
      Encode(bs[..|bs| - 1]) + [Digit(last / 16), Digit(last % 16)]
  }

  lemma EncodeOneMore(bs: seq<Byte>, i: nat)
    requires i < |bs|
    ensures Encode(bs[..i + 1]) == Encode(bs[..i]) + [Digit(bs[i] as int / 16), Digit(bs[i] as int % 16)]
  {
    assert bs[..i + 1][..i] == bs[..i];
  }

  lemma EncodeNothing()
    ensures Encode([]) == []
  {
  }

  /** The value of a digit, 16 for anything else. */
  function DigitValue(c: char): (n: nat)
    ensures n <= 16
  {
    if '0' <= c <= '9' then c as int - '0' as int
    else if 'A' <= c <= 'F' then c as int - 'A' as int + 10
    else 16
  }

  /** Reads pairs of digits; stops being a byte string at the first thing that is not a pair. */
  function Decode(cs: seq<char>): (bs: seq<int>)
    ensures |bs| == |cs| / 2
  {
    if |cs| < 2 then []
    else Decode(cs[..|cs| - 2]) + [16 * DigitValue(cs[|cs| - 2]) + DigitValue(cs[|cs| - 1])]
  }

  lemma DigitsMeanByte(v: nat)
    requires v < 256
    ensures 16 * DigitValue(Digit(v / 16)) + DigitValue(Digit(v % 16)) == v
  {
  }

  function Values(bs: seq<Byte>): (r: seq<int>)
    ensures |r| == |bs|
  {
    seq(|bs|, i requires 0 <= i < |bs| => bs[i] as int)
  }

  /** Decoding the text gives the bytes back, NULs included. */
  lemma {:induction false} DecodeOfEncode(bs: seq<Byte>)
    ensures Decode(Encode(bs)) == Values(bs)
  {
    hide Decode, Digit, DigitValue, Values;
    if bs != [] {
      var n := |bs| - 1;
      DecodeOfEncode(bs[..n]);
      var v := bs[n] as int;
      DecodeAppend(Encode(bs[..n]), Digit(v / 16), Digit(v % 16));
      DigitsMeanByte(v);
      ValuesAppend(bs);
    }
  }

  /** Two more digits are one more byte. */
  lemma DecodeAppend(cs: seq<char>, high: char, low: char)
    ensures Decode(cs + [high, low]) == Decode(cs) + [16 * DigitValue(high) + DigitValue(low)]
  {
    hide DigitValue;
    var r := cs + [high, low];
    assert r[..|r| - 2] == cs;
  }

  lemma ValuesAppend(bs: seq<Byte>)
    requires bs != []
    ensures Values(bs) == Values(bs[..|bs| - 1]) + [bs[|bs| - 1] as int]
  {
  }

  /** Different byte strings have different texts. */
  lemma EncodeIsInjective(a: seq<Byte>, b: seq<Byte>)
    requires Encode(a) == Encode(b)
    ensures a == b
  {
    DecodeOfEncode(a);
    DecodeOfEncode(b);
    assert forall i :: 0 <= i < |a| ==> Values(a)[i] == a[i] as int;
    assert forall i :: 0 <= i < |b| ==> Values(b)[i] == b[i] as int;
  }

  /** How many bytes are encoded: the given length, or up to the first NUL or the limit. */
  function Encoded(bs: seq<Byte>, length: nat): nat {
    if length > 0 then length else if StrLen(bs) < MAX_TEXT then StrLen(bs) else MAX_TEXT
  }

  lemma EncodedIs(bs: seq<Byte>, length: nat)
    ensures Encoded(bs, length) == if length > 0 then length else if StrLen(bs) < 4096 then StrLen(bs) else 4096
  {
  }

  /** `sprintf("%02X")`: two digits and a terminator. */
  method WritePair(out: array<char>, offset: nat, b: Byte)
    requires offset + 2 < out.Length
    modifies out
    ensures out[..offset + 2] == old(out[..offset]) + [Digit(b as int / 16), Digit(b as int % 16)]
    ensures out[offset + 2] == '\0'
  {
    hide Digit;
    out[offset] := Digit(b as int / 16);
    out[offset + 1] := Digit(b as int % 16);
    out[offset + 2] := '\0';
  }

  /**
   * The loop of both `HexString` functions. The caller provides `length` readable bytes or, with
   * length 0, a NUL or more than 4096 bytes, and room for the text and its terminator.
   */
  method HexString(input: array<Byte>, out: array<char>, length: nat)
    requires length <= input.Length
    requires length == 0 ==> StrLen(input[..]) < input.Length || MAX_TEXT < input.Length
    requires 2 * Encoded(input[..], length) < out.Length
    modifies out
    ensures var n := Encoded(input[..], length);
            && n <= input.Length
            && out[..2 * n] == Encode(input[..n])
            && out[2 * n] == '\0'
  {
    hide Encode, Digit, StrLen;
    var offset, i := 0, 0;
    ghost var n := Encoded(input[..], length);
    EncodeNothing();
    while (input[i] != 0 && i < MAX_TEXT) || (length > 0 && offset / 2 < length)
      invariant offset == 2 * i && i <= n <= input.Length && i < input.Length
      invariant length > 0 ==> i < n
      invariant out[..offset] == Encode(input[..i])
      decreases n - i
    {
      assert input[..][i] == input[i];
      EncodeOneMore(input[..], i);
      assert input[..][..i] == input[..i] && input[..][..i + 1] == input[..i + 1];
      WritePair(out, offset, input[i]);
      offset := offset + 2;
      i := i + 1;
      if length > 0 && offset / 2 >= length {
        break;
      }
    }
    out[offset] := '\0';
  }

  /** With the server's own buffer every explicit length up to 4096 fits. */
  method HexStringOwn(input: array<Byte>, hexStr: array<char>, length: nat)
    requires hexStr.Length == HEX_BUFFER && length <= MAX_TEXT && length <= input.Length
    requires length == 0 ==> StrLen(input[..]) < input.Length || MAX_TEXT < input.Length
    modifies hexStr
    ensures var n := Encoded(input[..], length);
            n <= input.Length && hexStr[..2 * n] == Encode(input[..n]) && hexStr[2 * n] == '\0'
  {
    HexString(input, hexStr, length);
  }
}
