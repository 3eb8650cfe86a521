/** Bytes, fixed-width little-endian numbers, C strings and in-place overwriting. */
module Bytes {

  /** `CLIENT_BUFFER_SIZE`: the size of every packet, receive and send buffer. */
  const BUFFER_SIZE: nat := 8192

  /** One past the largest `uint16_t`. */
  const U16_LIMIT: nat := 65536

  /** One past the largest `uint32_t`. */
  const U32_LIMIT: nat := 0x1_0000_0000

  /** Storing an `int` into a `uint16_t`. */
  function Wrap16(n: nat): (r: nat)
    ensures r < U16_LIMIT && (n < U16_LIMIT ==> r == n)
  {
    n % U16_LIMIT
  }

  newtype Byte = x: int | 0 <= x < 256

  function Zeros(n: nat): (r: seq<Byte>)
    ensures |r| == n && forall i :: 0 <= i < n ==> r[i] == 0
  {
    seq(n, _ => 0)
  }

  /** The `uint16_t` stored at `at`, low byte first. */
  function Word(s: seq<Byte>, at: nat): (w: nat)
    requires at + 2 <= |s|
    ensures w < U16_LIMIT
  {
    s[at] as int + 256 * (s[at + 1] as int)
  }

  /** A `uint16_t` as it is stored, low byte first. */
  function WordBytes(v: nat): (bs: seq<Byte>)
    requires v < U16_LIMIT
    ensures |bs| == 2 && bs[0] as int == v % 256 && bs[1] as int == v / 256
  {
    [(v % 256) as Byte, (v / 256) as Byte]
  }

  function Pow256(width: nat): (p: nat)
    ensures p > 0
  {
    if width == 0 then 1 else 256 * Pow256(width - 1)
  }

  /** The bytes an integer of `width` bytes occupies in memory, low byte first. */
  function LE(width: nat, v: nat): (bs: seq<Byte>)
    ensures |bs| == width
  {
    if width == 0 then [] else [(v % 256) as Byte] + LE(width - 1, v / 256)
  }

  function Value(bs: seq<Byte>): nat {
    if bs == [] then 0 else bs[0] as int + 256 * Value(bs[1..])
  }

  /** Storing an integer that fits and loading it back gives the same integer. */
  lemma {:induction false} ValueOfLE(width: nat, v: nat)
    requires v < Pow256(width)
    ensures Value(LE(width, v)) == v
  {
    if width > 0 {
      ValueOfLE(width - 1, v / 256);
      assert LE(width, v)[1..] == LE(width - 1, v / 256);
    }
  }

  /** Loading bytes and storing the integer again gives the same bytes. */
  lemma {:induction false} LEOfValue(bs: seq<Byte>)
    ensures Value(bs) < Pow256(|bs|) && LE(|bs|, Value(bs)) == bs
  {
    if bs != [] {
      LEOfValue(bs[1..]);
      LowByte(bs[0], Value(bs[1..]));
      assert bs == [bs[0]] + bs[1..];
    }
  }

  lemma LowByte(b: Byte, rest: nat)
    ensures (b as int + 256 * rest) % 256 == b as int && (b as int + 256 * rest) / 256 == rest
  {
  }

  /** Four bytes in numbers, the low one first. */
  lemma FourBytes(v: nat, a: Byte, b: Byte, c: Byte, d: Byte)
    requires v == a as int + 0x100 * (b as int) + 0x1_0000 * (c as int) + 0x100_0000 * (d as int)
    ensures LE(4, v) == [a, b, c, d] && Value([a, b, c, d]) == v
    ensures Word([a, b, c, d], 0) == v % 0x1_0000 && WordBytes(v % 0x1_0000) == [a, b]
  {
    LEOfValue([a, b, c, d]);
    ValueStep([a, b, c, d]);
    ValueStep([b, c, d]);
    ValueStep([c, d]);
    ValueStep([d]);
  }

  lemma ValueStep(bs: seq<Byte>)
    requires bs != []
    ensures Value(bs) == bs[0] as int + 256 * Value(bs[1..])
    ensures |bs| > 1 ==> bs == [bs[0]] + bs[1..]
  {
  }

  lemma Pow256Values()
    ensures Pow256(1) == 256 && Pow256(2) == U16_LIMIT && Pow256(4) == U32_LIMIT
    ensures Pow256(8) == 0x1_0000_0000_0000_0000
  {
  }

  /** `strlen`: the index of the first NUL, or the whole length when there is none. */
  function StrLen(s: seq<Byte>): (n: nat)
    ensures n <= |s|
    ensures forall i :: 0 <= i < n ==> s[i] != 0
    ensures n < |s| ==> s[n] == 0
  {
    if s == [] || s[0] == 0 then 0 else 1 + StrLen(s[1..])
  }

  function CString(s: seq<Byte>): (r: seq<Byte>)
    ensures 0 !in r && r <= s
  {
    s[..StrLen(s)]
  }

  /** The C string at `off` is determined by where its first NUL stands. */
  lemma CStringIs(s: seq<Byte>, off: nat, n: nat)
    requires off + n < |s| && s[off + n] == 0
    requires forall i :: off <= i < off + n ==> s[i] != 0
    ensures CString(s[off..]) == s[off..off + n]
  {
  }

  /** `CopyMemory(&buf[at], data, |data|)`. */
  function Splice(buf: seq<Byte>, at: nat, data: seq<Byte>): (r: seq<Byte>)
    requires at + |data| <= |buf|
    ensures |r| == |buf|
    ensures forall i :: 0 <= i < |buf| ==>
                          r[i] == if at <= i < at + |data| then data[i - at] else buf[i]
  {
    seq(|buf|, i requires 0 <= i < |buf| => if at <= i < at + |data| then data[i - at] else buf[i])
  }

  /** `data` stands in `buf` from `at` on. */
  predicate At(buf: seq<Byte>, at: nat, data: seq<Byte>) {
    at + |data| <= |buf| && buf[at..at + |data|] == data
  }

  lemma AtSplit(buf: seq<Byte>, at: nat, a: seq<Byte>, b: seq<Byte>)
    ensures At(buf, at, a + b) <==> At(buf, at, a) && At(buf, at + |a|, b)
  {
    if at + |a| + |b| <= |buf| {
      var whole := buf[at..at + |a| + |b|];
      assert whole[..|a|] == buf[at..at + |a|];
      assert whole[|a|..] == buf[at + |a|..at + |a| + |b|];
      assert whole == whole[..|a|] + whole[|a|..];
      assert (a + b)[..|a|] == a && (a + b)[|a|..] == b;
    }
  }

  /** The concatenation of a list of byte strings. */
  function Concat(parts: seq<seq<Byte>>): seq<Byte> {
    if parts == [] then [] else parts[0] + Concat(parts[1..])
  }

  lemma {:induction false} ConcatAppend(a: seq<seq<Byte>>, b: seq<seq<Byte>>)
    ensures Concat(a + b) == Concat(a) + Concat(b)
  {
    if a == [] {
      assert a + b == b;
    } else {
      ConcatAppend(a[1..], b);
      assert (a + b)[1..] == a[1..] + b;
      AppendAssoc(a[0], Concat(a[1..]), Concat(b));
    }
  }

  lemma AppendAssoc<T>(a: seq<T>, b: seq<T>, c: seq<T>)
    ensures a + b + c == a + (b + c)
  {
  }

  lemma ConcatOne(a: seq<seq<Byte>>, x: seq<Byte>)
    ensures Concat(a + [x]) == Concat(a) + x
  {
    ConcatAppend(a, [x]);
    assert Concat([x]) == x + Concat([]);
  }
}
