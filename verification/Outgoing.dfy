/**
 * The sending side on values: building a reply, padding it to 16-byte blocks, putting the
 * length in front, and sending the same packet object again and again.
 */
module Outgoing {
  import opened Bytes
  import opened Packet
  import opened Framing

  const BLOCK_SIZE: nat := 16

  /** A packet with more bytes than this marks the client for disconnection. */
  const MAX_PACKET: nat := 8177

  // ---------------------------------------------------------------- builders

  /** The calls the reply handlers make between `Begin` and `Send`. */
  datatype Call =
    | Num(width: nat, v: nat)                   // append<T>
    | Arr(data: seq<Byte>)                      // appendArray
    | Text(text: seq<Byte>, width: nat)         // appendString with a width
    | Hole(n: nat)                              // addSize(n); addOffset(n)
    | Slot(data: seq<Byte>, n: nat)             // setArray at the cursor, then both move by n

  function Moved(im: Image, n: nat): Image {
    im.(off := Wrap16(im.off + n), size := Wrap16(im.size + n))
  }

  function Apply(im: Image, call: Call): (r: Image)
    requires Sound(im)
    ensures Sound(r)
  {
    match call
    case Num(width, v) => Appended(im, LE(width, v))
    case Arr(data) => Appended(im, data)
    case Text(text, width) => AppendedString(im, text, width)
    case Hole(n) => Moved(im, n)
    case Slot(data, n) => Moved(Placed(im, data, im.off), n)
  }

  function Build(im: Image, calls: seq<Call>): (r: Image)
    requires Sound(im)
    ensures Sound(r)
  {
    if calls == [] then im else Apply(Build(im, calls[..|calls| - 1]), calls[|calls| - 1])
  }

  lemma BuildOneMore(im: Image, calls: seq<Call>, call: Call)
    requires Sound(im)
    ensures Build(im, calls + [call]) == Apply(Build(im, calls), call) && Build(im, []) == im
  {
    assert (calls + [call])[..|calls|] == calls;
  }

  lemma ApplyLockstep(im: Image, call: Call)
    requires Sound(im) && im.off == im.size
    ensures Apply(im, call).off == Apply(im, call).size
  {
  }

  /** Cursor and size stay equal through every sequence of builder calls, refusals included. */
  lemma {:induction false} Lockstep(im: Image, calls: seq<Call>)
    requires Sound(im) && im.off == im.size
    ensures Build(im, calls).off == Build(im, calls).size
  {
    if calls != [] {
      Lockstep(im, calls[..|calls| - 1]);
      ApplyLockstep(Build(im, calls[..|calls| - 1]), calls[|calls| - 1]);
    }
  }

  /** How far a field of fixed width moves the cursor. */
  function Width(call: Call): nat {
    match call
    case Num(width, _) => width
    case Arr(data) => |data|
    case Text(_, width) => width
    case Hole(n) => n
    case Slot(_, n) => n
  }

  function Widths(calls: seq<Call>): nat {
    if calls == [] then 0 else Widths(calls[..|calls| - 1]) + Width(calls[|calls| - 1])
  }

  lemma {:induction false} WidthsConcat(a: seq<Call>, b: seq<Call>)
    ensures Widths(a + b) == Widths(a) + Widths(b)
    decreases |b|
  {
    if b == [] {
      assert a + b == a;
    } else {
      assert (a + b)[..|a + b| - 1] == a + b[..|b| - 1];
      WidthsConcat(a, b[..|b| - 1]);
    }
  }

  /** A text free of NULs and shorter than its field, and an array no longer than what is reserved for it. */
  predicate Plain(call: Call) {
    match call
    case Text(text, width) => 0 !in text && |text| < width
    case Slot(data, n) => |data| <= n
    case _ => true
  }

  predicate AllPlain(calls: seq<Call>) {
    forall i :: 0 <= i < |calls| ==> Plain(calls[i])
  }

  /** The bytes of one field. */
  function FieldOf(call: Call): (r: seq<Byte>)
    requires Plain(call)
    ensures |r| == Width(call)
  {
    match call
    case Num(width, v) => LE(width, v)
    case Arr(data) => data
    case Text(text, width) => text + Zeros(width - |text|)
    case Hole(n) => Zeros(n)
    case Slot(data, n) => data + Zeros(n - |data|)
  }

  /** The fields in order. */
  function FieldsOf(calls: seq<Call>): (r: seq<Byte>)
    requires AllPlain(calls)
    ensures |r| == Widths(calls)
  {
    if calls == [] then [] else FieldsOf(calls[..|calls| - 1]) + FieldOf(calls[|calls| - 1])
  }

  lemma FieldsOneMore(calls: seq<Call>, call: Call)
    requires AllPlain(calls) && Plain(call)
    ensures Widths(calls + [call]) == Widths(calls) + Width(call) && Widths([]) == 0
    ensures FieldsOf(calls + [call]) == FieldsOf(calls) + FieldOf(call) && FieldsOf([]) == []
  {
    assert (calls + [call])[..|calls|] == calls;
  }

  /** A call that fits adds its field, keeps everything in front of it and leaves the rest clear. */
  lemma CallWrites(im: Image, fields: seq<Byte>, call: Call)
    requires Built(im, fields) && Plain(call) && im.off + Width(call) < BUFFER_SIZE
    ensures Built(Apply(im, call), fields + FieldOf(call))
    ensures Apply(im, call).bytes[..6] == im.bytes[..6]
  {
    match call
    case Num(width, v) => BuiltAppended(im, fields, LE(width, v));
    case Arr(data) => BuiltAppended(im, fields, data);
    case Text(text, width) => BuiltAppendedString(im, fields, text, width);
    case Hole(n) =>
    case Slot(data, n) =>
  }

  /** A packet whose calls fit: type and subtype in the head, then the fields in order, then zeros. */
  lemma {:induction false} FieldsAreWritten(ty: nat, subtype: nat, calls: seq<Call>)
    requires ty < U16_LIMIT && subtype < U16_LIMIT && AllPlain(calls) && 6 + Widths(calls) < BUFFER_SIZE
    ensures var im := Build(Begun(ty, subtype), calls);
            Built(im, FieldsOf(calls)) && im.bytes[2..6] == WordBytes(ty) + WordBytes(subtype)
  {
    hide Apply, Begun, Built;
    if calls == [] {
      BegunIsBuilt(ty, subtype);
      BegunHead(ty, subtype);
    } else {
      var before, last := calls[..|calls| - 1], calls[|calls| - 1];
      FieldsAreWritten(ty, subtype, before);
      var im := Build(Begun(ty, subtype), before);
      BuiltIsAt(im, FieldsOf(before));
      CallWrites(im, FieldsOf(before), last);
      assert Apply(im, last).bytes[..6][2..] == im.bytes[..6][2..];
    }
  }

  lemma BuiltIsAt(im: Image, fields: seq<Byte>)
    requires Built(im, fields)
    ensures im.off == im.size == 6 + |fields| && |im.bytes| == BUFFER_SIZE
    ensures im.size <= BUFFER_SIZE ==> im.bytes[6..im.size] == fields
  {
  }

  lemma BegunHead(ty: nat, subtype: nat)
    requires ty < U16_LIMIT && subtype < U16_LIMIT
    ensures Begun(ty, subtype).bytes[2..6] == WordBytes(ty) + WordBytes(subtype)
  {
  }

  /** Every field stands where the fields before it end. */
  lemma {:induction false} FieldStands(calls: seq<Call>, i: nat)
    requires AllPlain(calls) && i < |calls|
    ensures At(FieldsOf(calls), Widths(calls[..i]), FieldOf(calls[i]))
    decreases |calls|
  {
    hide FieldOf;
    var n := |calls| - 1;
    var before, last := FieldsOf(calls[..n]), FieldOf(calls[n]);
    if i < n {
      FieldStands(calls[..n], i);
      assert calls[..n][..i] == calls[..i];
      StandsAppend(before, Widths(calls[..i]), FieldOf(calls[i]), last);
    }
  }

  lemma StandsAppend(a: seq<Byte>, at: nat, data: seq<Byte>, b: seq<Byte>)
    requires At(a, at, data)
    ensures At(a + b, at, data)
  {
  }

  // ---------------------------------------------------------------- padding

  /** The loop condition of the padding loop. */
  predicate Unpadded(size: nat) {
    size % BLOCK_SIZE != 0 || size <= BLOCK_SIZE
  }

  /** The padded size of a body: a multiple of 16 above 16. */
  function PadTo(body: nat): (n: nat)
    ensures body <= n < body + 32 + (if body == 0 then 1 else 0) && !Unpadded(n)
    ensures n == body <==> !Unpadded(body)
  {
    if body <= BLOCK_SIZE then 32
    else if body % BLOCK_SIZE == 0 then body
    else body + BLOCK_SIZE - body % BLOCK_SIZE
  }

  /** In plain numbers: a multiple of 16 above 16, and less than 16 bytes longer than any body above 16. */
  lemma PadToIs(body: nat)
    ensures var n := PadTo(body);
            n >= body && n % 16 == 0 && n > 16 && if body <= 16 then n == 32 else n < body + 16
  {
  }

  /** It is the least one that is not below the body. */
  lemma PadToIsLeast(body: nat, m: nat)
    requires body <= m < PadTo(body)
    ensures Unpadded(m)
  {
  }

  /** The padding bytes all fit, so the loop stops. */
  predicate PadFits(off: nat, body: nat) {
    PadTo(body) == body || off + (PadTo(body) - body) < BUFFER_SIZE
  }

  /** `j` rounds of the padding loop. */
  function PadRounds(im: Image, j: nat): (r: Image)
    requires Sound(im)
    ensures Sound(r)
  {
    if j == 0 then im
    else
      var before := PadRounds(im, j - 1);
      if Unpadded(before.size) then Appended(before, [0]) else before
  }

  /** `k` zero bytes behind the cursor. */
  function PaddedBy(im: Image, k: nat): (r: Image)
    requires Sound(im) && (k == 0 || im.off + k < BUFFER_SIZE) && im.size + k < U16_LIMIT
    ensures Sound(r) && r.off == im.off + k && r.size == im.size + k && (k == 0 ==> r == im)
  {
    Image(if k == 0 then im.bytes else Splice(im.bytes, im.off, Zeros(k)), im.off + k, im.size + k)
  }

  lemma OneMoreZero(im: Image, k: nat)
    requires Sound(im) && im.off + k + 1 < BUFFER_SIZE && im.size + k + 1 < U16_LIMIT
    ensures Appended(PaddedBy(im, k), [0]) == PaddedBy(im, k + 1)
  {
  }

  /** Up to the point where the buffer or the work runs out, each round writes one zero. */
  lemma {:induction false} PadRoundsWrite(im: Image, j: nat)
    requires Sound(im) && im.size <= MAX_PACKET
    requires im.size + j <= PadTo(im.size) && (j == 0 || im.off + j < BUFFER_SIZE)
    ensures PadRounds(im, j) == PaddedBy(im, j)
  {
    hide Appended, Splice, PaddedBy, Sound;
    if j > 0 {
      PadRoundsWrite(im, j - 1);
      PadToIsLeast(im.size, im.size + j - 1);
      OneMoreZero(im, j - 1);
    }
  }

  /** A refused byte changes nothing, so the loop then turns for ever. */
  lemma {:induction false} PadRoundsStick(im: Image, j: nat)
    requires Sound(im) && Unpadded(im.size) && im.off + 1 >= BUFFER_SIZE
    ensures PadRounds(im, j) == im
  {
    if j > 0 {
      PadRoundsStick(im, j - 1);
    }
  }

  lemma {:induction false} PadRoundsAdd(im: Image, i: nat, j: nat)
    requires Sound(im)
    ensures PadRounds(im, i + j) == PadRounds(PadRounds(im, i), j)
  {
    if j > 0 {
      PadRoundsAdd(im, i, j - 1);
      assert i + j - 1 == i + (j - 1);
    }
  }

  lemma EarlyRounds(im: Image, j: nat)
    requires Sound(im) && im.size <= MAX_PACKET && im.size + j < PadTo(im.size)
    requires j == 0 || im.off + j < BUFFER_SIZE
    ensures Unpadded(PadRounds(im, j).size)
  {
    PadRoundsWrite(im, j);
    PadToIsLeast(im.size, im.size + j);
  }

  lemma StaysUnpadded(im: Image, room: nat, j: nat)
    requires Sound(im) && im.size <= MAX_PACKET && im.size + room < PadTo(im.size)
    requires room == if im.off + 1 < BUFFER_SIZE then BUFFER_SIZE - 1 - im.off else 0
    ensures Unpadded(PadRounds(im, j).size)
  {
    hide PadRounds, PadTo;
    if j <= room {
      EarlyRounds(im, j);
    } else {
      EarlyRounds(im, room);
      PadRoundsWrite(im, room);
      PadRoundsAdd(im, room, j - room);
      PadRoundsStick(PadRounds(im, room), j - room);
    }
  }

  /** The padding loop terminates exactly when every padding byte fits behind the cursor. */
  lemma PaddingTerminatesIff(im: Image)
    requires Sound(im) && im.size <= MAX_PACKET - 2
    ensures (exists j: nat :: !Unpadded(PadRounds(im, j).size)) <==> PadFits(im.off, im.size)
  {
    var k := PadTo(im.size) - im.size;
    if PadFits(im.off, im.size) {
      PadRoundsWrite(im, k);
      assert !Unpadded(PadRounds(im, k).size);
    } else {
      var room := if im.off + 1 < BUFFER_SIZE then BUFFER_SIZE - 1 - im.off else 0;
      forall j: nat ensures Unpadded(PadRounds(im, j).size) {
        StaysUnpadded(im, room, j);
      }
    }
  }

  // ---------------------------------------------------------------- one send

  /** The sizes `Send` neither rejects nor answers with a disconnect. */
  predicate Sendable(size: nat) {
    4 <= size <= MAX_PACKET
  }

  /** The packet object behind the padding loop: two bytes shorter, then filled up with zeros. */
  function Padded(im: Image): (r: Image)
    requires Sound(im) && Sendable(im.size) && PadFits(im.off, im.size - 2)
    ensures Sound(r)
  {
    PaddedBy(im.(size := im.size - 2), PadTo(im.size - 2) - (im.size - 2))
  }

  /** The packet object after `Send`: padded, with the body length in front. */
  function Sent(im: Image): (r: Image)
    requires Sound(im) && Sendable(im.size) && PadFits(im.off, im.size - 2)
    ensures Sound(r)
  {
    WithWord(Padded(im), 0, PadTo(im.size - 2))
  }

  /** The frame `Send` puts on the queue. */
  function FrameOf(im: Image): (f: seq<Byte>)
    requires Sound(im) && Sendable(im.size) && PadFits(im.off, im.size - 2)
    ensures |f| == PadTo(im.size - 2) + 2
  {
    Sent(im).bytes[..PadTo(im.size - 2) + 2]
  }

  /** The frames one `Send` on an open slot queues: one for a sendable packet, none otherwise. */
  function Emitted(im: Image): (fs: seq<seq<Byte>>)
    requires Sound(im)
    ensures |fs| <= 1
  {
    if Sendable(im.size) && PadFits(im.off, im.size - 2) then [FrameOf(im)] else []
  }

  /** The packet object after that `Send`. */
  function AfterSend(im: Image): (r: Image)
    requires Sound(im)
    ensures Sound(r)
  {
    if Sendable(im.size) && PadFits(im.off, im.size - 2) then Sent(im) else im
  }

  /** The queue entry: the frame at the front of a zeroed buffer. */
  function Entry(f: seq<Byte>): (e: seq<Byte>) {
    if |f| <= BUFFER_SIZE then f + Zeros(BUFFER_SIZE - |f|) else f
  }

  /** The entries that `Send` queues for its frames. */
  function EntriesOf(im: Image): (es: seq<seq<Byte>>)
    requires Sound(im)
  {
    if Emitted(im) == [] then [] else [Entry(Emitted(im)[0])]
  }

  /** What a send can change in a slot. */
  datatype Outbox = Outbox(todc: bool, queue: seq<seq<Byte>>, enqueued: seq<seq<Byte>>)

  /** An open slot after one send of `im`. */
  function Gain(box: Outbox, im: Image): Outbox
    requires Sound(im)
  {
    Outbox(box.todc || im.size > MAX_PACKET, box.queue + EntriesOf(im), box.enqueued + Emitted(im))
  }

  /**
   * What one send of a packet does to an open slot, by its size: from 4 to 8177 bytes it queues one
   * frame if the padding fits, below 4 nothing happens, and above 8177 the slot is marked.
   */
  lemma GainIs(box: Outbox, im: Image)
    requires Sound(im)
    ensures im.size < 4 ==> Gain(box, im) == box && AfterSend(im) == im
    ensures im.size > 8177 ==> Gain(box, im) == box.(todc := true) && AfterSend(im) == im
    ensures 4 <= im.size <= 8177 && PadFits(im.off, im.size - 2) ==>
              Gain(box, im) == box.(queue := box.queue + [Entry(FrameOf(im))], enqueued := box.enqueued + [FrameOf(im)])
  {
    hide FrameOf, Sent, Entry;
  }

  /** A frame as `Send` makes it: whole, in 16-byte blocks, and small enough to be delivered. */
  predicate Outbound(f: seq<Byte>) {
    Whole(f) && 34 <= |f| <= MAX_PACKET + 1 && (|f| - 2) % BLOCK_SIZE == 0
  }

  lemma FrameIsOutbound(im: Image)
    requires Sound(im) && Sendable(im.size) && PadFits(im.off, im.size - 2)
    ensures Outbound(FrameOf(im)) && Word(FrameOf(im), 0) == PadTo(im.size - 2)
  {
    var n, bytes := PadTo(im.size - 2), Sent(im).bytes;
    assert bytes[0] == WordBytes(n)[0] && bytes[1] == WordBytes(n)[1];
    OutboundIs(bytes[..n + 2], n);
  }

  lemma OutboundIs(f: seq<Byte>, n: nat)
    requires |f| == n + 2 && 32 <= n <= 8176 && n % BLOCK_SIZE == 0
    requires f[0] == WordBytes(n)[0] && f[1] == WordBytes(n)[1]
    ensures Outbound(f) && Word(f, 0) == n
  {
  }

  /**
   * The first `Send` of a packet built in lockstep terminates, and its frame is the body
   * length, the bytes that were built, and zeros up to a multiple of 16 above 16.
   */
  lemma FirstSend(im: Image)
    requires Sound(im) && Sendable(im.size) && im.off == im.size
    ensures PadFits(im.off, im.size - 2)
    ensures var n := PadTo(im.size - 2);
            && 32 <= n <= 8176
            && FrameOf(im) == WordBytes(n) + im.bytes[2..im.size] + Zeros(n + 2 - im.size)
            && Sent(im).off == Sent(im).size + 2 == n + 2
  {
  }

  /** A reply on the wire: length, type, subtype, the fields in order, and zeros. */
  function ReplyBytes(ty: nat, subtype: nat, calls: seq<Call>): (f: seq<Byte>)
    requires ty < U16_LIMIT && subtype < U16_LIMIT && AllPlain(calls) && 6 + Widths(calls) <= MAX_PACKET
    ensures |f| == PadTo(4 + Widths(calls)) + 2
  {
    var n := PadTo(4 + Widths(calls));
    WordBytes(n) + WordBytes(ty) + WordBytes(subtype) + FieldsOf(calls) + Zeros(n - 4 - Widths(calls))
  }

  /** The one frame of a reply whose calls fit. */
  lemma ReplyFrame(ty: nat, subtype: nat, calls: seq<Call>)
    requires ty < U16_LIMIT && subtype < U16_LIMIT && AllPlain(calls) && 6 + Widths(calls) <= MAX_PACKET
    ensures Emitted(Build(Begun(ty, subtype), calls)) == [ReplyBytes(ty, subtype, calls)]
  {
    hide Build, Begun, FieldsOf, FrameOf, Built;
    var im, n := Build(Begun(ty, subtype), calls), PadTo(4 + Widths(calls));
    FieldsAreWritten(ty, subtype, calls);
    BuiltIsAt(im, FieldsOf(calls));
    FirstSend(im);
    assert im.bytes[2..im.size] == im.bytes[2..6] + im.bytes[6..im.size];
    AppendAssoc(WordBytes(n), WordBytes(ty), WordBytes(subtype));
    AppendAssoc(WordBytes(n), WordBytes(ty) + WordBytes(subtype), FieldsOf(calls));
  }

  lemma OneByte(v: nat)
    requires v < 256
    ensures LE(1, v) == [v as Byte]
  {
    assert LE(0, v / 256) == [];
  }

  /** The reply to Remove Team Member, byte by byte. */
  lemma RemoveReply(license: nat, result: nat)
    requires license < U32_LIMIT && result < 256
    ensures Emitted(Build(Begun(2, 5), [Num(4, license), Num(1, result)]))
         == [[32, 0, 2, 0, 5, 0] + LE(4, license) + [result as Byte] + Zeros(23)]
  {
    hide LE, Emitted, Build;
    var calls := [Num(4, license), Num(1, result)];
    assert calls[..1] == [Num(4, license)] && calls[..1][..0] == [];
    assert Widths(calls[..1]) == 4 && Widths(calls) == 5;
    assert FieldsOf(calls[..1]) == [] + LE(4, license);
    OneByte(result);
    assert FieldsOf(calls) == LE(4, license) + [result as Byte];
    ReplyFrame(2, 5, calls);
    assert WordBytes(32) + WordBytes(2) + WordBytes(5) == [32, 0, 2, 0, 5, 0];
    AppendAssoc([32, 0, 2, 0, 5, 0], LE(4, license), [result as Byte]);
  }

  /** Every packet the handlers build meets exactly one of the three outcomes of `Send`. */
  lemma BuiltPacketsAreSendable(ty: nat, subtype: nat, calls: seq<Call>)
    requires ty < U16_LIMIT && subtype < U16_LIMIT
    ensures var im := Build(Begun(ty, subtype), calls);
            || im.size < 4
            || im.size > MAX_PACKET
            || (Sendable(im.size) && im.off == im.size && PadFits(im.off, im.size - 2))
  {
    var im := Build(Begun(ty, subtype), calls);
    Lockstep(Begun(ty, subtype), calls);
    if Sendable(im.size) {
      FirstSend(im);
    }
  }

  // ---------------------------------------------------------------- the same packet, many times

  /** The first `k` sends of this packet object all terminate. */
  predicate SendsTerminate(im: Image, k: nat)
    requires Sound(im) && Sendable(im.size)
    decreases k
  {
    k > 0 ==>
      && PadFits(im.off, im.size - 2)
      && Sendable(Sent(im).size)
      && SendsTerminate(Sent(im), k - 1)
  }

  lemma OneSend(im: Image)
    requires Sound(im) && Sendable(im.size)
    ensures SendsTerminate(im, 1) <==> PadFits(im.off, im.size - 2)
  {
    hide Sent, PadFits, Sound;
    if PadFits(im.off, im.size - 2) {
      SentIsSendable(im);
    }
  }

  lemma SentIsSendable(im: Image)
    requires Sound(im) && Sendable(im.size) && PadFits(im.off, im.size - 2)
    ensures Sendable(Sent(im).size)
  {
    PadToIs(im.size - 2);
  }

  /** What they put on the queues. */
  function FramesSent(im: Image, k: nat): (fs: seq<seq<Byte>>)
    requires Sound(im) && Sendable(im.size) && SendsTerminate(im, k)
    ensures |fs| == k
    decreases k
  {
    if k == 0 then [] else [FrameOf(im)] + FramesSent(Sent(im), k - 1)
  }

  /** The packet object behind a first send: the frame in front, the cursor somewhere behind it. */
  predicate Resendable(im: Image, f: seq<Byte>) {
    && Sound(im)
    && Outbound(f)
    && |f| == im.size + 2 <= im.off
    && im.bytes[..|f|] == f
  }

  lemma OutboundLength(f: seq<Byte>)
    requires Outbound(f)
    ensures WordBytes(|f| - 2) == f[..2] && PadTo(|f| - 4) == |f| - 2
  {
  }

  /** Sending a sent packet again adds two zero bytes behind the frame and changes nothing in it. */
  lemma Resend(im: Image, f: seq<Byte>)
    requires Resendable(im, f)
    ensures PadFits(im.off, im.size - 2) <==> im.off + 2 < BUFFER_SIZE
    ensures im.off + 2 < BUFFER_SIZE ==>
              FrameOf(im) == f && Sent(im).off == im.off + 2 && Resendable(Sent(im), f)
  {
    OutboundLength(f);
    if im.off + 2 < BUFFER_SIZE {
      assert forall i :: 0 <= i < |f| ==> Sent(im).bytes[i] == im.bytes[..|f|][i];
      assert Sent(im).bytes[..|f|] == f;
    }
  }

  lemma {:induction false} Resends(im: Image, f: seq<Byte>, k: nat)
    requires Resendable(im, f)
    ensures SendsTerminate(im, k) <==> k == 0 || im.off + 2 * k < BUFFER_SIZE
    ensures SendsTerminate(im, k) ==> forall i :: 0 <= i < k ==> FramesSent(im, k)[i] == f
    decreases k
  {
    hide Sent, FrameOf, Outbound, PadTo, Sound;
    Resend(im, f);
    if k > 0 && im.off + 2 < BUFFER_SIZE {
      var next := Sent(im);
      Resends(next, f, k - 1);
      assert SendsTerminate(im, k) <==> SendsTerminate(next, k - 1);
      if SendsTerminate(im, k) {
        assert FramesSent(im, k) == [f] + FramesSent(next, k - 1);
      }
    }
  }

  /**
   * Broadcast idempotence: the first k sends of a packet built in lockstep all terminate exactly
   * when its padded size plus 2k is below 8192, and then they all produce the same frame.
   */
  lemma BroadcastIsIdempotent(im: Image, k: nat)
    requires Sound(im) && Sendable(im.size) && im.off == im.size && k > 0
    ensures SendsTerminate(im, k) <==> PadTo(im.size - 2) + 2 * k < BUFFER_SIZE
    ensures PadFits(im.off, im.size - 2)
    ensures SendsTerminate(im, k) ==> forall i :: 0 <= i < k ==> FramesSent(im, k)[i] == FrameOf(im)
  {
    FirstSend(im);
    FirstIsResendable(im);
    var next, f := Sent(im), FrameOf(im);
    Resends(next, f, k - 1);
    assert SendsTerminate(im, k) <==> SendsTerminate(next, k - 1);
    if SendsTerminate(im, k) {
      assert FramesSent(im, k) == [f] + FramesSent(next, k - 1);
    }
  }

  lemma FirstIsResendable(im: Image)
    requires Sound(im) && Sendable(im.size) && im.off == im.size
    ensures PadFits(im.off, im.size - 2) && Sendable(Sent(im).size)
    ensures Resendable(Sent(im), FrameOf(im))
    ensures Sent(im).off == PadTo(im.size - 2) + 2
  {
    FirstSend(im);
    FrameIsOutbound(im);
  }

  /** The packet object after `k` sends of `im` on open slots. */
  predicate SentSoFar(im: Image, cur: Image, k: nat)
    requires Sound(im) && im.off == im.size
  {
    if k == 0 || !Sendable(im.size) then cur == im
    else
      FirstSend(im);
      Resendable(cur, FrameOf(im)) && cur.off == PadTo(im.size - 2) + 2 * k
  }

  /** There is room for the padding of this many sends. */
  predicate Room(im: Image, k: nat) {
    Sendable(im.size) ==> PadTo(im.size - 2) + 2 * k < BUFFER_SIZE
  }

  /** The packet object after this many sends. */
  function AfterSends(im: Image, k: nat): (r: Image)
    requires Sound(im)
    ensures Sound(r)
  {
    if k == 0 then im else AfterSend(AfterSends(im, k - 1))
  }

  /** The next send emits what the first one would have emitted. */
  lemma NextSend(im: Image, cur: Image, k: nat)
    requires Sound(im) && im.off == im.size && SentSoFar(im, cur, k)
    requires Sendable(im.size) ==> PadTo(im.size - 2) + 2 * (k + 1) < BUFFER_SIZE
    ensures Sound(cur) && Sendable(cur.size) == Sendable(im.size)
    ensures cur.size > MAX_PACKET <==> im.size > MAX_PACKET
    ensures Sendable(cur.size) ==> PadFits(cur.off, cur.size - 2)
    ensures Emitted(cur) == Emitted(im) && EntriesOf(cur) == EntriesOf(im)
    ensures SentSoFar(im, AfterSend(cur), k + 1)
  {
    if Sendable(im.size) {
      FirstSend(im);
      if k == 0 {
        FirstIsResendable(im);
      } else {
        Resend(cur, FrameOf(im));
      }
    }
  }

  // ---------------------------------------------------------------- a broadcast that sticks

  /** Fields that fit are all appended. */
  lemma {:induction false} BuildSize(im: Image, calls: seq<Call>)
    requires Sound(im) && im.off == im.size && im.off + Widths(calls) < BUFFER_SIZE
    requires forall i :: 0 <= i < |calls| && calls[i].Text? ==> |calls[i].text| <= calls[i].width
    ensures Build(im, calls).off == Build(im, calls).size == im.off + Widths(calls)
  {
    hide Splice;
    if calls != [] {
      BuildSize(im, calls[..|calls| - 1]);
    }
  }

  /** Get Team Data about one member: license, handle, rank, leader or not, area. */
  function MemberData(license: nat): seq<Call> {
    [Num(4, license), Text([], 0x10), Num(4, 0), Num(1, if license == 1 then 1 else 0), Num(1, 0)]
  }

  /** The members of a team of `n`, with licences from 1 on. */
  function MembersData(n: nat): seq<Call> {
    if n == 0 then [] else MembersData(n - 1) + MemberData(n)
  }

  /** The reply to Get Team Data for a team of `n` that license 1 leads, without name or comment. */
  function TeamData(n: nat): seq<Call> {
    [Num(4, 1), Num(4, 1), Num(4, 1), Text([], 0x10), Text([], 0x10), Text([], 0x28),
     Num(4, 0), Num(4, 0), Num(4, n), Num(4, 0)] + MembersData(n) + [Num(1, 0)]
  }

  lemma {:induction false} MembersWidth(n: nat)
    ensures Widths(MembersData(n)) == 26 * n
    ensures forall i :: 0 <= i < |MembersData(n)| && MembersData(n)[i].Text? ==> MembersData(n)[i].text == []
  {
    if n > 0 {
      MembersWidth(n - 1);
      WidthsConcat(MembersData(n - 1), MemberData(n));
      FiveWidths(MemberData(n));
    }
  }

  lemma FiveWidths(c: seq<Call>)
    requires |c| == 5
    ensures Widths(c) == Width(c[0]) + Width(c[1]) + Width(c[2]) + Width(c[3]) + Width(c[4])
  {
    assert c[..4][..3] == c[..3] && c[..3][..2] == c[..2] && c[..2][..1] == c[..1] && c[..1][..0] == [];
    assert Widths(c[..1]) == Width(c[0]) && Widths(c[..2]) == Widths(c[..1]) + Width(c[1]);
    assert Widths(c[..3]) == Widths(c[..2]) + Width(c[2]) && Widths(c[..4]) == Widths(c[..3]) + Width(c[3]);
  }

  lemma TeamDataWidth(n: nat)
    ensures Widths(TeamData(n)) == 101 + 26 * n
    ensures forall i :: 0 <= i < |TeamData(n)| && TeamData(n)[i].Text? ==> TeamData(n)[i].text == []
  {
    var first, second := TeamData(n)[..5], TeamData(n)[5..10];
    var members, last := MembersData(n), [Num(1, 0)];
    assert TeamData(n) == first + second + members + last;
    MembersWidth(n);
    FiveWidths(first);
    FiveWidths(second);
    assert last[..0] == [] && Widths(last) == 1;
    WidthsConcat(first, second);
    WidthsConcat(first + second, members);
    WidthsConcat(first + second + members, last);
  }

  /**
   * The team data of 310 members makes a packet of 8167 bytes. Broadcast to seven open slots it
   * goes out; with eight the padding loop of the last send never ends.
   */
  lemma TeamDataSticks()
    ensures var im := Build(Begun(2, 4), TeamData(310));
            im.off == im.size == 8167 && SendsTerminate(im, 7) && !SendsTerminate(im, 8)
  {
    hide Build, TeamData, SendsTerminate, Begun, Widths;
    TeamDataWidth(310);
    BegunIsBuilt(2, 4);
    BuildSize(Begun(2, 4), TeamData(310));
    var im := Build(Begun(2, 4), TeamData(310));
    BroadcastIsIdempotent(im, 7);
    BroadcastIsIdempotent(im, 8);
  }
}
