/** One slot of the server: a socket, its buffers, its send queue and its authentication state. */
module Clients {
  import opened Bytes
  import opened Packet
  import opened Framing
  import opened Outgoing
  import opened Sessions

  /** The frame stored at the front of a queue entry. */
  function Content(e: seq<Byte>): seq<Byte> {
    if |e| >= 2 && Word(e, 0) + 2 <= |e| then e[..Word(e, 0) + 2] else e
  }

  predicate IsEntry(e: seq<Byte>) {
    |e| == BUFFER_SIZE && Outbound(Content(e))
  }

  predicate Entries(queue: seq<seq<Byte>>) {
    forall i :: 0 <= i < |queue| ==> IsEntry(queue[i])
  }

  function Contents(queue: seq<seq<Byte>>): (fs: seq<seq<Byte>>)
    ensures |fs| == |queue|
  {
    seq(|queue|, i requires 0 <= i < |queue| => Content(queue[i]))
  }

  lemma EntryHoldsFrame(f: seq<Byte>)
    requires Outbound(f)
    ensures IsEntry(Entry(f)) && Content(Entry(f)) == f
  {
  }

  lemma PopKeepsEntries(queue: seq<seq<Byte>>)
    requires queue != [] && Entries(queue)
    ensures IsEntry(queue[0]) && Entries(queue[1..])
    ensures Contents(queue) == [Content(queue[0])] + Contents(queue[1..])
  {
  }

  method ZeroMemory(a: array<Byte>)
    modifies a
    ensures a[..] == Zeros(a.Length)
  {
    forall i | 0 <= i < a.Length { a[i] := 0; }
  }

  /** The answer to a handshake, byte by byte: two numbers, and a name in a field of 16. */
  lemma AuthReplyFrame(rnd: nat)
    requires rnd < 0x8000
    ensures Emitted(AuthReply(rnd))
         == [[32, 0, 0, 0, 0, 0] + LE(4, rnd) + LE(4, rnd / 8) + [84, 111, 102, 117, 109, 97, 110] + Zeros(13)]
  {
    hide LE, Emitted, Appended, AppendedString, Begun, ReplyBytes, Build, Widths;
    var start, one, two := Begun(0, 0), [Num(4, rnd)], [Num(4, rnd), Num(4, rnd / 8)];
    var calls := two + [Text(AUTH_NAME, 0x10)];
    BuildOneMore(start, [], Num(4, rnd));
    BuildOneMore(start, one, Num(4, rnd / 8));
    BuildOneMore(start, two, Text(AUTH_NAME, 0x10));
    assert [] + [Num(4, rnd)] == one && one + [Num(4, rnd / 8)] == two;
    AuthWidths(rnd, calls);
    ReplyFrame(0, 0, calls);
    AuthFields(rnd, calls);
  }

  lemma AuthWidths(rnd: nat, calls: seq<Call>)
    requires calls == [Num(4, rnd), Num(4, rnd / 8)] + [Text(AUTH_NAME, 0x10)]
    ensures Widths(calls) == 24
  {
    hide Widths, FieldsOf;
    var one, two := [Num(4, rnd)], [Num(4, rnd), Num(4, rnd / 8)];
    FieldsOneMore([], Num(4, rnd));
    FieldsOneMore(one, Num(4, rnd / 8));
    FieldsOneMore(two, Text(AUTH_NAME, 0x10));
    assert [] + [Num(4, rnd)] == one && one + [Num(4, rnd / 8)] == two;
  }

  lemma AuthFields(rnd: nat, calls: seq<Call>)
    requires calls == [Num(4, rnd), Num(4, rnd / 8)] + [Text(AUTH_NAME, 0x10)] && 6 + Widths(calls) <= MAX_PACKET
    ensures Widths(calls) == 24
    ensures ReplyBytes(0, 0, calls)
         == [32, 0, 0, 0, 0, 0] + LE(4, rnd) + LE(4, rnd / 8) + [84, 111, 102, 117, 109, 97, 110] + Zeros(13)
  {
    hide LE, Widths, FieldsOf;
    var one, two := [Num(4, rnd)], [Num(4, rnd), Num(4, rnd / 8)];
    FieldsOneMore([], Num(4, rnd));
    FieldsOneMore(one, Num(4, rnd / 8));
    FieldsOneMore(two, Text(AUTH_NAME, 0x10));
    assert [] + [Num(4, rnd)] == one && one + [Num(4, rnd / 8)] == two;
    assert FieldsOf(calls) == LE(4, rnd) + LE(4, rnd / 8) + (AUTH_NAME + Zeros(9));
    assert WordBytes(32) + WordBytes(0) + WordBytes(0) == [32, 0, 0, 0, 0, 0];
  }

  /** A heartbeat, byte by byte. */
  lemma HeartBeatFrame(tick: nat)
    ensures Emitted(HeartBeat(tick)) == [[32, 0, 0, 0, 1, 0] + LE(4, tick) + Zeros(24)]
  {
    hide LE, Emitted, Appended, Begun, ReplyBytes;
    var calls := [Num(4, tick)];
    assert calls[..0] == [];
    assert Build(Begun(0, 1), calls) == HeartBeat(tick) && Widths(calls) == 4;
    ReplyFrame(0, 1, calls);
    BeatFields(tick, calls);
  }

  lemma BeatFields(tick: nat, calls: seq<Call>)
    requires calls == [Num(4, tick)] && Widths(calls) == 4
    ensures ReplyBytes(0, 1, calls) == [32, 0, 0, 0, 1, 0] + LE(4, tick) + Zeros(24)
  {
    hide LE;
    assert calls[..0] == [];
    assert FieldsOf(calls) == LE(4, tick);
    assert WordBytes(32) + WordBytes(0) + WordBytes(1) == [32, 0, 0, 0, 1, 0];
  }

  /** A heartbeat is sent again after this many seconds. */
  const HEARTBEAT_TIME: nat := 30

  class Client {
    var ClientSocket: int
    var todc: bool
    var isAuth: bool
    var lastHeartBeat: nat
    var snddata: nat
    var connectionIndex: nat
    var rcvread: nat
    var packetsize: nat
    var hassize: bool
    const rcvbuf: array<Byte>
    const sndbuf: array<Byte>
    var iv: seq<Byte>
    var key: seq<Byte>
    const inbuf: ServerPacket
    const outbuf: ServerPacket
    var sendQueue: seq<seq<Byte>>

    // History since the slot was last initialised.
    ghost var received: seq<Byte>
    ghost var consumed: seq<seq<Byte>>
    ghost var enqueued: seq<seq<Byte>>
    ghost var wire: seq<Byte>

    ghost predicate Layout() {
      && rcvbuf.Length == sndbuf.Length == inbuf.buffer.Length == outbuf.buffer.Length == BUFFER_SIZE
      && inbuf != outbuf
      && rcvbuf != sndbuf && rcvbuf != inbuf.buffer && rcvbuf != outbuf.buffer
      && sndbuf != inbuf.buffer && sndbuf != outbuf.buffer && inbuf.buffer != outbuf.buffer
    }

    /** Everything the slot owns. */
    ghost function Footprint(): set<object> {
      {this} + Parts()
    }

    ghost function Parts(): set<object> {
      {rcvbuf, sndbuf, inbuf, inbuf.buffer, outbuf, outbuf.buffer}
    }

    /** The arrays the transport uses. */
    ghost function Arrays(): set<object> {
      {rcvbuf, sndbuf, inbuf.buffer}
    }

    /** The bytes received and not yet consumed. */
    ghost function Pending(): seq<Byte>
      requires rcvread <= rcvbuf.Length
      reads `rcvread, rcvbuf
    {
      rcvbuf[..rcvread]
    }

    /** Every received byte is in a consumed frame or still in the buffer, in order. */
    ghost predicate Receiving()
      reads `rcvread, `packetsize, `hassize, `consumed, `received, rcvbuf
    {
      && Layout()
      && rcvread <= BUFFER_SIZE
      && (packetsize != 0 ==> hassize && rcvread >= 2 && packetsize == Declared(Pending()))
      && AllWhole(consumed)
      && Concat(consumed) + Pending() == received
    }

    lemma ReceivingHasLayout()
      requires Receiving()
      ensures Layout() && rcvread <= BUFFER_SIZE
    {
    }

    lemma SendingHasLayout()
      requires Sending()
      ensures Layout() && snddata <= BUFFER_SIZE
    {
    }

    /** The bytes taken from the queue and not yet accepted by the socket. */
    ghost function Unsent(): seq<Byte>
      requires snddata <= sndbuf.Length
      reads `snddata, sndbuf
    {
      sndbuf[..snddata]
    }

    ghost predicate QueueOk()
      reads `sendQueue, `enqueued
    {
      && Entries(sendQueue)
      && (forall i :: 0 <= i < |enqueued| ==> Outbound(enqueued[i]))
    }

    /** Every enqueued byte is on the wire, in the send buffer or still queued, in order. */
    ghost predicate Sending()
      reads `snddata, `sendQueue, `enqueued, `wire, sndbuf
    {
      && Layout()
      && snddata <= BUFFER_SIZE
      && QueueOk()
      && wire + Unsent() + Concat(Contents(sendQueue)) == Concat(enqueued)
    }

    ghost predicate Valid()
      reads `rcvread, `packetsize, `hassize, `consumed, `received, rcvbuf
      reads `snddata, `sendQueue, `enqueued, `wire, sndbuf
      reads inbuf, inbuf.buffer, outbuf, outbuf.buffer
    {
      Receiving() && Sending() && inbuf.Valid() && outbuf.Valid()
    }

    /** What the connection table and the dispatcher look at. */
    ghost function View(): Session
      reads `ClientSocket, `todc, `isAuth, `iv, `key
    {
      Session(ClientSocket, todc, isAuth, Pair(iv, key))
    }

    /** What `Send` changes. */
    ghost function Box(): Outbox
      reads `todc, `sendQueue, `enqueued
    {
      Outbox(todc, sendQueue, enqueued)
    }

    /**
     * A slot as good as new. `hassize`, the old reply in `outbuf` and the time of the next heartbeat
     * are not mentioned; module `Reuse` says when they show.
     */
    ghost predicate Fresh()
      reads Footprint()
    {
      Valid() && Unused()
    }

    ghost predicate Unused()
      reads this, inbuf, inbuf.buffer
    {
      ClientSocket == -1 && connectionIndex == 0 && Blank()
    }

    /** Nobody authenticated, and nothing received, consumed, queued or sent. */
    ghost predicate Blank()
      reads `todc, `isAuth, `iv, `key, `rcvread, `received, `consumed
      reads `snddata, `sendQueue, `wire, `enqueued, inbuf, inbuf.buffer
    {
      && !todc && !isAuth && Pair(iv, key) == NO_PAIR
      && rcvread == 0 && received == [] && consumed == []
      && snddata == 0 && sendQueue == [] && wire == [] && enqueued == []
      && inbuf.Img() == EMPTY
    }

    /** `garbage` is the value the allocation leaves in the one field nobody initialises. */
    constructor (garbage: bool)
      ensures Fresh() && Layout() && View() == CLOSED_SESSION && lastHeartBeat == 0 && outbuf.Img() == EMPTY
      ensures fresh(Footprint()) && fresh(this)
    {
      hide Fresh;
      rcvbuf := new Byte[BUFFER_SIZE];
      sndbuf := new Byte[BUFFER_SIZE];
      inbuf := new ServerPacket();
      outbuf := new ServerPacket();
      hassize := garbage;
      new;
      Initialize();
    }

    method Initialize()
      requires Layout()
      modifies Footprint()
      ensures Fresh() && outbuf.Img() == EMPTY && lastHeartBeat == 0 && View() == CLOSED_SESSION
      ensures hassize == old(hassize)
    {
      hide Receiving, Sending;
      ClearBuffers();
      ResetIdentity();
      ResetTransport();
      NothingIsConserved();
    }

    method ResetIdentity()
      modifies this`ClientSocket, this`todc, this`isAuth, this`lastHeartBeat, this`connectionIndex, this`key, this`iv
      ensures View() == CLOSED_SESSION && lastHeartBeat == connectionIndex == 0
    {
      ClientSocket := -1;
      todc, isAuth := false, false;
      lastHeartBeat, connectionIndex := 0, 0;
      key, iv := Zeros(32), Zeros(16);
    }

    method ResetTransport()
      modifies this`snddata, this`rcvread, this`packetsize, this`sendQueue
      modifies this`received, this`consumed, this`enqueued, this`wire
      ensures rcvread == packetsize == snddata == 0 && sendQueue == []
      ensures received == wire == [] && consumed == enqueued == []
    {
      snddata, rcvread, packetsize := 0, 0, 0;
      sendQueue := [];
      received, consumed, enqueued, wire := [], [], [], [];
    }

    method ClearBuffers()
      requires Layout()
      modifies inbuf, inbuf.buffer, outbuf, outbuf.buffer, rcvbuf, sndbuf
      ensures inbuf.Valid() && inbuf.Img() == EMPTY && outbuf.Img() == EMPTY
    {
      inbuf.ClearBuffer();
      outbuf.ClearBuffer();
      ZeroMemory(rcvbuf);
      ZeroMemory(sndbuf);
    }

    lemma NothingIsConserved()
      requires Layout()
      requires rcvread == packetsize == snddata == 0 && sendQueue == []
      requires received == wire == [] && consumed == enqueued == []
      ensures Receiving() && Sending()
    {
    }

    method Disconnect()
      modifies this`todc
      ensures todc
    {
      todc := true;
    }

    /**
     * `Send`: nothing on a closed slot, a disconnect for more than 8177 bytes, a refusal below 4
     * bytes, and otherwise exactly one frame on the queue. The precondition is what keeps the
     * padding loop from running for ever.
     */
    method Send(src: ServerPacket)
      requires Sending() && src.Valid()
      requires src.buffer != rcvbuf && src.buffer != sndbuf
      requires ClientSocket >= 0 && Sendable(src.pSize) ==> PadFits(src.pOffset, src.pSize - 2)
      modifies this`todc, this`sendQueue, this`enqueued, src, src.buffer
      ensures Sending() && src.Valid()
      ensures src.Img() == if ClientSocket >= 0 then AfterSend(old(src.Img())) else old(src.Img())
      ensures Box() == if ClientSocket >= 0 then Gain(old(Box()), old(src.Img())) else old(Box())
    {
      hide Client.Sending;
      assert enqueued + [] == enqueued && sendQueue + [] == sendQueue;
      if ClientSocket >= 0 {
        if BUFFER_SIZE < src.pSize + 15 {
          Disconnect();
        } else {
          if src.pSize - 4 < 0 || src.pSize > BUFFER_SIZE {
            return;
          }
          Queue(src);
        }
      }
    }

    /** The rest of `Send` for a size it accepts. */
    method Queue(src: ServerPacket)
      requires Sending() && src.Valid()
      requires src.buffer != rcvbuf && src.buffer != sndbuf
      requires Sendable(src.pSize) && PadFits(src.pOffset, src.pSize - 2)
      modifies this`sendQueue, this`enqueued, src, src.buffer
      ensures Sending() && src.Valid()
      ensures src.Img() == AfterSend(old(src.Img()))
      ensures enqueued == old(enqueued) + Emitted(old(src.Img()))
      ensures sendQueue == old(sendQueue) + EntriesOf(old(src.Img()))
    {
      hide Client.Sending, Sent, FrameOf;
      ghost var im := src.Img();
      src.pSize := src.pSize - 2;
      Pad(src, im);
      var newsize := src.pSize;
      if isAuth {
        if newsize + BLOCK_SIZE > BUFFER_SIZE {
          return;
        }
        // Encrypt is a copy of the body onto itself.
        if newsize < BLOCK_SIZE {
          return;
        }
      }
      AddToSendQueue(src, im);
    }

    /** The padding loop. */
    method Pad(src: ServerPacket, ghost im: Image)
      requires src.Valid() && Sound(im) && Sendable(im.size) && PadFits(im.off, im.size - 2)
      requires src.Img() == im.(size := im.size - 2)
      modifies src, src.buffer
      ensures src.Valid() && src.Img() == Padded(im)
    {
      hide Appended, Splice;
      ghost var body, n, k := im.(size := im.size - 2), PadTo(im.size - 2), 0;
      while src.pSize % 16 != 0 || src.pSize <= 16
        invariant body.size + k <= n && (k == 0 || body.off + k < BUFFER_SIZE)
        invariant src.Valid() && src.Img() == PaddedBy(body, k)
        decreases n - src.pSize
      {
        assert body.size + k < n;
        OneMoreZero(body, k);
        PadOne(src);
        k := k + 1;
      }
      if src.pSize < n {
        PadToIsLeast(body.size, src.pSize);
      }
    }

    method PadOne(src: ServerPacket)
      requires src.Valid()
      modifies src, src.buffer
      ensures src.Valid() && src.Img() == Appended(old(src.Img()), [0])
    {
      hide Appended;
      assert LE(0, 0) == [] && LE(1, 0) == [0];
      src.Append(1, 0);
    }

    /** Writes the length in front and copies the frame into a zeroed entry. */
    method AddToSendQueue(src: ServerPacket, ghost im: Image)
      requires Sending() && src.Valid() && src.buffer != rcvbuf && src.buffer != sndbuf
      requires Sound(im) && Sendable(im.size) && PadFits(im.off, im.size - 2)
      requires src.Img() == Padded(im)
      modifies this`sendQueue, this`enqueued, src.buffer
      ensures Sending() && src.Valid() && src.Img() == Sent(im)
      ensures enqueued == old(enqueued) + [FrameOf(im)]
      ensures sendQueue == old(sendQueue) + [Entry(FrameOf(im))]
    {
      hide Client.Sending, Sent, FrameOf, Padded, PadFits, Outbound;
      SendingHasLayout();
      var entry := Seal(src, im);
      FrameIsOutbound(im);
      Push(entry, FrameOf(im));
    }

    /** The length goes in front of the packet, and the frame to the front of a zeroed entry. */
    method Seal(src: ServerPacket, ghost im: Image) returns (entry: seq<Byte>)
      requires sndbuf.Length == BUFFER_SIZE && src.Valid()
      requires Sound(im) && Sendable(im.size) && PadFits(im.off, im.size - 2)
      requires src.Img() == Padded(im)
      modifies src.buffer
      ensures src.Valid() && src.Img() == Sent(im)
      ensures entry == Entry(FrameOf(im))
    {
      src.Store(0, WordBytes(src.pSize));
      assert src.Img() == Sent(im);
      var taken := if src.pSize + 2 < sndbuf.Length - 2 then src.pSize + 2 else sndbuf.Length - 2;
      assert taken == |FrameOf(im)|;
      entry := src.buffer[..taken] + Zeros(BUFFER_SIZE - taken);
    }

    method Push(entry: seq<Byte>, ghost f: seq<Byte>)
      requires Sending() && Outbound(f) && entry == Entry(f)
      modifies this`sendQueue, this`enqueued
      ensures Sending()
      ensures enqueued == old(enqueued) + [f] && sendQueue == old(sendQueue) + [entry]
    {
      EntryHoldsFrame(f);
      EnqueueKeepsSum(sendQueue, enqueued, wire + Unsent(), f);
      sendQueue := sendQueue + [entry];
      enqueued := enqueued + [f];
    }

    method GetFromSendQueue() returns (current: seq<Byte>)
      modifies this`sendQueue
      ensures old(sendQueue) != [] ==> [current] + sendQueue == old(sendQueue)
      ensures old(sendQueue) == [] ==> sendQueue == [] && current == Zeros(BUFFER_SIZE)
    {
      current := Zeros(BUFFER_SIZE);
      if |sendQueue| > 0 {
        current := sendQueue[0];
        sendQueue := sendQueue[1..];
      }
    }

    /** The gate in front of the packet handlers; the handler itself is the caller's business. */
    method ProcessPacket() returns (verdict: Verdict)
      requires inbuf.Valid() && inbuf.pSize <= BUFFER_SIZE
      modifies this`todc
      ensures verdict == Gate(old(View()), Word(inbuf.buffer[..], 2), inbuf.pSize)
      ensures todc == (old(todc) || verdict == Refused)
      ensures var ty := Word(inbuf.buffer[..], 2);
              && (verdict == Run(ty) <==> !old(todc) && ty < 6 && if isAuth then inbuf.pSize >= 16 else ty == 0)
              && (verdict == WildCall(ty) <==> !old(todc) && ty == 6 && isAuth && inbuf.pSize >= 16)
              && (verdict == Refused <==> !old(todc) && if isAuth then inbuf.pSize >= 16 && ty > 6 else ty != 0)
              && (verdict == Ignored <==> old(todc) || (isAuth && inbuf.pSize < 16))
    {
      if todc {
        return Ignored;
      }
      if isAuth && inbuf.pSize < BLOCK_SIZE {
        return Ignored;
      }
      var ty := Word(inbuf.buffer[..], 2);
      if ty > TABLE_SIZE || (!isAuth && ty != AUTH_TYPE) {
        Disconnect();
        return Refused;
      }
      verdict := if ty < TABLE_SIZE then Run(ty) else WildCall(ty);
    }

    /** `sendAuth`: the reply to a successful handshake. */
    method SendAuth(rnd: nat)
      requires Layout() && Sending() && outbuf.Valid() && rnd < 0x8000
      modifies this`todc, this`sendQueue, this`enqueued, outbuf, outbuf.buffer
      ensures Sending() && outbuf.Valid()
      ensures Box() == if ClientSocket >= 0 then Gain(old(Box()), AuthReply(rnd)) else old(Box())
      ensures todc == old(todc)
      ensures outbuf.Img() == if ClientSocket >= 0 then AfterSend(AuthReply(rnd)) else AuthReply(rnd)
    {
      hide Client.Sending, Emitted, EntriesOf, AfterSend, AuthReply;
      BuildAuth(rnd);
      AuthReplyIsSendable(rnd);
      assert outbuf.pSize == outbuf.pOffset == 30;
      Send(outbuf);
    }

    /** The heartbeat packet, built on any slot and queued on an open one. */
    method SendHeartBeat(tick: nat)
      requires Layout() && Sending() && outbuf.Valid() && tick < U32_LIMIT
      modifies this`todc, this`sendQueue, this`enqueued, outbuf, outbuf.buffer
      ensures Sending() && outbuf.Valid()
      ensures Box() == if ClientSocket >= 0 then Gain(old(Box()), HeartBeat(tick)) else old(Box())
      ensures outbuf.Img() == if ClientSocket >= 0 then AfterSend(HeartBeat(tick)) else HeartBeat(tick)
      ensures todc == old(todc)
    {
      hide Client.Sending, Emitted, EntriesOf, AfterSend, HeartBeat;
      BuildHeartBeat(tick);
      HeartBeatIsSendable(tick);
      assert outbuf.pSize == outbuf.pOffset == 10;
      Send(outbuf);
    }

    method BuildHeartBeat(tick: nat)
      requires outbuf.Valid() && tick < U32_LIMIT
      modifies outbuf, outbuf.buffer
      ensures outbuf.Valid() && outbuf.Img() == HeartBeat(tick)
    {
      outbuf.Begin(0, 1);
      Pow256Values();
      outbuf.Append(4, tick);
    }

    method BuildAuth(rnd: nat)
      requires outbuf.Valid() && rnd < 0x8000
      modifies outbuf, outbuf.buffer
      ensures outbuf.Valid() && outbuf.Img() == AuthReply(rnd)
    {
      outbuf.Begin(0, 0);
      Pow256Values();
      outbuf.Append(4, rnd);
      outbuf.Append(4, rnd / 8);
      outbuf.AppendString(AUTH_NAME, 0x10);
    }
  }

  lemma EnqueueKeepsSum(queue: seq<seq<Byte>>, all: seq<seq<Byte>>, front: seq<Byte>, f: seq<Byte>)
    requires Outbound(f) && front + Concat(Contents(queue)) == Concat(all)
    ensures Entries(queue) ==> Entries(queue + [Entry(f)])
    ensures front + Concat(Contents(queue + [Entry(f)])) == Concat(all + [f])
  {
    EntryHoldsFrame(f);
    assert Contents(queue + [Entry(f)]) == Contents(queue) + [f];
    ConcatOne(Contents(queue), f);
    ConcatOne(all, f);
    AppendAssoc(front, Concat(Contents(queue)), f);
  }

  /** "Tofuman". */
  const AUTH_NAME: seq<Byte> := [0x54, 0x6F, 0x66, 0x75, 0x6D, 0x61, 0x6E]

  function AuthReply(rnd: nat): (im: Image)
    ensures Sound(im)
  {
    AppendedString(Appended(Appended(Begun(0, 0), LE(4, rnd)), LE(4, rnd / 8)), AUTH_NAME, 0x10)
  }

  /** The reply to a handshake is always one frame of 34 bytes. */
  lemma AuthReplyIsSendable(rnd: nat)
    ensures AuthReply(rnd).off == AuthReply(rnd).size == 30
    ensures Sendable(30) && PadFits(30, 28)
    ensures Emitted(AuthReply(rnd)) != [] && |Emitted(AuthReply(rnd))[0]| == 34
  {
  }

  function HeartBeat(tick: nat): (im: Image)
    ensures Sound(im)
  {
    Appended(Begun(0, 1), LE(4, tick))
  }

  lemma HeartBeatIsSendable(tick: nat)
    ensures HeartBeat(tick).off == HeartBeat(tick).size == 10
    ensures Sendable(10) && PadFits(10, 8)
    ensures Emitted(HeartBeat(tick)) != [] && |Emitted(HeartBeat(tick))[0]| == 34
  {
  }
}
