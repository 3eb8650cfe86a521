/** Receiving and sending on one slot, with the results of `recv` and `send` as arbitrary outcomes. */
module Servers {
  import opened Bytes
  import opened Packet
  import opened Framing
  import opened Outgoing
  import opened Sessions
  import opened Clients

  /** What `send` can answer. */
  datatype SendOutcome = Took(n: nat) | SendBlocked | SendBroken

  /** What `recv` can answer; `reset` is the error code looked at after zero bytes. */
  datatype RecvOutcome = Got(data: seq<Byte>, reset: bool) | RecvBlocked | RecvBroken

  /** What the packet buffer holds when a frame is handed over: a frame of 8192 bytes is not copied. */
  function Presented(bytes: seq<Byte>, f: seq<Byte>): (r: seq<Byte>)
    requires |bytes| == BUFFER_SIZE
    ensures |r| == BUFFER_SIZE
  {
    if |f| < BUFFER_SIZE then Splice(bytes, 0, f) else bytes
  }

  /** The size check of `CheckClientPackets` and the gate behind it. */
  function Judge(bytes: seq<Byte>, s: Session): Verdict
    requires |bytes| == BUFFER_SIZE
  {
    if Word(bytes, 0) > BUFFER_SIZE then Refused else Gate(s, Word(bytes, 2), Word(bytes, 0))
  }

  /**
   * A delivered frame is what the handler sees, whatever the packet buffer held before,
   * exactly when it is shorter than the buffer or the buffer happened to hold it already.
   */
  lemma FramePresentedIff(bytes: seq<Byte>, f: seq<Byte>)
    requires |bytes| == BUFFER_SIZE && Whole(f)
    ensures At(Presented(bytes, f), 0, f) <==> |f| < BUFFER_SIZE || bytes == f
    ensures |f| < BUFFER_SIZE ==> Word(Presented(bytes, f), 0) == |f| - 2
  {
  }

  /** The bytes `send` is offered: what is left of the last frame, or the next frame. */
  function Offer(unsent: seq<Byte>, queue: seq<seq<Byte>>): seq<Byte> {
    if unsent != [] then unsent else if queue != [] then queue[0] else []
  }

  /** The queue behind that offer. */
  function Behind(unsent: seq<Byte>, queue: seq<seq<Byte>>): seq<seq<Byte>> {
    if unsent != [] || queue == [] then queue else queue[1..]
  }

  lemma OfferConserves(unsent: seq<Byte>, queue: seq<seq<Byte>>)
    ensures Offer(unsent, queue) + Concat(Behind(unsent, queue)) == unsent + Concat(queue)
  {
  }

  /** Moving the front of the unsent bytes onto the wire keeps the sum of all bytes. */
  lemma TransmitKeepsSum(wire: seq<Byte>, unsent: seq<Byte>, n: nat)
    requires n <= |unsent|
    ensures (wire + unsent[..n]) + unsent[n..] == wire + unsent
  {
  }

  // ---------------------------------------------------------------- receiving

  /** Hands one frame to the packet buffer and the gate. */
  method CheckClientPackets(c: Client, tmprcv: seq<Byte>) returns (verdict: Verdict)
    requires c.inbuf.Valid()
    modifies c`todc, c.inbuf, c.inbuf.buffer
    ensures c.inbuf.Valid()
    ensures |tmprcv| >= 6 ==>
              && c.inbuf.buffer[..] == Presented(old(c.inbuf.buffer[..]), tmprcv)
              && c.inbuf.pSize == Word(c.inbuf.buffer[..], 0)
              && verdict == Judge(c.inbuf.buffer[..], old(c.View()))
              && c.todc == (old(c.todc) || verdict == Refused)
              && (Word(c.inbuf.buffer[..], 0) > 8192 ==> verdict == Refused)
              && (Word(c.inbuf.buffer[..], 0) <= 8192 ==>
                    verdict == Gate(old(c.View()), Word(c.inbuf.buffer[..], 2), Word(c.inbuf.buffer[..], 0)))
    ensures |tmprcv| < 6 ==>
              verdict == Ignored && c.todc == old(c.todc) && c.inbuf.Img() == old(c.inbuf.Img())
  {
    verdict := Ignored;
    if |tmprcv| >= 6 {
      c.inbuf.SetArray(tmprcv, 0);
      c.inbuf.pSize := Word(c.inbuf.buffer[..], 0);
      if c.inbuf.pSize > BUFFER_SIZE {
        c.Disconnect();
        verdict := Refused;
      } else {
        verdict := c.ProcessPacket();
      }
    }
  }

  /** Takes note of the `len` bytes `recv` has just stored and delivers at most one frame. */
  method ProcessRecv(c: Client, len: nat) returns (ok: bool, verdict: Verdict)
    requires c.Receiving() && c.inbuf.Valid() && c.rcvread + len <= BUFFER_SIZE
    modifies c`rcvread, c`packetsize, c`hassize, c`received, c`consumed, c`todc, c.rcvbuf, c.inbuf, c.inbuf.buffer
    ensures c.Receiving() && c.inbuf.Valid()
    ensures var s := old(c.Pending() + c.rcvbuf[c.rcvread..c.rcvread + len]);
            ok <==> |s| >= 2 && 4 <= Word(s, 0) <= 8190 && Word(s, 0) + 2 <= |s|
    ensures var chunk := old(c.rcvbuf[c.rcvread..c.rcvread + len]);
            && c.received == old(c.received) + chunk
            && ok == (Taken(old(c.Pending()), chunk) != [])
            && Settled(old(c.Pending()), old(c.consumed), old(c.inbuf.Img()), old(c.View()), chunk, c, verdict)
  {
    hide Word, Judge, Presented, Client.Receiving, HandedOver, Declared;
    c.ReceivingHasLayout();
    verdict := Ignored;
    HeadReadyIff(c.Pending() + c.rcvbuf[c.rcvread..c.rcvread + len]);
    NoteBytes(c, len);
    if c.hassize && c.rcvread >= c.packetsize && c.packetsize >= 6 {
      verdict := Deliver(c);
      return true, verdict;
    }
    return false, verdict;
  }

  /** The first half: the new bytes are pending, and the size is known once two bytes are there. */
  method NoteBytes(c: Client, len: nat)
    requires c.Receiving() && c.rcvread + len <= BUFFER_SIZE
    modifies c`rcvread, c`packetsize, c`hassize, c`received
    ensures c.Receiving()
    ensures c.Pending() == old(c.Pending() + c.rcvbuf[c.rcvread..c.rcvread + len])
    ensures c.received == old(c.received + c.rcvbuf[c.rcvread..c.rcvread + len])
    ensures c.rcvread >= 2 ==> c.hassize && c.packetsize == Declared(c.Pending())
    ensures c.rcvread < 2 ==> c.packetsize == 0
  {
    ghost var chunk, before := c.rcvbuf[c.rcvread..c.rcvread + len], c.Pending();
    c.rcvread := c.rcvread + len;
    assert c.Pending() == before + chunk;
    AppendAssoc(Concat(c.consumed), before, chunk);
    c.received := c.received + chunk;
    if c.packetsize != 0 {
      HeadIsStable(before, chunk);
    }
    if (!c.hassize || c.packetsize == 0) && c.rcvread >= 2 {
      c.packetsize := Wrap16(Word(c.rcvbuf[..c.rcvread], 0) + 2);
      c.hassize := true;
    }
  }

  /** The second half: the frame at the front is handed over and the buffer shifted. */
  method Deliver(c: Client) returns (verdict: Verdict)
    requires c.Receiving() && c.inbuf.Valid()
    requires HeadReady(c.Pending()) && c.packetsize == Declared(c.Pending())
    modifies c`rcvread, c`packetsize, c`hassize, c`consumed, c`todc, c.rcvbuf, c.inbuf, c.inbuf.buffer
    ensures c.Receiving() && c.inbuf.Valid()
    ensures var s, d := old(c.Pending()), old(c.packetsize);
            && c.Pending() == s[d..] && c.consumed == old(c.consumed) + [s[..d]]
            && HandedOver(old(c.inbuf.buffer[..]), s[..d], old(c.View()), c, verdict)
  {
    ghost var pending := c.Pending();
    var recvbuf := c.rcvbuf[..c.packetsize];
    assert recvbuf == pending[..c.packetsize];
    HeadIsWhole(pending);
    AppendAssoc(Concat(c.consumed), recvbuf, pending[c.packetsize..]);
    ConcatOne(c.consumed, recvbuf);
    verdict := CheckClientPackets(c, recvbuf);
    Shift(c, c.packetsize);
    c.consumed := c.consumed + [recvbuf];
  }

  /** What a delivery leaves behind. */
  ghost predicate HandedOver(bytes: seq<Byte>, f: seq<Byte>, s: Session, c: Client, verdict: Verdict)
    reads c, c.inbuf, c.inbuf.buffer
  {
    && |bytes| == BUFFER_SIZE == c.inbuf.buffer.Length
    && c.inbuf.buffer[..] == Presented(bytes, f)
    && c.inbuf.pSize == Word(c.inbuf.buffer[..], 0)
    && verdict == Judge(c.inbuf.buffer[..], s)
    && c.todc == (s.todc || verdict == Refused)
  }

  /** What one call of the receive path makes of a chunk: at most one frame leaves. */
  ghost predicate Settled(pending: seq<Byte>, consumed: seq<seq<Byte>>, im: Image, s: Session,
                          chunk: seq<Byte>, c: Client, verdict: Verdict)
    reads c, c.rcvbuf, c.inbuf, c.inbuf.buffer
  {
    var taken := Taken(pending, chunk);
    && c.rcvread <= c.rcvbuf.Length
    && c.Pending() == After(pending, chunk)
    && c.consumed == consumed + taken
    && (taken != [] ==> HandedOver(im.bytes, taken[0], s, c, verdict))
    && (taken == [] ==> verdict == Ignored && c.todc == s.todc && c.inbuf.Img() == im)
  }

  /** Moves what follows the delivered frame to the front of the receive buffer. */
  method Shift(c: Client, size: nat)
    requires c.rcvbuf.Length == BUFFER_SIZE && size <= c.rcvread <= BUFFER_SIZE
    modifies c`rcvread, c`packetsize, c`hassize, c.rcvbuf
    ensures c.rcvread == old(c.rcvread) - size && c.packetsize == 0 && !c.hassize
    ensures c.rcvbuf[..c.rcvread] == old(c.rcvbuf[..c.rcvread])[size..]
  {
    var recvbuf := c.rcvbuf[size..];
    forall i | 0 <= i < |recvbuf| { c.rcvbuf[i] := recvbuf[i]; }
    c.hassize := false;
    c.rcvread := c.rcvread - size;
    c.packetsize := 0;
  }

  /** The chunk a call of `recv` brings. */
  function Chunk(outcome: RecvOutcome): seq<Byte> {
    if outcome.Got? then outcome.data else []
  }

  /** Whether `Recv` goes on to `ProcessRecv` at all. */
  predicate Processes(outcome: RecvOutcome, buffered: nat) {
    match outcome
    case Got(data, reset) => data != [] || !reset
    case RecvBlocked => buffered > 0
    case RecvBroken => false
  }

  /** `recv` writes behind the bytes already buffered. */
  method StoreChunk(c: Client, chunk: seq<Byte>)
    requires c.Receiving() && c.rcvread + |chunk| <= BUFFER_SIZE
    modifies c.rcvbuf
    ensures c.Receiving() && c.Pending() == old(c.Pending())
    ensures c.rcvread + |chunk| <= c.rcvbuf.Length == BUFFER_SIZE
    ensures c.rcvbuf[c.rcvread..c.rcvread + |chunk|] == chunk
  {
    ghost var before := c.Pending();
    forall i | 0 <= i < |chunk| { c.rcvbuf[c.rcvread + i] := chunk[i]; }
    assert c.Pending() == before;
  }

  /** One call of the receive path. */
  method Recv(c: Client, outcome: RecvOutcome) returns (ok: bool, verdict: Verdict)
    requires c.Receiving() && c.inbuf.Valid() && |Chunk(outcome)| <= BUFFER_SIZE - c.rcvread
    modifies c`rcvread, c`packetsize, c`hassize, c`received, c`consumed, c`todc, c.rcvbuf, c.inbuf, c.inbuf.buffer
    ensures c.Receiving() && c.inbuf.Valid()
    ensures c.received == old(c.received) + Chunk(outcome)
    ensures Processes(outcome, old(c.rcvread)) ==>
              Settled(old(c.Pending()), old(c.consumed), old(c.inbuf.Img()), old(c.View()), Chunk(outcome), c, verdict)
    ensures !Processes(outcome, old(c.rcvread)) ==>
              && c.Pending() == old(c.Pending()) && c.consumed == old(c.consumed)
              && verdict == Ignored && c.inbuf.Img() == old(c.inbuf.Img())
              && c.todc == (old(c.todc) || outcome.RecvBroken?)
    ensures ok <==> !outcome.RecvBroken? && outcome != Got([], true)
  {
    hide Client.Receiving, Settled, After, Taken;
    verdict := Ignored;
    assert c.received == c.received + [];
    match outcome {
      case RecvBroken =>
        c.Disconnect();
        ok := false;
      case RecvBlocked =>
        ok := true;
        if c.rcvread > 0 {
          verdict := Process(c, []);
        }
      case Got(data, reset) =>
        ok := |data| > 0 || !reset;
        if ok {
          verdict := Process(c, data);
        }
    }
  }

  /** `recv` has brought these bytes: they are stored and processed. */
  method Process(c: Client, chunk: seq<Byte>) returns (verdict: Verdict)
    requires c.Receiving() && c.inbuf.Valid() && |chunk| <= BUFFER_SIZE - c.rcvread
    modifies c`rcvread, c`packetsize, c`hassize, c`received, c`consumed, c`todc, c.rcvbuf, c.inbuf, c.inbuf.buffer
    ensures c.Receiving() && c.inbuf.Valid() && c.received == old(c.received) + chunk
    ensures Settled(old(c.Pending()), old(c.consumed), old(c.inbuf.Img()), old(c.View()), chunk, c, verdict)
  {
    hide Client.Receiving, Settled, After, Taken;
    c.ReceivingHasLayout();
    StoreChunk(c, chunk);
    var _, v := ProcessRecv(c, |chunk|);
    verdict := v;
  }

  /**
   * With nothing more arriving, the polling server delivers every complete frame it has
   * buffered and then keeps exactly the incomplete rest.
   */
  method PollUntilIdle(c: Client)
    requires c.Receiving() && c.inbuf.Valid()
    modifies c`rcvread, c`packetsize, c`hassize, c`received, c`consumed, c`todc, c.rcvbuf, c.inbuf, c.inbuf.buffer
    ensures c.Receiving() && c.inbuf.Valid()
    ensures c.consumed == old(c.consumed) + Frames(old(c.Pending()))
    ensures c.Pending() == Rest(old(c.Pending())) && c.received == old(c.received)
  {
    ghost var start, done := c.Pending(), [];
    while c.rcvread >= 2 && HeadReady(c.rcvbuf[..c.rcvread])
      invariant c.Receiving() && c.inbuf.Valid() && c.received == old(c.received)
      invariant c.consumed == old(c.consumed) + done
      invariant Frames(start) == done + Frames(c.Pending()) && Rest(start) == Rest(c.Pending())
      decreases c.rcvread
    {
      ghost var pending := c.Pending();
      assert pending + [] == pending;
      var ok, verdict := Recv(c, RecvBlocked);
      assert Frames(pending) == [pending[..Declared(pending)]] + Frames(c.Pending());
      AppendAssoc(done, [pending[..Declared(pending)]], Frames(c.Pending()));
      AppendAssoc(old(c.consumed), done, [pending[..Declared(pending)]]);
      done := done + [pending[..Declared(pending)]];
      assert c.received == old(c.received) + [] == old(c.received);
    }
    assert done + [] == done;
  }

  // ---------------------------------------------------------------- sending

  /** One call of the send path. */
  method Send(c: Client, outcome: SendOutcome) returns (ok: bool)
    requires c.Sending()
    requires outcome.Took? ==> outcome.n <= |Offer(c.Unsent(), Contents(c.sendQueue))|
    modifies c`snddata, c`sendQueue, c`wire, c`todc, c.sndbuf
    ensures c.Sending()
    ensures var offer := old(Offer(c.Unsent(), Contents(c.sendQueue)));
            && Contents(c.sendQueue) == old(Behind(c.Unsent(), Contents(c.sendQueue)))
            && (outcome.Took? ==> c.wire == old(c.wire) + offer[..outcome.n] && c.Unsent() == offer[outcome.n..])
            && (!outcome.Took? ==> c.wire == old(c.wire) && c.Unsent() == offer)
            && (ok <==> offer == [] || !outcome.SendBroken?)
            && c.todc == (old(c.todc) || !ok)
  {
    if c.snddata > 0 || |c.sendQueue| > 0 {
      Load(c);
      match outcome {
        case SendBlocked =>
        case SendBroken =>
          c.Disconnect();
          return false;
        case Took(n) =>
          Transmit(c, n);
      }
    }
    return true;
  }

  /** Takes the next entry off the queue when nothing is left to send. */
  method Load(c: Client)
    requires c.Sending() && (c.snddata > 0 || |c.sendQueue| > 0)
    modifies c`snddata, c`sendQueue, c.sndbuf
    ensures c.Sending()
    ensures c.Unsent() == old(Offer(c.Unsent(), Contents(c.sendQueue))) != []
    ensures Contents(c.sendQueue) == old(Behind(c.Unsent(), Contents(c.sendQueue)))
  {
    if c.snddata <= 0 {
      ghost var queue := c.sendQueue;
      PopKeepsEntries(queue);
      OfferConserves(c.Unsent(), Contents(queue));
      AppendAssoc(c.wire, c.Unsent(), Concat(Contents(queue)));
      var entry := c.GetFromSendQueue();
      assert entry == queue[0] && c.sendQueue == queue[1..];
      AppendAssoc(c.wire, Content(entry), Concat(Contents(c.sendQueue)));
      c.snddata := Word(entry, 0) + 2;
      CopyEntry(c.sndbuf, entry);
      assert c.Unsent() == Content(entry);
    }
  }

  method CopyEntry(a: array<Byte>, entry: seq<Byte>)
    requires a.Length == |entry|
    modifies a
    ensures a[..] == entry
  {
    forall i | 0 <= i < a.Length { a[i] := entry[i]; }
  }

  /** The socket took `n` bytes: the rest moves to the front of the send buffer. */
  method Transmit(c: Client, n: nat)
    requires c.Sending() && n <= c.snddata
    modifies c`snddata, c`wire, c.sndbuf
    ensures c.Sending()
    ensures c.wire == old(c.wire) + old(c.Unsent())[..n] && c.Unsent() == old(c.Unsent())[n..]
  {
    TransmitKeepsSum(c.wire, c.Unsent(), n);
    c.wire := c.wire + c.sndbuf[..n];
    assert c.sndbuf[..n] == c.Unsent()[..n];
    var rest := c.sndbuf[n..c.snddata];
    assert rest == c.Unsent()[n..];
    c.snddata := c.snddata - n;
    forall i | 0 <= i < |rest| { c.sndbuf[i] := rest[i]; }
    assert c.Unsent() == rest;
  }
}
