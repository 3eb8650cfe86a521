/**
 * One slot over any schedule of receives, transmissions, handler actions and heartbeats. What the
 * slot does is a function of the schedule and of what `Value` shows.
 */
module Schedules {
  import opened Bytes
  import opened Packet
  import opened Framing
  import opened Outgoing
  import opened Sessions
  import opened Clients
  import opened Servers

  /** The receiving side: bytes not yet consumed, frames consumed, and the packet buffer. */
  datatype Inward = Inward(pending: seq<Byte>, consumed: seq<seq<Byte>>, shown: seq<Byte>)

  /** The sending side: the rest of the frame being sent, the queue, and the history of both. */
  datatype Outward = Outward(unsent: seq<Byte>, queue: seq<seq<Byte>>, enqueued: seq<seq<Byte>>, wire: seq<Byte>)

  /**
   * What the future of a slot depends on. The size flag and the noted size, and whatever the
   * arrays hold behind their counters, are not part of it.
   */
  datatype SlotState = SlotState(
    view: Session,
    inward: Inward,
    outward: Outward,
    lastHeartBeat: nat,
    reply: Image)           // the packet object that replies are built in

  datatype Op =
    | Feed(received: RecvOutcome)                       // the receive path
    | Flush(sent: SendOutcome)                          // the send path
    | Reply(ty: nat, subtype: nat, calls: seq<Call>)    // a handler builds a packet and sends it
    | Again                                             // a request no handler knows: the old reply is sent
    | Share                                             // a broadcast sends the reply to another slot, too
    | Hear(ty: nat, subtype: nat, calls: seq<Call>)     // a broadcast from another slot
    | Admit(pair: Pair, rnd: nat)                       // the handshake succeeds and is answered
    | Reject                                            // the handshake fails
    | ClientBeat(tick: nat)                             // the client's heartbeat packet
    | Turn(now: nat, tick: nat)                         // the end of a turn of the server loop

  predicate Sized(i: Inward) {
    |i.pending| <= BUFFER_SIZE && |i.shown| == BUFFER_SIZE
  }

  predicate Proper(v: SlotState) {
    Sized(v.inward) && Sound(v.reply)
  }

  /** Who is at the other end. The handle of a socket never matters, only that it is one. */
  ghost function Peer(c: Client): (s: Session)
    reads c`ClientSocket, c`isAuth, c`iv, c`key
    ensures Open(s) == (c.ClientSocket >= 0) && s.auth == c.isAuth
  {
    Session(if c.ClientSocket >= 0 then 0 else -1, false, c.isAuth, Pair(c.iv, c.key))
  }

  ghost function InwardOf(c: Client): Inward
    requires c.rcvread <= c.rcvbuf.Length
    reads c`rcvread, c`consumed, c.rcvbuf, c.inbuf.buffer
  {
    Inward(c.Pending(), c.consumed, c.inbuf.buffer[..])
  }

  ghost function OutwardOf(c: Client): Outward
    requires c.snddata <= c.sndbuf.Length
    reads c`snddata, c`sendQueue, c`enqueued, c`wire, c.sndbuf
  {
    Outward(c.Unsent(), Contents(c.sendQueue), c.enqueued, c.wire)
  }

  ghost function Value(c: Client): (v: SlotState)
    requires c.Valid()
    reads c, c.rcvbuf, c.sndbuf, c.inbuf, c.inbuf.buffer, c.outbuf, c.outbuf.buffer
    ensures Proper(v)
  {
    SlotState(Peer(c).(todc := c.todc), InwardOf(c), OutwardOf(c), c.lastHeartBeat, c.outbuf.Img())
  }

  // ---------------------------------------------------------------- one step

  /** `recv` brings no more than the free part of the buffer. */
  function Fitting(outcome: RecvOutcome, buffered: nat): (r: RecvOutcome)
    requires buffered <= BUFFER_SIZE
    ensures |Chunk(r)| <= BUFFER_SIZE - buffered
  {
    if outcome.Got? && |outcome.data| > BUFFER_SIZE - buffered
    then outcome.(data := outcome.data[..BUFFER_SIZE - buffered])
    else outcome
  }

  /** `send` takes no more than it is offered. */
  function Possible(outcome: SendOutcome, offered: nat): (r: SendOutcome)
    ensures r.Took? ==> r.n <= offered
  {
    if outcome.Took? && outcome.n > offered then Took(offered) else outcome
  }

  /** A chunk, perhaps empty, is processed: at most one frame is handed over. */
  function Processed(s: Session, i: Inward, chunk: seq<Byte>): (bool, Inward, Verdict)
    requires |i.shown| == BUFFER_SIZE
  {
    var taken, after := Taken(i.pending, chunk), After(i.pending, chunk);
    if taken == [] then (s.todc, i.(pending := after), Ignored)
    else
      var shown := Presented(i.shown, taken[0]);
      var verdict := Judge(shown, s);
      (s.todc || verdict == Refused, Inward(after, i.consumed + taken, shown), verdict)
  }

  /** The receive path, with the disconnect of the server loop when it fails. */
  function Fed(s: Session, i: Inward, outcome: RecvOutcome): (bool, Inward, Verdict)
    requires Sized(i)
  {
    var o := Fitting(outcome, |i.pending|);
    if Processes(o, |i.pending|) then Processed(s, i, Chunk(o)) else (s.todc || !o.RecvBlocked?, i, Ignored)
  }

  /** The send path, with the disconnect of the server loop when it fails. */
  function Flushed(todc: bool, o: Outward, outcome: SendOutcome): (bool, Outward) {
    var offer := Offer(o.unsent, o.queue);
    var n := if outcome.Took? then Possible(outcome, |offer|).n else 0;
    (todc || (offer != [] && outcome.SendBroken?),
     o.(queue := Behind(o.unsent, o.queue), unsent := offer[n..], wire := o.wire + offer[..n]))
  }

  function Replied(open: bool, todc: bool, o: Outward, im: Image): (bool, Outward)
    requires Sound(im)
  {
    if open then
      (todc || im.size > MAX_PACKET, o.(queue := o.queue + Emitted(im), enqueued := o.enqueued + Emitted(im)))
    else (todc, o)
  }

  function Made(ty: nat, subtype: nat, calls: seq<Call>): (im: Image)
    ensures Sound(im)
  {
    Build(Begun(Wrap16(ty), Wrap16(subtype)), calls)
  }

  /** This packet in the reply buffer is sent; on a closed slot it only stays there. */
  function Answered(v: SlotState, im: Image): (r: SlotState)
    requires Sound(im)
    ensures r.lastHeartBeat == v.lastHeartBeat && r.inward == v.inward
    ensures r.view == v.view.(todc := r.view.todc)
  {
    var (todc, o) := Replied(Open(v.view), v.view.todc, v.outward, im);
    v.(view := v.view.(todc := todc), outward := o, reply := if Open(v.view) then AfterSend(im) else im)
  }

  function Effect(v: SlotState, op: Op): (SlotState, seq<Verdict>)
    requires Proper(v)
  {
    match op
    case Feed(outcome) =>
      var (todc, i, verdict) := Fed(v.view, v.inward, outcome);
      (v.(view := v.view.(todc := todc), inward := i), [verdict])
    case Flush(outcome) =>
      var (todc, o) := Flushed(v.view.todc, v.outward, outcome);
      (v.(view := v.view.(todc := todc), outward := o), [])
    case Reply(ty, subtype, calls) => (Answered(v, Made(ty, subtype, calls)), [])
    case Again => (if v.view.auth then Answered(v, v.reply) else v, [])
    case Share => (if v.view.auth then v.(reply := AfterSend(v.reply)) else v, [])
    case Hear(ty, subtype, calls) => (Answered(v, Made(ty, subtype, calls)).(reply := v.reply), [])
    case Admit(pair, rnd) =>
      (Answered(v.(view := v.view.(auth := true, pair := pair)), AuthReply(rnd % 0x8000)), [])
    case Reject => (v.(view := v.view.(todc := true)), [])
    case ClientBeat(tick) => (v.(lastHeartBeat := (tick + HEARTBEAT_TIME) % U32_LIMIT), [])
    case Turn(now, tick) =>
      (if v.lastHeartBeat < now
       then Answered(v.(lastHeartBeat := now + HEARTBEAT_TIME), HeartBeat(tick % U32_LIMIT)) else v, [])
  }

  /** Requests other than the handshake reach a handler, known or not, on an authenticated slot only. */
  lemma GateNeedsAuth(s: Session, ty: nat, size: nat)
    requires Handles(Gate(s, ty, size)) && ty != AUTH_TYPE
    ensures s.auth
  {
  }

  lemma EffectIsProper(v: SlotState, op: Op)
    requires Proper(v)
    ensures Proper(Effect(v, op).0)
  {
    hide Sound, Made, AuthReply, HeartBeat, AfterSend, Emitted, Presented, Judge;
  }

  /** The value after a schedule, and the verdicts of the gate along it. */
  function Outcome(v: SlotState, ops: seq<Op>): (r: (SlotState, seq<Verdict>))
    requires Proper(v)
    ensures Proper(r.0)
  {
    if ops == [] then (v, [])
    else
      var (before, verdicts) := Outcome(v, ops[..|ops| - 1]);
      var (after, more) := Effect(before, ops[|ops| - 1]);
      EffectIsProper(before, ops[|ops| - 1]);
      (after, verdicts + more)
  }

  /** These send the reply packet once more, without building it anew. */
  predicate IsRepeat(op: Op) {
    op.Again? || op.Share?
  }

  /** The old reply can be sent: the padding loop of that send ends. */
  predicate CanRepeat(v: SlotState) {
    v.view.auth && Sendable(v.reply.size) ==> PadFits(v.reply.off, v.reply.size - 2)
  }

  /** No send along the schedule hangs in the padding loop; only sends of an old reply can. */
  predicate Terminates(v: SlotState, ops: seq<Op>)
    requires Proper(v)
  {
    ops == [] ||
    (var before := ops[..|ops| - 1];
     Terminates(v, before) && (IsRepeat(ops[|ops| - 1]) ==> CanRepeat(Outcome(v, before).0)))
  }

  // ---------------------------------------------------------------- replies

  method Perform(p: ServerPacket, call: Call)
    requires p.Valid()
    modifies p, p.buffer
    ensures p.Valid() && p.Img() == Apply(old(p.Img()), call)
  {
    match call {
      case Num(width, v) => p.AppendArray(LE(width, v));
      case Arr(data) => p.AppendArray(data);
      case Text(text, width) => p.AppendString(text, width);
      case Hole(n) => p.Advance(n);
      case Slot(data, n) =>
        p.SetArray(data, p.pOffset);
        p.Advance(n);
    }
  }

  method Make(p: ServerPacket, ty: nat, subtype: nat, calls: seq<Call>)
    requires p.Valid()
    modifies p, p.buffer
    ensures p.Valid() && p.Img() == Made(ty, subtype, calls)
  {
    hide Apply, Begun;
    p.Begin(Wrap16(ty), Wrap16(subtype));
    for i := 0 to |calls|
      invariant p.Valid() && p.Img() == Made(ty, subtype, calls[..i])
    {
      assert calls[..i + 1][..i] == calls[..i];
      Perform(p, calls[i]);
    }
    assert calls[..|calls|] == calls;
  }

  lemma MadeIsSendable(ty: nat, subtype: nat, calls: seq<Call>)
    ensures var im := Made(ty, subtype, calls);
            Sendable(im.size) ==> PadFits(im.off, im.size - 2)
  {
    BuiltPacketsAreSendable(Wrap16(ty), Wrap16(subtype), calls);
  }

  /** The frame of a packet whose calls fit. */
  lemma MadeFrame(ty: nat, subtype: nat, calls: seq<Call>)
    requires ty < U16_LIMIT && subtype < U16_LIMIT && AllPlain(calls) && 6 + Widths(calls) <= MAX_PACKET
    ensures Emitted(Made(ty, subtype, calls)) == [ReplyBytes(ty, subtype, calls)]
  {
    ReplyFrame(ty, subtype, calls);
  }

  lemma EntriesHoldFrames(queue: seq<seq<Byte>>, im: Image)
    requires Sound(im)
    ensures Contents(queue + EntriesOf(im)) == Contents(queue) + Emitted(im)
  {
    if Emitted(im) == [] {
      assert queue + [] == queue && Contents(queue) + [] == Contents(queue);
    } else {
      FrameIsOutbound(im);
      EntryHoldsFrame(FrameOf(im));
      assert Emitted(im) == [FrameOf(im)];
    }
  }

  /** A handler's reply: whatever the handler builds, `Send` terminates on it. */
  method SendReply(c: Client, ty: nat, subtype: nat, calls: seq<Call>)
    requires c.Sending() && c.outbuf.Valid()
    modifies c`todc, c`sendQueue, c`enqueued, c.outbuf, c.outbuf.buffer
    ensures c.Sending() && c.outbuf.Valid()
    ensures (c.todc, OutwardOf(c))
         == Replied(c.ClientSocket >= 0, old(c.todc), old(OutwardOf(c)), Made(ty, subtype, calls))
    ensures c.outbuf.Img() == if c.ClientSocket >= 0 then AfterSend(Made(ty, subtype, calls))
                              else Made(ty, subtype, calls)
    ensures c.ClientSocket >= 0 && ty < U16_LIMIT && subtype < U16_LIMIT
            && AllPlain(calls) && 6 + Widths(calls) <= MAX_PACKET ==>
              c.enqueued == old(c.enqueued) + [ReplyBytes(ty, subtype, calls)]
  {
    hide Made, Emitted, AfterSend, ReplyBytes, Client.Sending;
    c.SendingHasLayout();
    if ty < U16_LIMIT && subtype < U16_LIMIT && AllPlain(calls) && 6 + Widths(calls) <= MAX_PACKET {
      MadeFrame(ty, subtype, calls);
    }
    Make(c.outbuf, ty, subtype, calls);
    MadeIsSendable(ty, subtype, calls);
    SendBuilt(c);
  }

  method SendBuilt(c: Client)
    requires c.Sending() && c.outbuf.Valid()
    requires c.ClientSocket >= 0 && Sendable(c.outbuf.pSize) ==> PadFits(c.outbuf.pOffset, c.outbuf.pSize - 2)
    modifies c`todc, c`sendQueue, c`enqueued, c.outbuf, c.outbuf.buffer
    ensures c.Sending() && c.outbuf.Valid()
    ensures (c.todc, OutwardOf(c)) == Replied(c.ClientSocket >= 0, old(c.todc), old(OutwardOf(c)), old(c.outbuf.Img()))
    ensures c.outbuf.Img() == if c.ClientSocket >= 0 then AfterSend(old(c.outbuf.Img())) else old(c.outbuf.Img())
  {
    hide Emitted, EntriesOf, AfterSend, Client.Sending;
    c.SendingHasLayout();
    EntriesHoldFrames(c.sendQueue, c.outbuf.Img());
    c.Send(c.outbuf);
  }

  // ---------------------------------------------------------------- receiving and sending

  lemma SettledIsProcessed(c: Client, i: Inward, im: Image, s: Session, chunk: seq<Byte>, verdict: Verdict)
    requires |i.shown| == BUFFER_SIZE && i.shown == im.bytes
    requires Settled(i.pending, i.consumed, im, s, chunk, c, verdict)
    ensures (c.todc, InwardOf(c), verdict) == Processed(s, i, chunk)
    ensures verdict != Ignored ==> c.inbuf.buffer.Length == BUFFER_SIZE && c.inbuf.pSize == Word(c.inbuf.buffer[..], 0)
  {
    hide After, Taken, Judge, Presented;
    assert i.consumed + [] == i.consumed;
  }

  /** The receive path as the server loop calls it. */
  method Receive(c: Client, outcome: RecvOutcome) returns (verdict: Verdict)
    requires c.Receiving() && c.inbuf.Valid()
    modifies c`rcvread, c`packetsize, c`hassize, c`received, c`consumed, c`todc, c.rcvbuf, c.inbuf, c.inbuf.buffer
    ensures c.Receiving() && c.inbuf.Valid()
    ensures (c.todc, InwardOf(c), verdict) == Fed(old(c.View()), old(InwardOf(c)), outcome)
    ensures verdict != Ignored ==> c.inbuf.pSize == Word(c.inbuf.buffer[..], 0)
  {
    hide Client.Receiving, Settled, Processed;
    c.ReceivingHasLayout();
    ghost var i, im, s := InwardOf(c), c.inbuf.Img(), c.View();
    var o := Fitting(outcome, c.rcvread);
    var ok;
    ok, verdict := Recv(c, o);
    if !ok {
      c.Disconnect();
    }
    if Processes(o, |i.pending|) {
      SettledIsProcessed(c, i, im, s, Chunk(o), verdict);
    }
  }

  lemma SentIsFlushed(todc: bool, o: Outward, outcome: SendOutcome, todc': bool, o': Outward)
    requires var offer := Offer(o.unsent, o.queue);
             var possible := Possible(outcome, |offer|);
             && o'.queue == Behind(o.unsent, o.queue) && o'.enqueued == o.enqueued
             && (possible.Took? ==> o'.wire == o.wire + offer[..possible.n] && o'.unsent == offer[possible.n..])
             && (!possible.Took? ==> o'.wire == o.wire && o'.unsent == offer)
             && todc' == (todc || (offer != [] && possible.SendBroken?))
    ensures (todc', o') == Flushed(todc, o, outcome)
  {
    var offer := Offer(o.unsent, o.queue);
    assert offer[0..] == offer && o.wire + offer[..0] == o.wire;
  }

  lemma FlushedMarks(todc: bool, o: Outward, outcome: SendOutcome)
    ensures todc ==> Flushed(todc, o, outcome).0
  {
    hide Offer, Behind;
  }

  /** The send path as the server loop calls it. */
  method Transfer(c: Client, outcome: SendOutcome)
    requires c.Sending()
    modifies c`snddata, c`sendQueue, c`wire, c`todc, c.sndbuf
    ensures c.Sending()
    ensures (c.todc, OutwardOf(c)) == Flushed(old(c.todc), old(OutwardOf(c)), outcome)
  {
    hide Client.Sending, Offer, Behind, Flushed, Contents;
    c.SendingHasLayout();
    ghost var todc, o := c.todc, OutwardOf(c);
    var ok := Send(c, Possible(outcome, |Offer(c.sndbuf[..c.snddata], Contents(c.sendQueue))|));
    SentIsFlushed(todc, o, outcome, c.todc, OutwardOf(c));
  }

  /** A verdict other than `Ignored` is the gate's on the packet shown, and a refusal marks the slot. */
  lemma FedVerdict(s: Session, i: Inward, outcome: RecvOutcome)
    requires Sized(i)
    ensures var (todc, after, verdict) := Fed(s, i, outcome);
            && |after.shown| == BUFFER_SIZE
            && (verdict == Ignored && s.todc ==> todc)
            && (verdict != Ignored ==> verdict == Judge(after.shown, s) && todc == (s.todc || verdict == Refused))
  {
    hide Judge, Presented, Taken, After;
  }

  // ---------------------------------------------------------------- whole schedules

  lemma FeedIsAnonymous(s: Session, v: SlotState, outcome: RecvOutcome)
    requires Proper(v) && v.view.auth == s.auth && v.view.todc == s.todc
    ensures Fed(v.view, v.inward, outcome) == Fed(s, v.inward, outcome)
  {
  }

  method DoFeed(c: Client, outcome: RecvOutcome) returns (verdict: Verdict)
    requires c.Valid()
    modifies c.Footprint()
    ensures c.Valid() && (Value(c), [verdict]) == Effect(old(Value(c)), Feed(outcome))
  {
    hide Fed, Peer, Client.Receiving, Client.Sending;
    c.ReceivingHasLayout();
    FeedIsAnonymous(c.View(), Value(c), outcome);
    verdict := Receive(c, outcome);
  }

  method DoFlush(c: Client, outcome: SendOutcome)
    requires c.Valid()
    modifies c`snddata, c`sendQueue, c`wire, c`todc, c.sndbuf
    ensures c.Valid() && (Value(c), []) == Effect(old(Value(c)), Flush(outcome))
  {
    hide Flushed, Peer, Client.Receiving, Client.Sending;
    c.ReceivingHasLayout();
    Transfer(c, outcome);
  }

  method DoReply(c: Client, ty: nat, subtype: nat, calls: seq<Call>)
    requires c.Valid()
    modifies c.Footprint()
    ensures c.Valid() && (Value(c), []) == Effect(old(Value(c)), Reply(ty, subtype, calls))
  {
    hide Replied, Made, Peer, Client.Receiving, Client.Sending;
    c.ReceivingHasLayout();
    SendReply(c, ty, subtype, calls);
  }

  method DoAgain(c: Client)
    requires c.Valid() && CanRepeat(Value(c))
    modifies c.Footprint()
    ensures c.Valid() && (Value(c), []) == Effect(old(Value(c)), Again)
  {
    hide Replied, Peer, AfterSend, PadFits, Client.Receiving, Client.Sending;
    c.ReceivingHasLayout();
    if c.isAuth {
      SendBuilt(c);
    }
  }

  /** One turn of a broadcast loop on another slot, which is open and has nothing to do with this one. */
  method DoShare(c: Client)
    requires c.Valid() && CanRepeat(Value(c))
    modifies c.Footprint()
    ensures c.Valid() && (Value(c), []) == Effect(old(Value(c)), Share)
  {
    hide Peer, AfterSend, PadFits, Emitted, EntriesOf, Client.Receiving, Client.Sending, Client.Fresh;
    c.SendingHasLayout();
    if c.isAuth {
      var other := Listener();
      other.Send(c.outbuf);
    }
  }

  method Listener() returns (other: Client)
    ensures other.Sending() && other.Layout() && other.ClientSocket == 0 && fresh(other.Footprint())
  {
    hide Client.Receiving, Client.Sending;
    other := new Client(false);
    other.ClientSocket := 0;
  }

  /** A packet that another slot has built is sent to this one. */
  method DoHear(c: Client, ty: nat, subtype: nat, calls: seq<Call>)
    requires c.Valid()
    modifies c.Footprint()
    ensures c.Valid() && (Value(c), []) == Effect(old(Value(c)), Hear(ty, subtype, calls))
  {
    hide Answered, Made, Client.Valid;
    var src := new ServerPacket();
    Make(src, ty, subtype, calls);
    MadeIsSendable(ty, subtype, calls);
    Receives(c, src);
  }

  method Receives(c: Client, src: ServerPacket)
    requires c.Valid() && src.Valid() && {src, src.buffer} !! c.Footprint()
    requires Sendable(src.pSize) ==> PadFits(src.pOffset, src.pSize - 2)
    modifies c`todc, c`sendQueue, c`enqueued, src, src.buffer
    ensures c.Valid() && Value(c) == Answered(old(Value(c)), old(src.Img())).(reply := old(Value(c).reply))
  {
    hide Gain, Contents, Replied, AfterSend, PadFits, Peer, Client.Receiving, Client.Sending;
    c.SendingHasLayout();
    ghost var im, box, o := src.Img(), c.Box(), OutwardOf(c);
    c.Send(src);
    GainIsReplied(c.ClientSocket >= 0, box, o, im, c.Box(), OutwardOf(c));
  }

  lemma GainIsReplied(open: bool, box: Outbox, o: Outward, im: Image, box': Outbox, o': Outward)
    requires Sound(im) && box' == (if open then Gain(box, im) else box)
    requires o == o.(queue := Contents(box.queue), enqueued := box.enqueued)
    requires o' == o.(queue := Contents(box'.queue), enqueued := box'.enqueued)
    ensures (box'.todc, o') == Replied(open, box.todc, o, im)
  {
    hide Contents, EntriesOf, Emitted;
    EntriesHoldFrames(box.queue, im);
  }

  method DoAdmit(c: Client, pair: Pair, rnd: nat)
    requires c.Valid()
    modifies c.Footprint()
    ensures c.Valid() && (Value(c), []) == Effect(old(Value(c)), Admit(pair, rnd))
  {
    hide Answered, Client.Valid;
    Grant(c, pair);
    AnswerAuth(c, rnd % 0x8000);
  }

  method Grant(c: Client, pair: Pair)
    requires c.Valid()
    modifies c`isAuth, c`iv, c`key
    ensures c.Valid() && Value(c) == old(Value(c).(view := Value(c).view.(auth := true, pair := pair)))
  {
    hide Client.Receiving, Client.Sending;
    c.iv, c.key, c.isAuth := pair.iv, pair.key, true;
  }

  method AnswerAuth(c: Client, rnd: nat)
    requires c.Valid() && rnd < 0x8000
    modifies c`todc, c`sendQueue, c`enqueued, c.outbuf, c.outbuf.buffer
    ensures c.Valid() && Value(c) == Answered(old(Value(c)), AuthReply(rnd))
  {
    hide Gain, Contents, Replied, AuthReply, AfterSend, Peer, Client.Receiving, Client.Sending;
    c.SendingHasLayout();
    ghost var box, o := c.Box(), OutwardOf(c);
    c.SendAuth(rnd);
    GainIsReplied(c.ClientSocket >= 0, box, o, AuthReply(rnd), c.Box(), OutwardOf(c));
  }

  method DoTurn(c: Client, now: nat, tick: nat)
    requires c.Valid()
    modifies c.Footprint()
    ensures c.Valid() && (Value(c), []) == Effect(old(Value(c)), Turn(now, tick))
  {
    hide Answered, Peer, Client.Receiving, Client.Sending;
    if c.lastHeartBeat < now {
      c.lastHeartBeat := now + HEARTBEAT_TIME;
      AnswerBeat(c, tick % U32_LIMIT);
    }
  }

  method AnswerBeat(c: Client, tick: nat)
    requires c.Valid() && tick < U32_LIMIT
    modifies c`todc, c`sendQueue, c`enqueued, c.outbuf, c.outbuf.buffer
    ensures c.Valid() && Value(c) == Answered(old(Value(c)), HeartBeat(tick))
  {
    hide Gain, Contents, Replied, HeartBeat, AfterSend, Peer, Client.Receiving, Client.Sending;
    c.SendingHasLayout();
    ghost var box, o := c.Box(), OutwardOf(c);
    c.SendHeartBeat(tick);
    GainIsReplied(c.ClientSocket >= 0, box, o, HeartBeat(tick), c.Box(), OutwardOf(c));
  }

  method DoReject(c: Client)
    requires c.Valid()
    modifies c`todc
    ensures c.Valid() && (Value(c), []) == Effect(old(Value(c)), Reject)
  {
    hide Client.Receiving, Client.Sending;
    c.Disconnect();
  }

  method DoClientBeat(c: Client, tick: nat)
    requires c.Valid()
    modifies c`lastHeartBeat
    ensures c.Valid() && (Value(c), []) == Effect(old(Value(c)), ClientBeat(tick))
  {
    hide Client.Receiving, Client.Sending;
    c.lastHeartBeat := (tick + HEARTBEAT_TIME) % U32_LIMIT;
  }

  method Do(c: Client, op: Op) returns (verdicts: seq<Verdict>)
    requires c.Valid() && (IsRepeat(op) ==> CanRepeat(Value(c)))
    modifies c.Footprint()
    ensures c.Valid() && (Value(c), verdicts) == Effect(old(Value(c)), op)
  {
    hide Effect, CanRepeat, Client.Valid;
    verdicts := [];
    match op {
      case Feed(outcome) =>
        var verdict := DoFeed(c, outcome);
        verdicts := [verdict];
      case Flush(outcome) => DoFlush(c, outcome);
      case Reply(ty, subtype, calls) => DoReply(c, ty, subtype, calls);
      case Again => DoAgain(c);
      case Share => DoShare(c);
      case Hear(ty, subtype, calls) => DoHear(c, ty, subtype, calls);
      case Admit(pair, rnd) => DoAdmit(c, pair, rnd);
      case Reject => DoReject(c);
      case ClientBeat(tick) => DoClientBeat(c, tick);
      case Turn(now, tick) => DoTurn(c, now, tick);
    }
  }

  lemma {:induction false} TerminatesPrefix(v: SlotState, ops: seq<Op>, n: nat)
    requires Proper(v) && Terminates(v, ops) && n <= |ops|
    ensures Terminates(v, ops[..n])
    ensures n < |ops| && IsRepeat(ops[n]) ==> CanRepeat(Outcome(v, ops[..n]).0)
    decreases |ops|
  {
    hide Effect, CanRepeat, Proper;
    if n == |ops| {
      assert ops[..n] == ops;
    } else if n < |ops| - 1 {
      TerminatesPrefix(v, ops[..|ops| - 1], n);
      assert ops[..|ops| - 1][..n] == ops[..n];
    }
  }

  /** From any sound state of a slot, along any schedule in which no send hangs. */
  method Play(c: Client, ops: seq<Op>) returns (verdicts: seq<Verdict>)
    requires c.Valid() && Terminates(Value(c), ops)
    modifies c.Footprint()
    ensures c.Valid() && (Value(c), verdicts) == Outcome(old(Value(c)), ops)
  {
    hide Effect, CanRepeat, Terminates, Client.Receiving, Client.Sending;
    verdicts := [];
    for i := 0 to |ops|
      invariant c.Valid() && (Value(c), verdicts) == Outcome(old(Value(c)), ops[..i])
    {
      assert ops[..i + 1][..i] == ops[..i];
      TerminatesPrefix(old(Value(c)), ops, i);
      var more := Do(c, ops[i]);
      verdicts := verdicts + more;
    }
    assert ops[..|ops|] == ops;
  }

  // ---------------------------------------------------------------- what a schedule amounts to

  function Feeds(chunks: seq<seq<Byte>>): seq<Op> {
    seq(|chunks|, i requires 0 <= i < |chunks| => Feed(Got(chunks[i], false)))
  }

  lemma {:induction false} FitsPrefix(pending: seq<Byte>, a: seq<seq<Byte>>, last: seq<Byte>)
    requires Fits(pending, a + [last])
    ensures Fits(pending, a) && |Left(pending, a)| + |last| <= BUFFER_SIZE
    decreases |a|
  {
    if a == [] {
      assert a + [last] == [last];
    } else {
      assert (a + [last])[0] == a[0] && (a + [last])[1..] == a[1..] + [last];
      FitsPrefix(After(pending, a[0]), a[1..], last);
    }
  }

  lemma OneFeed(v: SlotState, chunk: seq<Byte>)
    requires Proper(v) && |v.inward.pending| + |chunk| <= BUFFER_SIZE
    ensures var after := Effect(v, Feed(Got(chunk, false))).0;
            && after.inward.consumed == v.inward.consumed + Taken(v.inward.pending, chunk)
            && after.inward.pending == After(v.inward.pending, chunk)
  {
    hide After, Taken, Presented, Judge;
  }

  /** On the receiving side a schedule of chunks is a schedule of polls: it follows the parser. */
  lemma {:induction false} FeedsArePolls(v: SlotState, chunks: seq<seq<Byte>>)
    requires Proper(v) && Fits(v.inward.pending, chunks)
    ensures Terminates(v, Feeds(chunks))
    ensures Outcome(v, Feeds(chunks)).0.inward.consumed == v.inward.consumed + Out(v.inward.pending, chunks)
    ensures Outcome(v, Feeds(chunks)).0.inward.pending == Left(v.inward.pending, chunks)
  {
    hide Effect, After, Taken, Fits, CanRepeat, Sound;
    var pending := v.inward.pending;
    if chunks != [] {
      var n := |chunks| - 1;
      var last := chunks[n];
      assert chunks == chunks[..n] + [last];
      FitsPrefix(pending, chunks[..n], last);
      FeedsArePolls(v, chunks[..n]);
      assert Feeds(chunks)[..n] == Feeds(chunks[..n]) && Feeds(chunks)[n] == Feed(Got(last, false));
      OneFeed(Outcome(v, Feeds(chunks[..n])).0, last);
      PollsAppend(pending, chunks[..n], [last]);
      OnePoll(Left(pending, chunks[..n]), last);
      AppendAssoc(v.inward.consumed, Out(pending, chunks[..n]), Taken(Left(pending, chunks[..n]), last));
    }
  }

  lemma OnePoll(pending: seq<Byte>, chunk: seq<Byte>)
    ensures Out(pending, [chunk]) == Taken(pending, chunk) && Left(pending, [chunk]) == After(pending, chunk)
  {
  }

  /** The receive loop over any schedule of chunks and empty polls. */
  method ReceiveAll(c: Client, chunks: seq<seq<Byte>>) returns (verdicts: seq<Verdict>)
    requires c.Valid() && Fits(c.Pending(), chunks)
    modifies c.Footprint()
    ensures c.Valid() && (Value(c), verdicts) == Outcome(old(Value(c)), Feeds(chunks))
    ensures c.consumed == old(c.consumed) + Out(old(c.Pending()), chunks)
    ensures c.Pending() == Left(old(c.Pending()), chunks)
  {
    hide Outcome, Out, Left, Fits, Terminates;
    FeedsArePolls(Value(c), chunks);
    verdicts := Play(c, Feeds(chunks));
  }
}
