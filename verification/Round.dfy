/**
 * The server loop on values: what a turn, a round and a whole run make of the slots, as a function
 * of what the sockets, the database and the clock answer.
 */
module Rounds {
  import opened Bytes
  import opened Packet
  import opened Outgoing
  import opened Sessions
  import opened Clients
  import opened Schedules
  import opened Reuse
  import Chat
  import Framing
  import Servers

  /**
   * What one turn on a slot meets: a socket that can be written or not, what the calls answer,
   * whether the database can be opened, whether a team query finds its rows, and what the handler
   * then puts into its reply.
   */
  datatype Io = Io(writable: bool, toSend: Servers.SendOutcome, toRecv: Servers.RecvOutcome, rnd: nat, tick: nat,
                   opens: bool, found: bool, calls: seq<Call>)

  /** A random number and a clock are bounded. */
  predicate Bounded(io: Io) {
    io.rnd < 0x8000 && io.tick < U32_LIMIT
  }

  /** One round of the server loop: waiting connections, the time, and what every slot meets. */
  datatype Round = Round(waiting: seq<nat>, now: nat, io: seq<Io>)

  const QUIET: Io := Io(false, Servers.SendBlocked, Servers.RecvBlocked, 0, 0, true, true, [])

  // ---------------------------------------------------------------- the handlers

  /** What a handler does to the slots. */
  datatype Act =
    | Nothing
    | Shakes                             // the handshake
    | Beats                              // the client's heartbeat
    | Relays                             // a chat message is rebuilt and broadcast
    | Builds(ty: nat, subtype: nat)      // a reply is built and sent
    | Spreads(ty: nat, subtype: nat)     // a reply is built and broadcast
    | Repeats                            // the old reply is sent

  /** The handshake and the client's heartbeat. */
  function AuthAct(subtype: nat): Act {
    if subtype == 0 then Shakes else if subtype == 1 then Beats else Nothing
  }

  /** A login is answered only if the database can be opened. */
  function ClientAuthAct(subtype: nat, opens: bool): Act {
    if subtype == 1 || (subtype == 0 && opens) then Builds(1, subtype) else Repeats
  }

  /** Save and the changes to a garage or an area are not answered, and team data goes to everybody. */
  function ClientRequestAct(subtype: nat, opens: bool, found: bool): Act {
    if subtype < 3 || subtype == 8 then Nothing
    else if subtype < 7 then Builds(2, subtype - 3)
    else if subtype == 7 && opens then (if found then Spreads(2, 4) else Nothing)
    else if subtype == 9 then Builds(2, 5)
    else Repeats
  }

  function ActOf(verdict: Verdict, subtype: nat, io: Io): Act {
    match verdict
    case Run(0) => AuthAct(subtype)
    case Run(1) => ClientAuthAct(subtype, io.opens)
    case Run(2) => ClientRequestAct(subtype, io.opens, io.found)
    case Run(4) => Relays
    case _ => Nothing
  }

  /** The dispatch in plain numbers. */
  lemma ActIs(io: Io, n: nat)
    ensures ActOf(Run(0), 0, io) == Shakes && ActOf(Run(0), 1, io) == Beats
    ensures n > 1 ==> ActOf(Run(0), n, io) == Nothing
    ensures ActOf(Run(1), 0, io) == (if io.opens then Builds(1, 0) else Repeats) && ActOf(Run(1), 1, io) == Builds(1, 1)
    ensures n > 1 ==> ActOf(Run(1), n, io) == Repeats
    ensures forall k: nat :: k in {0, 1, 2, 8} ==> ActOf(Run(2), k, io) == Nothing
    ensures ActOf(Run(2), 3, io) == Builds(2, 0) && ActOf(Run(2), 4, io) == Builds(2, 1)
    ensures ActOf(Run(2), 5, io) == Builds(2, 2) && ActOf(Run(2), 6, io) == Builds(2, 3)
    ensures ActOf(Run(2), 9, io) == Builds(2, 5)
    ensures ActOf(Run(2), 7, io) == if !io.opens then Repeats else if io.found then Spreads(2, 4) else Nothing
    ensures n > 9 ==> ActOf(Run(2), n, io) == Repeats
    ensures ActOf(Run(4), n, io) == Relays && ActOf(Run(3), n, io) == ActOf(Run(5), n, io) == Nothing
    ensures ActOf(WildCall(6), n, io) == ActOf(Refused, n, io) == ActOf(Ignored, n, io) == Nothing
  {
  }

  /**
   * The handler never returns: it sends an old reply, or broadcasts a new one to this many open
   * slots, and the padding does not fit.
   */
  predicate Hangs(act: Act, reply: Image, calls: seq<Call>, open: nat) {
    match act
    case Repeats => Sendable(reply.size) && !PadFits(reply.off, reply.size - 2)
    case Spreads(ty, subtype) => !Room(Made(ty, subtype, calls), open)
    case _ => false
  }

  /** That is: the sends of the handler do not all terminate. */
  lemma HangsMeans(act: Act, reply: Image, calls: seq<Call>, open: nat)
    requires Sound(reply) && open > 0
    ensures act.Repeats? ==>
              (Hangs(act, reply, calls, open) <==> 4 <= reply.size <= 8177 && !SendsTerminate(reply, 1))
    ensures act.Spreads? ==>
              var im := Made(act.ty, act.subtype, calls);
              (Hangs(act, reply, calls, open) <==> 4 <= im.size <= 8177 && !SendsTerminate(im, open))
    ensures Hangs(act, reply, calls, open) ==> act.Repeats? || act.Spreads?
  {
    hide Made, SendsTerminate, PadFits, PadTo, Sound;
    if act.Repeats? && Sendable(reply.size) {
      OneSend(reply);
    }
    if act.Spreads? {
      var im := Made(act.ty, act.subtype, calls);
      MadeInLockstep(act.ty, act.subtype, calls);
      if Sendable(im.size) {
        BroadcastIsIdempotent(im, open);
      }
    }
  }

  /** The time of the next heartbeat behind the handler. */
  function Beaten(act: Act, last: nat, tick: nat): nat {
    if act == Beats then (tick + HEARTBEAT_TIME) % U32_LIMIT else last
  }

  // ---------------------------------------------------------------- one turn

  predicate AllProper(slots: seq<SlotState>) {
    forall i :: 0 <= i < |slots| ==> Proper(slots[i])
  }

  function ViewsOf(slots: seq<SlotState>): (r: seq<Session>)
    ensures |r| == |slots|
  {
    seq(|slots|, i requires 0 <= i < |slots| => slots[i].view)
  }

  function OpenSlots(slots: seq<SlotState>): nat {
    CountOpen(ViewsOf(slots))
  }

  /** The send half and the receive half, up to the gate. */
  function Transported(v: SlotState, io: Io): (r: (SlotState, Verdict))
    requires Proper(v)
    ensures Proper(r.0)
  {
    var sent := if io.writable then Effect(v, Flush(io.toSend)).0 else v;
    EffectIsProper(v, Flush(io.toSend));
    EffectIsProper(sent, Feed(io.toRecv));
    var (received, verdicts) := Effect(sent, Feed(io.toRecv));
    (received, verdicts[0])
  }

  /** The handshake on the packet in the slot. */
  function Greeted(v: SlotState, slots: seq<SlotState>, keys: seq<Pair>, rnd: nat): (r: SlotState)
    requires Proper(v)
    ensures Proper(r)
  {
    var bytes := v.inward.shown;
    if v.view.auth || Word(bytes, 0) != HANDSHAKE_SIZE then v
    else
      var row := Lookup(keys, bytes[6..22]);
      var op := if row == [] || Held(ViewsOf(slots), row[0]) then Reject else Admit(row[0], rnd);
      EffectIsProper(v, op);
      Effect(v, op).0
  }

  /** Slots that hold the same pairs. */
  lemma SamePairsHeld(a: seq<Session>, b: seq<Session>, p: Pair)
    requires |a| == |b| && forall i :: 0 <= i < |a| ==> a[i].pair == b[i].pair
    ensures Held(a, p) <==> Held(b, p)
  {
    if Held(a, p) {
      var i :| 0 <= i < |a| && a[i].pair == p;
      assert b[i].pair == p;
    }
    if Held(b, p) {
      var i :| 0 <= i < |b| && b[i].pair == p;
      assert a[i].pair == p;
    }
  }

  /** The handshake on values is the handshake of the table. */
  lemma GreetedIs(v: SlotState, slots: seq<SlotState>, h: Hub, s: nat, rnd: nat, w: SlotState, seen: Session)
    requires Proper(v) && s < |slots| == |h.slots| && slots[s] == v && rnd < 0x8000
    requires forall i :: 0 <= i < |slots| ==>
                           ViewsOf(slots)[i] == h.slots[i].(socket := if Open(h.slots[i]) then 0 else -1)
    requires seen == Handshake(h, s, Word(v.inward.shown, 0), v.inward.shown[6..22]).slots[s]
    requires w == if seen.auth && !v.view.auth then Effect(v, Admit(seen.pair, rnd)).0
                  else v.(view := v.view.(todc := seen.todc))
    ensures w == Greeted(v, slots, h.keys, rnd)
  {
    hide Answered, AuthReply, Held, Lookup;
    var row := Lookup(h.keys, v.inward.shown[6..22]);
    assert ViewsOf(slots)[s] == v.view;
    if row != [] {
      SamePairsHeld(ViewsOf(slots), h.slots, row[0]);
    }
  }

  /** A slot sends this new packet to every open slot, itself included. */
  function Spoken(slots: seq<SlotState>, s: nat, im: Image): (r: seq<SlotState>)
    requires AllProper(slots) && s < |slots| && Sound(im)
    ensures AllProper(r) && |r| == |slots|
    ensures forall i :: 0 <= i < |slots| ==>
                          r[i] == Answered(slots[i], im).(
                            reply := if i == s then AfterSends(im, OpenSlots(slots)) else slots[i].reply)
  {
    forall i | 0 <= i < |slots| ensures Proper(Answered(slots[i], im)) {
      AnsweredIsProper(slots[i], im);
    }
    seq(|slots|, i requires 0 <= i < |slots| =>
          Answered(slots[i], im).(reply := if i == s then AfterSends(im, OpenSlots(slots)) else slots[i].reply))
  }

  /** What the reply packet of the slot was before does not matter. */
  lemma SpokenAfter(slots: seq<SlotState>, s: nat, im: Image)
    requires AllProper(slots) && s < |slots| && Sound(im)
    ensures Spoken(slots[s := slots[s].(reply := im)], s, im) == Spoken(slots, s, im)
  {
    hide AfterSends, Replied, AfterSend, Sound;
    var before := slots[s := slots[s].(reply := im)];
    assert ViewsOf(before) == ViewsOf(slots);
  }

  lemma AnsweredIsProper(v: SlotState, im: Image)
    requires Proper(v) && Sound(im)
    ensures Proper(Answered(v, im))
  {
  }

  /** The chat message in the packet of the slot, if it is one, is rebuilt and sent to everybody. */
  function RelayedBy(slots: seq<SlotState>, s: nat): (r: seq<SlotState>)
    requires AllProper(slots) && s < |slots|
    ensures AllProper(r) && |r| == |slots|
  {
    var shown := slots[s].inward.shown;
    if Word(shown, 4) < 3 then Spoken(slots, s, Chat.Relayed(Chat.ReadMessage(shown, Word(shown, 4)))) else slots
  }

  /** The slots after the handler. */
  function Acted(slots: seq<SlotState>, keys: seq<Pair>, s: nat, act: Act, io: Io): (r: seq<SlotState>)
    requires AllProper(slots) && s < |slots|
    ensures AllProper(r) && |r| == |slots|
  {
    var v := slots[s];
    EffectIsProper(v, Again);
    match act
    case Nothing => slots
    case Shakes => slots[s := Greeted(v, slots, keys, io.rnd)]
    case Beats => slots[s := v.(lastHeartBeat := (io.tick + HEARTBEAT_TIME) % U32_LIMIT)]
    case Relays => RelayedBy(slots, s)
    case Builds(ty, subtype) =>
      EffectIsProper(v, Reply(ty, subtype, io.calls));
      slots[s := Effect(v, Reply(ty, subtype, io.calls)).0]
    case Spreads(ty, subtype) => Spoken(slots, s, Made(ty, subtype, io.calls))
    case Repeats => slots[s := Effect(v, Again).0]
  }

  lemma ActedIs(slots: seq<SlotState>, keys: seq<Pair>, s: nat, act: Act, io: Io)
    requires AllProper(slots) && s < |slots|
    ensures slots[s := slots[s]] == slots
    ensures var v := slots[s];
            Acted(slots, keys, s, act, io) ==
            match act
            case Nothing => slots
            case Shakes => slots[s := Greeted(v, slots, keys, io.rnd)]
            case Beats => slots[s := v.(lastHeartBeat := (io.tick + 30) % 0x1_0000_0000)]
            case Relays => RelayedBy(slots, s)
            case Builds(ty, subtype) => slots[s := Effect(v, Reply(ty, subtype, io.calls)).0]
            case Spreads(ty, subtype) => Spoken(slots, s, Made(ty, subtype, io.calls))
            case Repeats => slots[s := Effect(v, Again).0]
  {
    hide Greeted, Spoken, RelayedBy, Effect, Chat.Relayed, Chat.ReadMessage, Made;
  }

  lemma HangsIs(act: Act, reply: Image, calls: seq<Call>, open: nat)
    ensures act.Repeats? || act.Spreads? || !Hangs(act, reply, calls, open)
    ensures act.Repeats? ==> Hangs(act, reply, calls, open) == Hangs(act, reply, calls, 0)
  {
  }

  lemma BoundedIs(io: Io)
    requires Bounded(io)
    ensures io.rnd < 0x8000 && io.tick < U32_LIMIT
  {
  }

  lemma BeatenIs(act: Act, last: nat, tick: nat)
    ensures Beaten(act, last, tick) == if act == Beats then (tick + 30) % 0x1_0000_0000 else last
  {
  }

  /** A handler that never returns leaves at most a new packet behind. */
  function Stuck(v: SlotState, act: Act, calls: seq<Call>): (r: SlotState)
    requires Proper(v)
    ensures Proper(r)
  {
    match act
    case Spreads(ty, subtype) => v.(reply := Made(ty, subtype, calls))
    case _ => v
  }

  datatype Result = Result(slots: seq<SlotState>, verdict: Verdict, hung: bool)

  /** The handler of the packet in the slot, by the verdict of the gate. */
  function Dispatched(slots: seq<SlotState>, keys: seq<Pair>, s: nat, verdict: Verdict, io: Io): (r: Result)
    requires AllProper(slots) && s < |slots|
    ensures AllProper(r.slots) && |r.slots| == |slots|
  {
    var v := slots[s];
    var act := ActOf(verdict, Word(v.inward.shown, 4), io);
    if Hangs(act, v.reply, io.calls, OpenSlots(slots)) then Result(slots[s := Stuck(v, act, io.calls)], verdict, true)
    else Result(Acted(slots, keys, s, act, io), verdict, false)
  }

  /** Both halves of the transport, and the handler. */
  function Attended(slots: seq<SlotState>, keys: seq<Pair>, s: nat, io: Io): (r: Result)
    requires AllProper(slots) && s < |slots|
    ensures AllProper(r.slots) && |r.slots| == |slots|
  {
    var (v, verdict) := Transported(slots[s], io);
    Dispatched(slots[s := v], keys, s, verdict, io)
  }

  lemma AttendedIs(slots: seq<SlotState>, keys: seq<Pair>, s: nat, io: Io)
    requires AllProper(slots) && s < |slots|
    ensures Attended(slots, keys, s, io) ==
            var (v, verdict) := Transported(slots[s], io); Dispatched(slots[s := v], keys, s, verdict, io)
    ensures Attended(slots, keys, s, io).verdict == Transported(slots[s], io).1
  {
    hide Transported, Acted, ActOf, Hangs, Stuck;
  }

  lemma NothingDispatched(slots: seq<SlotState>, keys: seq<Pair>, s: nat, verdict: Verdict, io: Io)
    requires AllProper(slots) && s < |slots| && !Handles(verdict)
    ensures Dispatched(slots, keys, s, verdict, io) == Result(slots, verdict, false)
  {
    hide Greeted, Spoken, Effect, Chat.Relayed, Chat.ReadMessage, Made;
  }

  /** One turn on an open slot: transport, handler, closing of a marked slot, heartbeat. */
  function Served(slots: seq<SlotState>, keys: seq<Pair>, s: nat, io: Io, now: nat): (r: Result)
    requires AllProper(slots) && s < |slots|
    ensures AllProper(r.slots) && |r.slots| == |slots|
  {
    var result := Attended(slots, keys, s, io);
    if result.hung then result
    else result.(slots := result.slots[s := Ended(result.slots[s], io, now)])
  }

  /** The end of a turn: a marked slot is closed and initialised, and the heartbeat is made in any case. */
  function Ended(v: SlotState, io: Io, now: nat): (r: SlotState)
    requires Proper(v)
    ensures Proper(r)
  {
    var left := if v.view.todc then Vacant() else v;
    EffectIsProper(left, Turn(now, io.tick));
    Effect(left, Turn(now, io.tick)).0
  }

  lemma EndedIs(v: SlotState, io: Io, now: nat)
    requires Proper(v)
    ensures Ended(v, io, now) == Effect(if v.view.todc then Vacant() else v, Turn(now, io.tick)).0
  {
    hide Effect;
  }

  lemma ServedIs(slots: seq<SlotState>, keys: seq<Pair>, s: nat, io: Io, now: nat)
    requires AllProper(slots) && s < |slots|
    ensures var result := Attended(slots, keys, s, io);
            Served(slots, keys, s, io, now) ==
            if result.hung then result else result.(slots := result.slots[s := Ended(result.slots[s], io, now)])
  {
    hide Attended, Ended;
  }

  /** The last frame queued is the heartbeat. */
  predicate EndsInBeat(enqueued: seq<seq<Byte>>, tick: nat) {
    enqueued != [] && Emitted(HeartBeat(tick)) == [enqueued[|enqueued| - 1]]
  }

  /** The turn in terms of the slot: whether it hangs, whether the slot is closed, and its heartbeat. */
  lemma ServedShows(slots: seq<SlotState>, keys: seq<Pair>, s: nat, io: Io, now: nat)
    requires AllProper(slots) && s < |slots| && Open(slots[s].view) && Bounded(io)
    ensures var (v, verdict) := Transported(slots[s], io);
            var result := Served(slots, keys, s, io, now);
            var w := result.slots[s];
            var act := ActOf(verdict, Word(v.inward.shown, 4), io);
            var last := Beaten(act, slots[s].lastHeartBeat, io.tick);
            && result.verdict == verdict
            && result.hung == Hangs(act, slots[s].reply, io.calls, OpenSlots(slots))
            && (!Open(w.view) ==>
                  && !result.hung && w == Effect(Vacant(), Turn(now, io.tick)).0
                  && (0 < now ==> w.lastHeartBeat == now + 30 && w.reply == HeartBeat(io.tick)))
            && (Open(w.view) ==>
                  && w.inward == v.inward && (!result.hung ==> !w.view.todc)
                  && w.lastHeartBeat == (if !result.hung && last < now then now + 30 else last)
                  && (!result.hung && last < now ==> EndsInBeat(w.outward.enqueued, io.tick)))
  {
    hide Transported, ActOf, Hangs, Word, Beaten, Attended, Effect, EndsInBeat, Sound;
    ServedIs(slots, keys, s, io, now);
    AttendedShows(slots, keys, s, io);
    var v := Attended(slots, keys, s, io).slots[s];
    EndedIs(v, io, now);
    TurnShows(v, now, io.tick);
    TurnShows(Vacant(), now, io.tick);
  }

  /** The bytes the socket is offered: the rest of the last frame, or the next frame. */
  function Offered(unsent: seq<Byte>, queue: seq<seq<Byte>>): seq<Byte> {
    if |unsent| > 0 then unsent else if |queue| > 0 then queue[0] else []
  }

  /** What the socket takes of that in this turn. */
  function TakenNow(io: Io, offered: seq<Byte>): (bs: seq<Byte>)
    ensures bs <= offered
  {
    if io.writable && io.toSend.Took? then
      offered[..if io.toSend.n <= |offered| then io.toSend.n else |offered|]
    else []
  }

  /** What `recv` brings in this turn: no more than there is room for. */
  function BroughtNow(io: Io, buffered: nat): (bs: seq<Byte>)
    requires buffered <= 8192
    ensures |bs| <= 8192 - buffered
  {
    if io.toRecv.Got? then
      io.toRecv.data[..if |io.toRecv.data| <= 8192 - buffered then |io.toRecv.data| else 8192 - buffered]
    else []
  }

  predicate SendFails(io: Io, offered: seq<Byte>) {
    io.writable && |offered| > 0 && io.toSend == Servers.SendBroken
  }

  /** An error, or the end of the stream with a reset. */
  predicate ReceiveFails(io: Io, buffered: nat)
    requires buffered <= 8192
  {
    match io.toRecv
    case Got(_, reset) => BroughtNow(io, buffered) == [] && reset
    case RecvBlocked => false
    case RecvBroken => true
  }

  /** The send half of a turn in terms of bytes. */
  lemma TurnSends(v: SlotState, io: Io)
    requires Proper(v)
    ensures var o, w := v.outward, Transported(v, io).0.outward;
            var taken := TakenNow(io, Offered(o.unsent, o.queue));
            && w.wire == o.wire + taken && w.enqueued == o.enqueued
            && taken + w.unsent + Concat(w.queue) == o.unsent + Concat(o.queue)
  {
    hide Fed, Flushed, Concat, Offered;
    var o := v.outward;
    if io.writable {
      FlushedIs(v.view.todc, o, io);
    } else {
      assert o.wire + [] == o.wire && [] + o.unsent == o.unsent;
    }
  }

  lemma FlushedIs(todc: bool, o: Outward, io: Io)
    requires io.writable
    ensures var offered := Offered(o.unsent, o.queue);
            var taken, w := TakenNow(io, offered), Flushed(todc, o, io.toSend).1;
            && w.wire == o.wire + taken && w.enqueued == o.enqueued
            && taken + w.unsent + Concat(w.queue) == o.unsent + Concat(o.queue)
  {
    hide Concat;
    var offered := Offered(o.unsent, o.queue);
    var taken, w := TakenNow(io, offered), Flushed(todc, o, io.toSend).1;
    Servers.OfferConserves(o.unsent, o.queue);
    assert offered[..0] == [];
    assert taken + offered[|taken|..] == offered && w.unsent == offered[|taken|..];
  }

  /** A complete head frame of a legal length stands at the front. */
  predicate HeadStands(stream: seq<Byte>) {
    |stream| >= 2 && 4 <= Word(stream, 0) <= 8190 && Word(stream, 0) + 2 <= |stream|
  }

  /**
   * The receive half: what arrives joins what was buffered, and at most the head frame of that is
   * handed over, if the receive does not fail. A failing send or receive marks the slot.
   */
  lemma TurnReceives(v: SlotState, io: Io)
    requires Proper(v)
    ensures var (w, verdict) := Transported(v, io);
            var i, stream := v.inward, v.inward.pending + BroughtNow(io, |v.inward.pending|);
            var todc := v.view.todc || SendFails(io, Offered(v.outward.unsent, v.outward.queue));
            if HeadStands(stream) && !ReceiveFails(io, |i.pending|) then
              var f := stream[..Word(stream, 0) + 2];
              && w.inward == Inward(stream[Word(stream, 0) + 2..], i.consumed + [f], Servers.Presented(i.shown, f))
              && verdict == Servers.Judge(w.inward.shown, v.view.(todc := todc))
              && w.view.todc == (todc || verdict == Refused)
            else
              w.inward == i.(pending := stream) && verdict == Ignored
              && w.view.todc == (todc || ReceiveFails(io, |i.pending|))
  {
    hide Servers.Judge, Servers.Presented, Fed, Gate;
    var i, o := v.inward, v.outward;
    var todc := v.view.todc || SendFails(io, Offered(o.unsent, o.queue));
    FedIs(v.view.(todc := todc), i, io);
    assert io.writable ==> Flushed(v.view.todc, o, io.toSend).0 == todc;
  }

  lemma FedIs(s: Session, i: Inward, io: Io)
    requires Sized(i)
    ensures var (todc, w, verdict) := Fed(s, i, io.toRecv);
            var stream := i.pending + BroughtNow(io, |i.pending|);
            if HeadStands(stream) && !ReceiveFails(io, |i.pending|) then
              var f := stream[..Word(stream, 0) + 2];
              && w == Inward(stream[Word(stream, 0) + 2..], i.consumed + [f], Servers.Presented(i.shown, f))
              && verdict == Servers.Judge(w.shown, s) && todc == (s.todc || verdict == Refused)
            else w == i.(pending := stream) && verdict == Ignored && todc == (s.todc || ReceiveFails(io, |i.pending|))
  {
    hide Servers.Judge, Servers.Presented, Framing.After, Framing.Taken, Gate;
    var chunk := BroughtNow(io, |i.pending|);
    Framing.OneCallIs(i.pending, chunk);
    assert i.pending + [] == i.pending;
    assert Servers.Chunk(Fitting(io.toRecv, |i.pending|)) == chunk;
  }

  /** What a turn moves on the wire and in the receive buffer, and what closes the slot in the same turn. */
  lemma ServedMoves(slots: seq<SlotState>, keys: seq<Pair>, s: nat, io: Io, now: nat)
    requires AllProper(slots) && s < |slots| && Open(slots[s].view) && Bounded(io)
    ensures var i, o, result := slots[s].inward, slots[s].outward, Served(slots, keys, s, io, now);
            var w := result.slots[s];
            && (Open(w.view) ==> w.outward.wire == o.wire + TakenNow(io, Offered(o.unsent, o.queue)))
            && (Open(w.view) ==> w.inward == Transported(slots[s], io).0.inward)
            && (Open(w.view) && !result.hung ==>
                  && !slots[s].view.todc && result.verdict != Refused
                  && !SendFails(io, Offered(o.unsent, o.queue)) && !ReceiveFails(io, |i.pending|))
            && (!Open(w.view) ==> !result.hung)
  {
    hide Transported, ActOf, Hangs, Word, Beaten, Attended, Effect, EndsInBeat, Sound, TakenNow, Offered, BroughtNow;
    hide HeadStands, SendFails, ReceiveFails, Ended;
    TurnSends(slots[s], io);
    TurnReceives(slots[s], io);
    ServedShows(slots, keys, s, io, now);
    ServedIs(slots, keys, s, io, now);
    AttendedKeeps(slots, keys, s, io);
    AttendedShows(slots, keys, s, io);
    var v := Attended(slots, keys, s, io).slots[s];
    EndedIs(v, io, now);
    TurnShows(v, now, io.tick);
    TurnShows(Vacant(), now, io.tick);
  }

  /** The handler sends nothing itself, and it runs on an unmarked slot only. */
  lemma AttendedKeeps(slots: seq<SlotState>, keys: seq<Pair>, s: nat, io: Io)
    requires AllProper(slots) && s < |slots|
    ensures var (v, verdict) := Transported(slots[s], io);
            var w := Attended(slots, keys, s, io).slots[s];
            && w.outward.wire == v.outward.wire && w.outward.unsent == v.outward.unsent
            && (v.view.todc ==> w.view.todc)
  {
    hide Transported, Hangs, Word, Made, Chat.Relayed, Chat.ReadMessage, ActOf;
    var (v, verdict) := Transported(slots[s], io);
    ActKeeps(slots[s := v], keys, s, ActOf(verdict, Word(v.inward.shown, 4), io), io);
  }

  lemma ActKeeps(slots: seq<SlotState>, keys: seq<Pair>, s: nat, act: Act, io: Io)
    requires AllProper(slots) && s < |slots|
    ensures var v, w := slots[s], Acted(slots, keys, s, act, io)[s];
            && w.outward.wire == v.outward.wire && w.outward.unsent == v.outward.unsent
            && (v.view.todc ==> w.view.todc)
    ensures Stuck(slots[s], act, io.calls).outward == slots[s].outward
    ensures Stuck(slots[s], act, io.calls).view == slots[s].view
  {
    hide AfterSend, AfterSends, Made, AuthReply, Chat.Relayed, Chat.ReadMessage, Lookup, Held, Emitted;
  }

  /** The frames that the handler queues on slot `i` of the table when slot `s` is served. */
  function Frames(slots: seq<SlotState>, keys: seq<Pair>, s: nat, act: Act, io: Io, i: nat): seq<seq<Byte>>
    requires AllProper(slots) && s < |slots| && i < |slots|
  {
    var v := slots[s];
    if !Open(slots[i].view) then []
    else
      match act
      case Relays =>
        if Word(v.inward.shown, 4) < 3
        then Emitted(Chat.Relayed(Chat.ReadMessage(v.inward.shown, Word(v.inward.shown, 4)))) else []
      case Spreads(ty, subtype) => Emitted(Made(ty, subtype, io.calls))
      case Builds(ty, subtype) => if i == s then Emitted(Made(ty, subtype, io.calls)) else []
      case Repeats => if i == s && v.view.auth then Emitted(v.reply) else []
      case Shakes => if i == s && Greets(v, slots, keys) then Emitted(AuthReply(io.rnd)) else []
      case _ => []
  }

  /** The handshake succeeds: a request of 32 bytes with an iv of the key table whose pair no slot holds. */
  predicate Greets(v: SlotState, slots: seq<SlotState>, keys: seq<Pair>)
    requires Proper(v)
  {
    && !v.view.auth && Word(v.inward.shown, 0) == 32
    && FirstKey(keys, v.inward.shown[6..22]) < |keys|
    && forall i :: 0 <= i < |slots| ==> slots[i].view.pair != keys[FirstKey(keys, v.inward.shown[6..22])]
  }

  /** Every slot's queue gains exactly these frames. */
  lemma ActSends(slots: seq<SlotState>, keys: seq<Pair>, s: nat, act: Act, io: Io, i: nat)
    requires AllProper(slots) && s < |slots| && i < |slots| && io.rnd < 0x8000
    ensures var v, w := slots[i].outward, Acted(slots, keys, s, act, io)[i].outward;
            var fs := Frames(slots, keys, s, act, io, i);
            w.enqueued == v.enqueued + fs && w.queue == v.queue + fs && w.unsent == v.unsent && w.wire == v.wire
  {
    hide AfterSends, Made, AuthReply, Chat.Relayed, Chat.ReadMessage, Emitted, Sound, Answered, Acted;
    hide Greeted, Greets, Word;
    var v := slots[s];
    ActedIs(slots, keys, s, act, io);
    assert slots[i].outward.enqueued + [] == slots[i].outward.enqueued;
    assert slots[i].outward.queue + [] == slots[i].outward.queue;
    match act
    case Shakes =>
      GreetedSends(v, slots, keys, io.rnd);
      if Greets(v, slots, keys) {
        GreetsWithKey(v, slots, keys);
        AdmittedSends(v, keys, io.rnd);
      }
    case Builds(ty, subtype) => AnsweredSends(v, Made(ty, subtype, io.calls));
    case Spreads(ty, subtype) => AnsweredSends(slots[i], Made(ty, subtype, io.calls));
    case Repeats => AnsweredSends(v, v.reply);
    case Relays =>
      if Word(v.inward.shown, 4) < 3 {
        AnsweredSends(slots[i], Chat.Relayed(Chat.ReadMessage(v.inward.shown, Word(v.inward.shown, 4))));
      }
    case _ =>
  }

  lemma AnsweredSends(v: SlotState, im: Image)
    requires Sound(im)
    ensures var fs := if Open(v.view) then Emitted(im) else [];
            Answered(v, im).outward == v.outward.(queue := v.outward.queue + fs, enqueued := v.outward.enqueued + fs)
  {
    hide AfterSend, Emitted;
    assert v.outward.enqueued + [] == v.outward.enqueued && v.outward.queue + [] == v.outward.queue;
  }

  lemma GreetsWithKey(v: SlotState, slots: seq<SlotState>, keys: seq<Pair>)
    requires Proper(v) && Greets(v, slots, keys)
    ensures FirstKey(keys, v.inward.shown[6..22]) < |keys|
  {
  }

  lemma AdmittedSends(v: SlotState, keys: seq<Pair>, rnd: nat)
    requires Proper(v) && FirstKey(keys, v.inward.shown[6..22]) < |keys|
    ensures var pair := keys[FirstKey(keys, v.inward.shown[6..22])];
            var fs := if Open(v.view) then Emitted(AuthReply(rnd)) else [];
            Answered(v.(view := v.view.(auth := true, pair := pair)), AuthReply(rnd)).outward ==
            v.outward.(queue := v.outward.queue + fs, enqueued := v.outward.enqueued + fs)
  {
    hide Answered, Emitted, AuthReply;
    var pair := keys[FirstKey(keys, v.inward.shown[6..22])];
    AnsweredSends(v.(view := v.view.(auth := true, pair := pair)), AuthReply(rnd));
  }

  lemma GreetedSends(v: SlotState, slots: seq<SlotState>, keys: seq<Pair>, rnd: nat)
    requires Proper(v) && rnd < 0x8000
    ensures Greeted(v, slots, keys, rnd) ==
            if Greets(v, slots, keys)
            then
              var pair := keys[FirstKey(keys, v.inward.shown[6..22])];
              Answered(v.(view := v.view.(auth := true, pair := pair)), AuthReply(rnd))
            else if v.view.auth || Word(v.inward.shown, 0) != 32 then v
            else v.(view := v.view.(todc := true))
  {
    hide Answered, AuthReply, Word, Lookup, FirstKey, Held;
    var iv := v.inward.shown[6..22];
    LookupIsFirst(keys, iv);
    if FirstKey(keys, iv) < |keys| {
      HeldIff(slots, keys[FirstKey(keys, iv)]);
    }
  }

  lemma HeldIff(slots: seq<SlotState>, pair: Pair)
    ensures Held(ViewsOf(slots), pair) <==> exists i :: 0 <= i < |slots| && slots[i].view.pair == pair
  {
    if i :| 0 <= i < |slots| && slots[i].view.pair == pair {
      assert ViewsOf(slots)[i].pair == pair;
    }
  }

  /** The heartbeat on an open slot and on a closed one. */
  lemma TurnShows(v: SlotState, now: nat, tick: nat)
    requires Proper(v) && tick < U32_LIMIT
    ensures var w := Effect(v, Turn(now, tick)).0;
            && w.inward == v.inward && w.view == v.view
            && w.lastHeartBeat == (if v.lastHeartBeat < now then now + 30 else v.lastHeartBeat)
            && (v.lastHeartBeat < now && Open(v.view) ==> EndsInBeat(w.outward.enqueued, tick))
            && (v.lastHeartBeat < now && !Open(v.view) ==> w.reply == HeartBeat(tick))
            && w.outward.wire == v.outward.wire && w.outward.unsent == v.outward.unsent
  {
    hide HeartBeat, AfterSend, FrameOf;
    HeartBeatIsSendable(tick);
  }

  /** What the transport leaves alone, and the handler. */
  lemma AttendedShows(slots: seq<SlotState>, keys: seq<Pair>, s: nat, io: Io)
    requires AllProper(slots) && s < |slots|
    ensures var (v, verdict) := Transported(slots[s], io);
            var result := Attended(slots, keys, s, io);
            var act := ActOf(verdict, Word(v.inward.shown, 4), io);
            && v.reply == slots[s].reply && v.lastHeartBeat == slots[s].lastHeartBeat
            && OpenSlots(slots[s := v]) == OpenSlots(slots)
            && result.verdict == verdict && result.slots[s].inward == v.inward
            && Open(result.slots[s].view) == Open(slots[s].view)
            && result.hung == Hangs(act, slots[s].reply, io.calls, OpenSlots(slots))
            && result.slots[s].lastHeartBeat == Beaten(act, slots[s].lastHeartBeat, io.tick)
  {
    hide Transported, ActOf, Hangs, Word, Made, Chat.Relayed, Chat.ReadMessage;
    TransportLeaves(slots, s, io);
    HangsIs(ActOf(Transported(slots[s], io).1, Word(Transported(slots[s], io).0.inward.shown, 4), io), slots[s].reply,
            io.calls, OpenSlots(slots));
    var (v, verdict) := Transported(slots[s], io);
    ActLeaves(slots[s := v], keys, s, ActOf(verdict, Word(v.inward.shown, 4), io), io);
  }

  lemma TransportLeaves(slots: seq<SlotState>, s: nat, io: Io)
    requires AllProper(slots) && s < |slots|
    ensures var v := Transported(slots[s], io).0;
            && v.reply == slots[s].reply && v.lastHeartBeat == slots[s].lastHeartBeat
            && v.view == slots[s].view.(todc := v.view.todc)
            && OpenSlots(slots[s := v]) == OpenSlots(slots)
  {
    hide Fed, Flushed, CountOpen;
    var v := Transported(slots[s], io).0;
    SameOpenCount(ViewsOf(slots[s := v]), ViewsOf(slots));
  }

  lemma {:induction false} SameOpenCount(a: seq<Session>, b: seq<Session>)
    requires |a| == |b| && forall i :: 0 <= i < |a| ==> Open(a[i]) == Open(b[i])
    ensures CountOpen(a) == CountOpen(b)
  {
    if a != [] {
      SameOpenCount(a[..|a| - 1], b[..|b| - 1]);
    }
  }

  lemma ActLeaves(slots: seq<SlotState>, keys: seq<Pair>, s: nat, act: Act, io: Io)
    requires AllProper(slots) && s < |slots|
    ensures var v := Acted(slots, keys, s, act, io)[s];
            && v.inward == slots[s].inward && v.lastHeartBeat == Beaten(act, slots[s].lastHeartBeat, io.tick)
            && Open(v.view) == Open(slots[s].view)
    ensures Stuck(slots[s], act, io.calls).inward == slots[s].inward
    ensures Stuck(slots[s], act, io.calls).lastHeartBeat == slots[s].lastHeartBeat
    ensures Stuck(slots[s], act, io.calls).view == slots[s].view
  {
    hide Replied, AfterSend, AfterSends, Made, AuthReply, Chat.Relayed, Chat.ReadMessage, Lookup, Held;
  }

  // ---------------------------------------------------------------- rounds

  /** The first closed slot takes the connection. */
  function Joined(slots: seq<SlotState>): (r: seq<SlotState>)
    requires AllProper(slots)
    ensures AllProper(r) && |r| == |slots|
  {
    var f := FirstFree(ViewsOf(slots));
    if f < |slots| then slots[f := Occupied(slots[f])] else slots
  }

  lemma JoinedIs(slots: seq<SlotState>)
    requires AllProper(slots)
    ensures var f := FirstFree(ViewsOf(slots));
            Joined(slots) == if f < |slots| then slots[f := Occupied(slots[f])] else slots
  {
  }

  function IoAt(round: Round, i: nat): (io: Io)
    ensures Bounded(io)
  {
    var io := if i < |round.io| then round.io[i] else QUIET;
    io.(rnd := io.rnd % 0x8000, tick := io.tick % U32_LIMIT)
  }

  datatype Course = Course(slots: seq<SlotState>, notes: seq<Note>, hung: bool)

  /** What a handler run adds to the log. */
  function Invoked(s: nat, verdict: Verdict): seq<Note> {
    if Handles(verdict) then [Ran(s, verdict.ty)] else []
  }

  /** The turns on the first `n` slots. */
  function TurnsOf(slots: seq<SlotState>, keys: seq<Pair>, round: Round, n: nat): (r: Course)
    requires AllProper(slots) && n <= |slots|
    ensures AllProper(r.slots) && |r.slots| == |slots|
  {
    if n == 0 then Course(slots, [], false)
    else
      var before := TurnsOf(slots, keys, round, n - 1);
      if before.hung || !Open(before.slots[n - 1].view) then before
      else
        var result := Served(before.slots, keys, n - 1, IoAt(round, n - 1), round.now);
        Course(result.slots, before.notes + Invoked(n - 1, result.verdict), result.hung)
  }

  function RoundOf(slots: seq<SlotState>, keys: seq<Pair>, round: Round): (r: Course)
    requires AllProper(slots)
    ensures AllProper(r.slots) && |r.slots| == |slots|
  {
    TurnsOf(if round.waiting == [] then slots else Joined(slots), keys, round, |slots|)
  }

  /** A whole run, up to a handler that never returns. */
  function RunOf(slots: seq<SlotState>, keys: seq<Pair>, rounds: seq<Round>): (r: Course)
    requires AllProper(slots)
    ensures AllProper(r.slots) && |r.slots| == |slots|
  {
    if rounds == [] then Course(slots, [], false)
    else
      var before := RunOf(slots, keys, rounds[..|rounds| - 1]);
      if before.hung then before
      else
        var last := RoundOf(before.slots, keys, rounds[|rounds| - 1]);
        Course(last.slots, before.notes + last.notes, last.hung)
  }

  /** The server before its first connection. */
  function AllVacant(size: nat): (slots: seq<SlotState>)
    ensures AllProper(slots) && |slots| == size
  {
    seq(size, _ => Vacant())
  }

  // ---------------------------------------------------------------- unfolding

  lemma IoIs(round: Round, i: nat)
    ensures IoAt(round, i) == var io := if i < |round.io| then round.io[i] else QUIET;
                              io.(rnd := io.rnd % 0x8000, tick := io.tick % U32_LIMIT)
  {
  }

  lemma RoundIs(slots: seq<SlotState>, keys: seq<Pair>, round: Round)
    requires AllProper(slots)
    ensures RoundOf(slots, keys, round) ==
            TurnsOf(if round.waiting == [] then slots else Joined(slots), keys, round, |slots|)
  {
  }

  lemma TurnsStart(slots: seq<SlotState>, keys: seq<Pair>, round: Round)
    requires AllProper(slots)
    ensures TurnsOf(slots, keys, round, 0) == Course(slots, [], false)
  {
  }

  lemma TurnsStep(slots: seq<SlotState>, keys: seq<Pair>, round: Round, n: nat)
    requires AllProper(slots) && n < |slots|
    ensures var before := TurnsOf(slots, keys, round, n);
            TurnsOf(slots, keys, round, n + 1) ==
            if before.hung || !Open(before.slots[n].view) then before
            else
              var result := Served(before.slots, keys, n, IoAt(round, n), round.now);
              Course(result.slots, before.notes + Invoked(n, result.verdict), result.hung)
  {
    hide Served, IoAt;
  }

  lemma RunStart(slots: seq<SlotState>, keys: seq<Pair>)
    requires AllProper(slots)
    ensures RunOf(slots, keys, []) == Course(slots, [], false)
  {
  }

  lemma RunStep(slots: seq<SlotState>, keys: seq<Pair>, rounds: seq<Round>, k: nat)
    requires AllProper(slots) && k < |rounds|
    ensures var before := RunOf(slots, keys, rounds[..k]);
            RunOf(slots, keys, rounds[..k + 1]) ==
            if before.hung then before
            else
              var last := RoundOf(before.slots, keys, rounds[k]);
              Course(last.slots, before.notes + last.notes, last.hung)
  {
    hide RoundOf;
    assert rounds[..k + 1][..k] == rounds[..k];
  }
}
