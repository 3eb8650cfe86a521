/**
 * Two endpoints of the transport joined by a byte stream: frames are queued, the socket takes
 * any number of bytes at a time, and the stream brings any number of bytes at a time.
 */
module EndToEnd {
  import opened Bytes
  import opened Framing
  import opened Outgoing
  import opened Clients
  import opened Servers

  datatype Link = Link(
    queue: seq<seq<Byte>>,      // frames not yet taken by the send path
    unsent: seq<Byte>,          // the send buffer
    flight: seq<Byte>,          // on the wire
    pending: seq<Byte>,         // the receive buffer
    delivered: seq<seq<Byte>>)  // what the receive path handed over

  datatype Move =
    | Enqueue(f: seq<Byte>)     // CLIENT::Send
    | Push(n: nat)              // Server::Send, the socket takes n bytes (0: would block)
    | Carry(n: nat)             // Server::Recv, the socket brings n bytes (0: an empty poll)

  const NEW_LINK: Link := Link([], [], [], [], [])

  function Step(l: Link, m: Move): Link {
    match m
    case Enqueue(f) => if Outbound(f) then l.(queue := l.queue + [f]) else l
    case Push(n) =>
      var offer := Offer(l.unsent, l.queue);
      if n <= |offer| then
        l.(queue := Behind(l.unsent, l.queue), unsent := offer[n..], flight := l.flight + offer[..n])
      else l
    case Carry(n) =>
      if n <= |l.flight| && |l.pending| + n <= BUFFER_SIZE then
        l.(pending := After(l.pending, l.flight[..n]), flight := l.flight[n..],
           delivered := l.delivered + Taken(l.pending, l.flight[..n]))
      else l
  }

  function Run(moves: seq<Move>): Link {
    if moves == [] then NEW_LINK else Step(Run(moves[..|moves| - 1]), moves[|moves| - 1])
  }

  function Enqueued(moves: seq<Move>): seq<seq<Byte>> {
    if moves == [] then []
    else
      var last := moves[|moves| - 1];
      Enqueued(moves[..|moves| - 1]) + (if last.Enqueue? && Outbound(last.f) then [last.f] else [])
  }

  /** The bytes of a link that are not yet delivered, in stream order. */
  function Underway(l: Link): seq<Byte> {
    l.pending + (l.flight + (l.unsent + Concat(l.queue)))
  }

  predicate AllOutbound(fs: seq<seq<Byte>>) {
    forall i :: 0 <= i < |fs| ==> Outbound(fs[i])
  }

  predicate Consistent(l: Link, enqueued: seq<seq<Byte>>) {
    && AllOutbound(enqueued) && AllOutbound(l.queue)
    && AllWhole(l.delivered)
    && |l.pending| <= BUFFER_SIZE
    && Concat(l.delivered) + Underway(l) == Concat(enqueued)
  }

  lemma EnqueueConsistent(l: Link, enqueued: seq<seq<Byte>>, f: seq<Byte>)
    requires Consistent(l, enqueued) && Outbound(f)
    ensures Consistent(Step(l, Enqueue(f)), enqueued + [f])
  {
    ConcatOne(l.queue, f);
    ConcatOne(enqueued, f);
    var tail := Concat(l.queue);
    AppendAssoc(l.unsent, tail, f);
    AppendAssoc(l.flight, l.unsent + tail, f);
    AppendAssoc(l.pending, l.flight + (l.unsent + tail), f);
    AppendAssoc(Concat(l.delivered), Underway(l), f);
  }

  lemma PushConsistent(l: Link, enqueued: seq<seq<Byte>>, n: nat)
    requires Consistent(l, enqueued) && n <= |Offer(l.unsent, l.queue)|
    ensures Consistent(Step(l, Push(n)), enqueued)
    ensures Underway(Step(l, Push(n))) == Underway(l)
  {
    var offer, behind := Offer(l.unsent, l.queue), Behind(l.unsent, l.queue);
    OfferConserves(l.unsent, l.queue);
    assert offer[..n] + offer[n..] == offer;
    AppendAssoc(offer[..n], offer[n..], Concat(behind));
    AppendAssoc(l.flight, offer[..n], offer[n..] + Concat(behind));
  }

  lemma CarryConsistent(l: Link, enqueued: seq<seq<Byte>>, n: nat)
    requires Consistent(l, enqueued) && n <= |l.flight| && |l.pending| + n <= BUFFER_SIZE
    ensures Consistent(Step(l, Carry(n)), enqueued)
  {
    var chunk, rest := l.flight[..n], l.flight[n..];
    var later := l.unsent + Concat(l.queue);
    var taken, after := Taken(l.pending, chunk), After(l.pending, chunk);
    assert chunk + rest == l.flight;
    AppendAssoc(chunk, rest, later);
    AppendAssoc(l.pending, chunk, rest + later);
    OneCall(l.pending, chunk, []);
    AppendAssoc(Concat(taken), after, rest + later);
    ConcatAppend(l.delivered, taken);
    AppendAssoc(Concat(l.delivered), Concat(taken), after + (rest + later));
    if HeadReady(l.pending + chunk) {
      HeadIsWhole(l.pending + chunk);
    }
  }

  lemma {:induction false} RunConsistent(moves: seq<Move>)
    ensures Consistent(Run(moves), Enqueued(moves))
  {
    if moves != [] {
      var before, m := moves[..|moves| - 1], moves[|moves| - 1];
      RunConsistent(before);
      var l, all := Run(before), Enqueued(before);
      assert all + [] == all;
      match m
      case Enqueue(f) => if Outbound(f) { EnqueueConsistent(l, all, f); }
      case Push(n) => if n <= |Offer(l.unsent, l.queue)| { PushConsistent(l, all, n); }
      case Carry(n) => if n <= |l.flight| && |l.pending| + n <= BUFFER_SIZE { CarryConsistent(l, all, n); }
    }
  }

  /** What is underway is exactly the frames not yet delivered. */
  lemma UnderwayIsWhatIsMissing(l: Link, enqueued: seq<seq<Byte>>)
    requires Consistent(l, enqueued)
    ensures enqueued == l.delivered + Frames(Underway(l)) && Rest(Underway(l)) == []
  {
    assert AllWhole(enqueued);
    ParseOfPrefix(Concat(enqueued), enqueued);
    ParseOfConcat(l.delivered, Underway(l));
  }

  /**
   * End-to-end FIFO, for every run of sends, partial transmissions, chunks and polls: the
   * delivered frames are a prefix of the enqueued ones, whole and in order, and all of them
   * once both sides have drained.
   */
  lemma Fifo(moves: seq<Move>)
    ensures Run(moves).delivered <= Enqueued(moves)
    ensures var l := Run(moves);
            l.queue == [] && l.unsent == [] && l.flight == [] && !HeadReady(l.pending) ==>
              l.delivered == Enqueued(moves) && l.pending == []
  {
    RunConsistent(moves);
    var l := Run(moves);
    UnderwayIsWhatIsMissing(l, Enqueued(moves));
    if l.queue == [] && l.unsent == [] && l.flight == [] && !HeadReady(l.pending) {
      assert Underway(l) == l.pending;
      assert l.delivered + [] == l.delivered;
    }
  }

  // ---------------------------------------------------------------- progress

  /** How far the undelivered bytes still have to go. */
  function Work(l: Link): nat {
    4 * |Concat(l.queue)| + 3 * |l.unsent| + 2 * |l.flight| + |l.pending|
  }

  /** The move that makes progress: transmit, else deliver, else receive one more byte. */
  function Productive(l: Link): Move {
    if Offer(l.unsent, l.queue) != [] then Push(|Offer(l.unsent, l.queue)|)
    else if HeadReady(l.pending) then Carry(0)
    else Carry(1)
  }

  /** No deadlock: unless everything is delivered there is a move that brings bytes forward. */
  lemma ProductiveMoves(l: Link, enqueued: seq<seq<Byte>>)
    requires Consistent(l, enqueued) && l.delivered != enqueued
    ensures Consistent(Step(l, Productive(l)), enqueued)
    ensures Work(Step(l, Productive(l))) < Work(l)
  {
    hide Frames, Rest, Taken, Declared;
    UnderwayIsWhatIsMissing(l, enqueued);
    var offer := Offer(l.unsent, l.queue);
    if offer != [] {
      PushConsistent(l, enqueued, |offer|);
      OfferConserves(l.unsent, l.queue);
      assert offer[..|offer|] == offer && offer[|offer|..] == [];
      assert |offer| + |Concat(Behind(l.unsent, l.queue))| == |l.unsent| + |Concat(l.queue)|;
    } else {
      assert l.queue == [] && l.unsent == [];
      assert Underway(l) == l.pending + l.flight;
      if HeadReady(l.pending) {
        CarryConsistent(l, enqueued, 0);
        assert l.pending + l.flight[..0] == l.pending && l.flight[0..] == l.flight;
      } else {
        NotStuck(l);
        CarryConsistent(l, enqueued, 1);
        assert |After(l.pending, l.flight[..1])| <= |l.pending| + 1;
      }
    }
  }

  /** Without a complete head there is room for the next byte, and there is a next byte. */
  lemma NotStuck(l: Link)
    requires Rest(l.pending + l.flight) == [] && Frames(l.pending + l.flight) != []
    requires |l.pending| <= BUFFER_SIZE && !HeadReady(l.pending)
    ensures l.flight != [] && |l.pending| < BUFFER_SIZE
  {
  }

  /** From every reachable state some schedule without new frames delivers everything. */
  lemma {:induction false} EverythingCanBeDelivered(moves: seq<Move>) returns (more: seq<Move>)
    ensures Enqueued(moves + more) == Enqueued(moves)
    ensures Run(moves + more).delivered == Enqueued(moves)
    decreases Work(Run(moves))
  {
    RunConsistent(moves);
    var l := Run(moves);
    if l.delivered == Enqueued(moves) {
      more := [];
      assert moves + more == moves;
    } else {
      ProductiveMoves(l, Enqueued(moves));
      var next := moves + [Productive(l)];
      assert next[..|next| - 1] == moves;
      assert Enqueued(moves) + [] == Enqueued(moves);
      var rest := EverythingCanBeDelivered(next);
      more := [Productive(l)] + rest;
      assert moves + more == next + rest;
    }
  }

  // ---------------------------------------------------------------- the objects

  /**
   * The same for two slot objects, in whatever state their methods left them: if one has
   * received a prefix of what the other put on its socket, it delivered a prefix of what the
   * other enqueued, and everything if it received everything and holds no complete frame.
   */
  lemma SlotsDeliverInOrder(a: Client, b: Client)
    requires a.Sending() && b.Receiving() && b.received <= a.wire
    ensures b.consumed <= a.enqueued
    ensures b.received == Concat(a.enqueued) && !HeadReady(b.Pending()) ==>
              b.consumed == a.enqueued && b.Pending() == []
  {
    var tail := a.Unsent() + Concat(Contents(a.sendQueue));
    AppendAssoc(a.wire, a.Unsent(), Concat(Contents(a.sendQueue)));
    assert a.wire <= Concat(a.enqueued);
    assert AllWhole(a.enqueued);
    ParseOfPrefix(b.received, a.enqueued);
    ParseOfConcat(b.consumed, b.Pending());
    if b.received == Concat(a.enqueued) && !HeadReady(b.Pending()) {
      assert b.consumed + [] == b.consumed;
    }
  }

  /** One slot: its deliveries and the frames still complete in its buffer are the parse of what it received. */
  lemma SlotFollowsParser(c: Client)
    requires c.Receiving()
    ensures Frames(c.received) == c.consumed + Frames(c.Pending())
    ensures Rest(c.received) == Rest(c.Pending())
  {
    ParseOfConcat(c.consumed, c.Pending());
  }
}
