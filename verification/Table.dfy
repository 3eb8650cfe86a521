/** The server's connection table as an object: slots, the compacting index, and what runs on it. */
module Tables {
  import opened Bytes
  import opened Packet
  import opened Framing
  import opened Outgoing
  import opened Sessions
  import opened Clients
  import Chat
  import Schedules
  import Reuse
  import Servers
  import opened Rounds
  import Lives

  /** What the connection table sees of the slots. */
  ghost function Views(cs: seq<Client>): (r: seq<Session>)
    reads cs`ClientSocket, cs`todc, cs`isAuth, cs`iv, cs`key
    ensures |r| == |cs|
    ensures forall i :: 0 <= i < |cs| ==> r[i] == cs[i].View()
  {
    if cs == [] then [] else Views(cs[..|cs| - 1]) + [cs[|cs| - 1].View()]
  }

  /** What a broadcast can change in the slots. */
  ghost function Outboxes(cs: seq<Client>): (r: seq<Outbox>)
    reads cs`todc, cs`sendQueue, cs`enqueued
    ensures |r| == |cs|
    ensures forall i :: 0 <= i < |cs| ==> r[i] == cs[i].Box()
  {
    if cs == [] then [] else Outboxes(cs[..|cs| - 1]) + [cs[|cs| - 1].Box()]
  }

  ghost function OpenCount(cs: seq<Client>): nat
    reads cs`ClientSocket
  {
    if cs == [] then 0
    else OpenCount(cs[..|cs| - 1]) + if cs[|cs| - 1].ClientSocket >= 0 then 1 else 0
  }

  lemma {:induction false} ViewsCount(cs: seq<Client>)
    ensures CountOpen(Views(cs)) == OpenCount(cs)
  {
    if cs != [] {
      ViewsCount(cs[..|cs| - 1]);
      assert Views(cs)[..|cs| - 1] == Views(cs[..|cs| - 1]);
    }
  }

  ghost function PartsOf(cs: seq<Client>): set<object> {
    set i: nat, o | i < |cs| && o in cs[i].Parts() :: o
  }

  /** Every slot accounts for the bytes it received, and its packets are sound. */
  ghost predicate AllReceiving(cs: seq<Client>)
    reads cs`rcvread, cs`packetsize, cs`hassize, cs`consumed, cs`received, PartsOf(cs)
  {
    forall i :: 0 <= i < |cs| ==>
                  assert cs[i].Parts() <= PartsOf(cs);
                  cs[i].Receiving() && cs[i].inbuf.Valid() && cs[i].outbuf.Valid()
  }

  /** Every slot accounts for the bytes it is to send. */
  ghost predicate AllSending(cs: seq<Client>)
    reads cs`snddata, cs`sendQueue, cs`enqueued, cs`wire, PartsOf(cs)
  {
    forall i :: 0 <= i < |cs| ==> assert cs[i].Parts() <= PartsOf(cs); cs[i].Sending()
  }

  ghost predicate AllValid(cs: seq<Client>)
    reads cs`rcvread, cs`packetsize, cs`hassize, cs`consumed, cs`received
    reads cs`snddata, cs`sendQueue, cs`enqueued, cs`wire, PartsOf(cs)
  {
    AllReceiving(cs) && AllSending(cs)
  }

  /** Every closed slot is as good as new. */
  ghost predicate AllIdle(cs: seq<Client>)
    reads cs, PartsOf(cs)
  {
    forall i :: 0 <= i < |cs| && cs[i].ClientSocket < 0 ==> assert cs[i].Parts() <= PartsOf(cs); cs[i].Unused()
  }

  /** The value of a slot. */
  ghost function ValueOf(c: Client): (v: Schedules.SlotState)
    reads c, c.rcvbuf, c.sndbuf, c.inbuf, c.inbuf.buffer, c.outbuf, c.outbuf.buffer
    ensures Schedules.Proper(v)
  {
    if c.Valid() then Schedules.Value(c) else Reuse.Vacant()
  }

  ghost function ValuesOf(cs: seq<Client>): (r: seq<Schedules.SlotState>)
    reads cs, PartsOf(cs)
    ensures |r| == |cs| && AllProper(r)
    ensures forall i :: 0 <= i < |cs| ==> assert cs[i].Parts() <= PartsOf(cs); r[i] == ValueOf(cs[i])
  {
    seq(|cs|, i requires 0 <= i < |cs| reads cs, PartsOf(cs) => assert cs[i].Parts() <= PartsOf(cs); ValueOf(cs[i]))
  }

  /** No slot shares anything with another. */
  ghost predicate Apart(cs: seq<Client>) {
    forall i, j :: 0 <= i < j < |cs| ==> cs[i].Footprint() !! cs[j].Footprint()
  }

  /** With this many slots a chat broadcast could stick in the padding loop; the server has ten. */
  const MAX_SLOTS: nat := 4032

  /** A slot's queue is what it was and, if the slot is open, one more frame. */
  ghost predicate GainsFrame(before: Outbox, c: Client, f: seq<Byte>)
    reads c`sendQueue, c`ClientSocket
  {
    Contents(c.sendQueue) == Contents(before.queue) + if c.ClientSocket >= 0 then [f] else []
  }

  /** The last handler that ran is one of type 1 or 2. */
  predicate EndsInRequest(runs: seq<Note>) {
    runs != [] && var last := runs[|runs| - 1]; last.Ran? && 1 <= last.ty <= 2
  }

  /** Only handlers of types 1 and 2 can hang. */
  lemma HangsIn(s: nat, verdict: Verdict, subtype: nat, io: Io, reply: Image, open: nat)
    requires Hangs(ActOf(verdict, subtype, io), reply, io.calls, open)
    ensures Invoked(s, verdict) == [Ran(s, 1)] || Invoked(s, verdict) == [Ran(s, 2)]
  {
    hide Room, PadFits, Schedules.Made;
  }

  /** Every open slot is marked, if at all. */
  function Marking(h: Hub, mark: bool): Hub {
    if mark
    then h.(slots := seq(|h.slots|, i requires 0 <= i < |h.slots| =>
                          h.slots[i].(todc := h.slots[i].todc || Open(h.slots[i]))))
    else h
  }

  function DropAll(n: nat): seq<Event> {
    seq(n, i requires 0 <= i < n => Drop(i))
  }

  lemma {:induction false} DropAllMarks(h: Hub, n: nat)
    requires n <= |h.slots|
    ensures var r := Final(h, DropAll(n));
            && r == h.(slots := r.slots) && |r.slots| == |h.slots|
            && forall i :: 0 <= i < |h.slots| ==>
                             r.slots[i] == if i < n && Open(h.slots[i]) then h.slots[i].(todc := true) else h.slots[i]
    ensures HandlerRuns(Log(h, DropAll(n))) == []
  {
    hide Final, Log, HandlerRuns;
    if n == 0 {
      OneEvent(h, Drop(0));
      NoRuns();
    } else {
      var before := Final(h, DropAll(n - 1));
      DropAllMarks(h, n - 1);
      assert DropAll(n) == DropAll(n - 1) + [Drop(n - 1)];
      RunsConcat(h, DropAll(n - 1), [Drop(n - 1)]);
      if Open(before.slots[n - 1]) {
        MarkingEvents(before, n - 1, Drop(n - 1));
      } else {
        OneEvent(before, Drop(n - 1));
        NoRuns();
      }
    }
  }

  lemma MarkingIsDrops(h: Hub, mark: bool)
    ensures Final(h, if mark then DropAll(|h.slots|) else []) == Marking(h, mark)
    ensures HandlerRuns(Log(h, if mark then DropAll(|h.slots|) else [])) == []
  {
    hide Final, Log, HandlerRuns;
    OneEvent(h, Drop(0));
    NoRuns();
    if mark {
      DropAllMarks(h, |h.slots|);
      assert Final(h, DropAll(|h.slots|)).slots == Marking(h, true).slots;
    }
  }

  class Server {
    const connections: seq<Client>
    const serverConnections: array<nat>
    var serverNumConnections: nat
    var serverKeys: seq<Pair>

    // The order of the accepts, for the specification only.
    ghost var born: seq<nat>
    ghost var clock: nat

    ghost predicate Distinct() {
      forall i, j :: 0 <= i < j < |connections| ==> connections[i] != connections[j]
    }

    /** Every slot owns its buffers alone, and none holds a part of the server. */
    ghost predicate Separate() {
      && Apart(connections)
      && forall i :: 0 <= i < |connections| ==>
                       && connections[i].Layout()
                       && this !in connections[i].Footprint() && serverConnections !in connections[i].Footprint()
    }

    ghost function Slots(): (r: seq<Session>)
      reads connections`ClientSocket, connections`todc, connections`isAuth, connections`iv, connections`key
      ensures |r| == |connections|
      ensures forall i :: 0 <= i < |r| ==> r[i] == connections[i].View()
    {
      Views(connections)
    }

    ghost function Boxes(): (r: seq<Outbox>)
      reads connections`todc, connections`sendQueue, connections`enqueued
      ensures |r| == |connections|
      ensures forall i :: 0 <= i < |r| ==> r[i] == connections[i].Box()
    {
      Outboxes(connections)
    }

    ghost function State(): (h: Hub)
      requires serverNumConnections <= serverConnections.Length
      ensures |h.slots| == |connections|
      reads this, serverConnections
      reads connections`ClientSocket, connections`todc, connections`isAuth, connections`iv, connections`key
    {
      Hub(Slots(), serverConnections[..serverNumConnections], serverKeys, born, clock)
    }

    /** The slots as values. */
    ghost function Values(): (r: seq<Schedules.SlotState>)
      reads connections, PartsOf(connections)
      ensures |r| == |connections| && AllProper(r)
    {
      ValuesOf(connections)
    }

    /** How the slots, the index array and the slot numbers hang together. */
    ghost predicate Wired()
      reads this`serverNumConnections, connections`ClientSocket, connections`connectionIndex
      ensures Wired() ==> Distinct() && serverNumConnections <= serverConnections.Length == |connections|
    {
      && Distinct() && |connections| == serverConnections.Length
      && serverNumConnections <= serverConnections.Length
      && (forall i :: 0 <= i < |connections| && connections[i].ClientSocket >= 0 ==>
                        connections[i].connectionIndex == i)
    }

    /** The table on its own: what accepting and counting need. */
    ghost predicate Agrees()
      reads this, serverConnections, connections
      ensures Agrees() ==> serverNumConnections <= serverConnections.Length
    {
      Wired() && HubInv(State())
    }

    /** The server invariant: the table, the ownership of the buffers, and every slot. */
    ghost predicate Valid()
      reads this, serverConnections, connections, PartsOf(connections)
    {
      Agrees() && Separate() && AllValid(connections) && AllIdle(connections)
    }

    /** All slots but one. */
    ghost function Others(s: nat): seq<Client>
      requires s < |connections|
    {
      connections[..s] + connections[s + 1..]
    }

    lemma PartsAreOutside()
      requires Separate()
      ensures var ps := PartsOf(connections); this !in ps && serverConnections !in ps && allocated(ps)
      ensures forall i :: 0 <= i < |connections| ==> connections[i] !in PartsOf(connections)
    {
      forall i, j | 0 <= i < |connections| && 0 <= j < |connections| ensures connections[i] !in connections[j].Parts() {
        assert connections[i] in connections[i].Footprint();
        if i == j {
          OwnParts(connections[i]);
        }
      }
    }

    /** What a slot may change is nothing another slot's validity depends on. */
    lemma SlotIsApart(s: nat)
      requires Separate() && s < |connections|
      ensures var c, ps := connections[s], PartsOf(Others(s));
              && c !in Others(s) && c !in ps && c.Parts() !! ps && allocated(ps)
              && this !in ps && serverConnections !in ps
              && c.outbuf !in ps && c.outbuf.buffer !in ps && c.inbuf !in ps && c.inbuf.buffer !in ps
              && c.rcvbuf !in ps && c.sndbuf !in ps
              && forall o :: o in Others(s) ==> o !in c.Parts()
    {
      var c, others := connections[s], Others(s);
      assert c in c.Footprint();
      forall i | 0 <= i < |others|
        ensures others[i] != c && c.Footprint() !! others[i].Footprint() && others[i] in others[i].Footprint()
        ensures this !in others[i].Parts() && serverConnections !in others[i].Parts()
      {
        assert others[i] == connections[if i < s then i else i + 1];
        assert others[i] in others[i].Footprint();
      }
    }

    /** No slot is a part of another. */
    lemma SlotsAreNoParts(s: nat)
      requires Separate() && s < |connections|
      ensures forall o :: o in connections ==> o !in PartsOf(Others(s))
    {
      PartsAreOutside();
      var others := Others(s);
      forall i | 0 <= i < |others| ensures others[i].Parts() <= PartsOf(connections) {
        assert others[i] == connections[if i < s then i else i + 1];
      }
    }

    lemma SlotOwns(s: nat)
      requires Separate() && s < |connections|
      ensures connections[s].Layout() && this !in connections[s].Footprint()
      ensures connections[s].inbuf.buffer.Length == connections[s].outbuf.buffer.Length == 8192
      ensures connections[s].inbuf.buffer != connections[s].outbuf.buffer
      ensures connections[s].inbuf != connections[s].outbuf
    {
    }

    lemma SplitReceiving(s: nat)
      requires s < |connections|
      ensures var c := connections[s];
              AllReceiving(connections) <==>
              AllReceiving(Others(s)) && c.Receiving() && c.inbuf.Valid() && c.outbuf.Valid()
    {
      hide Client.Receiving, ServerPacket.Valid;
      var others := Others(s);
      assert forall i :: 0 <= i < |others| ==> others[i] == connections[if i < s then i else i + 1];
      assert forall i :: 0 <= i < |connections| && i != s ==> connections[i] == others[if i < s then i else i - 1];
    }

    lemma SplitSending(s: nat)
      requires s < |connections|
      ensures AllSending(connections) <==> AllSending(Others(s)) && connections[s].Sending()
    {
      hide Client.Sending;
      var others := Others(s);
      assert forall i :: 0 <= i < |others| ==> others[i] == connections[if i < s then i else i + 1];
      assert forall i :: 0 <= i < |connections| && i != s ==> connections[i] == others[if i < s then i else i - 1];
    }

    lemma SplitIdle(s: nat)
      requires s < |connections|
      ensures var c := connections[s];
              AllIdle(connections) <==> AllIdle(Others(s)) && (c.ClientSocket < 0 ==> c.Unused())
    {
      hide Client.Unused;
      var others := Others(s);
      assert forall i :: 0 <= i < |others| ==> others[i] == connections[if i < s then i else i + 1];
      assert forall i :: 0 <= i < |connections| && i != s ==> connections[i] == others[if i < s then i else i - 1];
    }

    lemma SplitValues(s: nat)
      requires s < |connections|
      ensures |ValuesOf(Others(s))| == |connections| - 1
      ensures forall i :: 0 <= i < |connections| ==>
                            Values()[i] == if i == s then ValueOf(connections[s])
                                           else ValuesOf(Others(s))[if i < s then i else i - 1]
    {
      hide ValueOf;
      var others := Others(s);
      forall i | 0 <= i < |connections| && i != s
        ensures Values()[i] == ValuesOf(others)[if i < s then i else i - 1]
      {
        assert connections[i] == others[if i < s then i else i - 1];
      }
    }

    lemma SplitValid(s: nat)
      requires s < |connections|
      ensures AllValid(connections) <==> AllValid(Others(s)) && connections[s].Valid()
    {
      hide AllReceiving, AllSending, Client.Receiving, Client.Sending, ServerPacket.Valid;
      SplitReceiving(s);
      SplitSending(s);
    }

    /** `Server::Initialize`: a table of new slots. */
    constructor (size: nat, keys: seq<Pair>, garbage: bool)
      ensures Valid() && State() == Start(size, keys) && |connections| == size
      ensures forall s :: 0 <= s < |connections| ==> connections[s].Fresh() && connections[s].lastHeartBeat == 0
      ensures Values() == AllVacant(size) && serverKeys == keys
      ensures fresh(serverConnections) && fresh(connections) && fresh(PartsOf(connections))
    {
      hide Client.Fresh, Client.Layout, Apart, Start, HubInv, Views, Outboxes, AllValid, AllIdle, Values, ValueOf;
      var cs := MakeSlots(size, garbage);
      var index := new nat[size](_ => 0);
      connections := cs;
      serverConnections := index;
      serverNumConnections := 0;
      serverKeys := keys;
      born, clock := Start(size, keys).born, 0;
      new;
      NewTable(keys);
    }

    lemma NewTable(keys: seq<Pair>)
      requires Separate() && serverConnections.Length == |connections| && serverNumConnections == 0
      requires forall i :: 0 <= i < |connections| ==>
                             connections[i].Fresh() && ValueOf(connections[i]) == Reuse.Vacant()
      requires serverKeys == keys && clock == 0 && born == Start(|connections|, keys).born
      ensures Valid() && State() == Start(|connections|, keys) && Values() == AllVacant(|connections|)
    {
      hide Client.Fresh, HubInv, Views, Outboxes, AllValid, Apart, ValueOf;
      FreshAreValid(connections);
      AreDistinct(connections);
      StartKeepsInv(|connections|, keys);
      forall i | 0 <= i < |connections| ensures connections[i].View() == CLOSED_SESSION {
        FreshViews(connections[i]);
      }
      assert Slots() == Start(|connections|, keys).slots;
    }

    method FreeConnection() returns (fc: nat)
      ensures fc == FirstFree(Slots())
    {
      hide Views, Outboxes;
      fc := 0;
      while fc < |connections| && connections[fc].ClientSocket >= 0
        invariant fc <= |connections|
        invariant forall i :: 0 <= i < fc ==> Open(Slots()[i])
      {
        fc := fc + 1;
      }
      FirstFreeIs(Slots(), fc);
    }

    lemma {:induction false} OpenCountIs()
      ensures CountOpen(Slots()) == OpenCount(connections)
    {
      ViewsCount(connections);
    }

    method CountConnections() returns (count: nat)
      ensures count == CountOpen(Slots())
    {
      hide Views, Outboxes;
      count := 0;
      for i := 0 to |connections|
        invariant count == CountOpen(Slots()[..i])
      {
        assert Slots()[..i + 1][..i] == Slots()[..i];
        if connections[i].ClientSocket >= 0 {
          count := count + 1;
        }
      }
      assert Slots()[..|connections|] == Slots();
    }

    method GetClientCount() returns (count: nat)
      requires Agrees()
      ensures count == CountOpen(Slots()) == serverNumConnections <= |connections|
    {
      hide Views, Outboxes, CountOpen;
      count := CountConnections();
      IndexCounts(State());
    }

    /**
     * Takes the first waiting connection into the first free slot. With no slot free, every
     * waiting connection is accepted and dropped.
     */
    method AcceptConnection(waiting: seq<nat>) returns (ok: bool)
      requires Valid()
      modifies this`serverNumConnections, this`born, this`clock, serverConnections
      modifies connections`ClientSocket, connections`connectionIndex
      ensures Valid()
      ensures State() == if waiting == [] then old(State()) else Accepted(old(State()), waiting[0])
      ensures ok <==> waiting != [] && FirstFree(old(Slots())) < |connections|
      ensures ok ==> Begins(connections[FirstFree(old(Slots()))])
      ensures Values() == if waiting == [] then old(Values()) else Joined(old(Values()))
    {
      hide HubInv, FirstFree, Accepted, Views, Outboxes, AllValid, AllIdle, Separate, PartsOf, Wired;
      hide Agrees, State, Slots, Client.Blank, Begins, Client.Valid, Values, Joined;
      PartsAreOutside();
      ghost var f := FirstFree(Slots());
      ok := AcceptIdle(waiting);
      if ok {
        SplitValid(f);
        BlankBegins(connections[f]);
      }
    }

    /** An accept leaves the closed slots as good as new, and so is the slot it takes. */
    method AcceptIdle(waiting: seq<nat>) returns (ok: bool)
      requires Agrees() && Separate() && AllValid(connections) && AllIdle(connections)
      modifies this`serverNumConnections, this`born, this`clock, serverConnections
      modifies connections`ClientSocket, connections`connectionIndex
      ensures Agrees() && AllValid(connections) && AllIdle(connections)
      ensures State() == if waiting == [] then old(State()) else Accepted(old(State()), waiting[0])
      ensures ok <==> waiting != [] && FirstFree(old(Slots())) < |connections|
      ensures var f := FirstFree(old(Slots()));
              ok ==> connections[f].ClientSocket >= 0 && connections[f].Blank()
      ensures Values() == if waiting == [] then old(Values()) else Joined(old(Values()))
    {
      hide HubInv, FirstFree, Accepted, Views, Outboxes, Agrees, State, Slots, Separate, PartsOf;
      hide Client.Blank, AllValid, Values, Joined;
      PartsAreOutside();
      ghost var f := FirstFree(Slots());
      PartsAreInside(connections);
      ok := AcceptIntoTable(waiting);
    }

    method AcceptIntoTable(waiting: seq<nat>) returns (ok: bool)
      requires Agrees() && Separate() && AllValid(connections)
      modifies this`serverNumConnections, this`born, this`clock, serverConnections
      modifies connections`ClientSocket, connections`connectionIndex
      ensures Agrees() && AllValid(connections)
      ensures State() == if waiting == [] then old(State()) else Accepted(old(State()), waiting[0])
      ensures ok <==> waiting != [] && FirstFree(old(Slots())) < |connections|
      ensures ok ==> connections[FirstFree(old(Slots()))].ClientSocket >= 0
      ensures forall i :: 0 <= i < |connections| && connections[i].ClientSocket < 0 ==>
                            old(connections[i].ClientSocket) == connections[i].ClientSocket
                            && old(connections[i].connectionIndex) == connections[i].connectionIndex
      ensures Values() == if waiting == [] then old(Values()) else Joined(old(Values()))
    {
      hide HubInv, FirstFree, Accepted, Views, Outboxes, AllValid, Separate, Values, Joined, PartsOf, Agrees, Slots;
      PartsAreOutside();
      JoinedIs(Values());
      NothingFree();
      var free := FreeForFirst(waiting);
      if free < |connections| {
        Take(connections[free], free, waiting[0]);
        return true;
      }
      return false;
    }

    /** With no slot free an accept leaves the table as it is. */
    lemma NothingFree()
      requires Agrees() && AllValid(connections)
      ensures FirstFree(ViewsOf(Values())) == FirstFree(Slots())
      ensures FirstFree(Slots()) == |connections| ==> forall socket: nat :: Accepted(State(), socket) == State()
    {
      hide HubInv, FirstFree;
      FirstFreeOfValues();
    }

    method Take(c: Client, free: nat, socket: nat)
      requires Agrees() && Separate() && AllValid(connections) && free == FirstFree(Slots()) < |connections|
      requires c == connections[free]
      modifies this`serverNumConnections, this`born, this`clock, serverConnections
      modifies c`ClientSocket, c`connectionIndex
      ensures Agrees() && AllValid(connections) && State() == Accepted(old(State()), socket)
      ensures c.ClientSocket >= 0
      ensures Values() == old(Values())[free := Reuse.Occupied(old(Values())[free])]
    {
      hide HubInv, FirstFree, Accepted, Views, Outboxes, AllValid, Separate, Values, PartsOf;
      IndexCounts(State());
      AcceptKeepsInv(State(), socket);
      Occupy(c, free, socket);
    }

    /** The accept loop: the first connection decides, and the others only find the table full. */
    method FreeForFirst(waiting: seq<nat>) returns (free: nat)
      ensures free == if waiting == [] then |connections| else FirstFree(Slots())
    {
      hide FirstFree, Views, Outboxes;
      var k := 0;
      free := |connections|;
      while k < |waiting| && free == |connections|
        invariant k <= |waiting|
        invariant free == if k == 0 then |connections| else FirstFree(Slots())
        modifies {}
      {
        free := FreeConnection();
        k := k + 1;
      }
    }

    method Occupy(workConnect: Client, free: nat, socket: nat)
      requires Wired() && Separate() && AllValid(connections)
      requires |born| == |connections| && serverNumConnections < |connections|
      requires free == FirstFree(Slots()) < |connections| && workConnect == connections[free]
      modifies this`serverNumConnections, this`born, this`clock, serverConnections
      modifies workConnect`ClientSocket, workConnect`connectionIndex
      ensures Wired() && State() == Accepted(old(State()), socket) && workConnect.ClientSocket >= 0
      ensures AllValid(connections)
      ensures Values() == old(Values())[free := Reuse.Occupied(old(Values())[free])]
    {
      hide FirstFree, Wired, Views, Outboxes, Slots, AllValid, Separate, PartsOf, Values;
      PartsAreOutside();
      Enter(workConnect, free, socket);
      Enlist(free);
      born := born[free := clock];
      clock := clock + 1;
    }

    method Enter(workConnect: Client, free: nat, socket: nat)
      requires Wired() && Separate() && AllValid(connections)
      requires free < |connections| && workConnect == connections[free]
      modifies workConnect`ClientSocket, workConnect`connectionIndex
      ensures Wired() && Slots() == old(Slots())[free := old(Slots())[free].(socket := socket)]
      ensures workConnect.ClientSocket >= 0 && AllValid(connections)
      ensures Values() == old(Values())[free := Reuse.Occupied(old(Values())[free])]
    {
      hide *;
      ghost var before, others := Values(), ValuesOf(Others(free));
      SlotIsApart(free);
      SplitValid(free);
      SplitValues(free);
      EnterSlot(workConnect, free, socket);
      SplitValid(free);
      SplitValues(free);
      OneChanged(before, Values(), others, free);
    }

    method EnterSlot(workConnect: Client, free: nat, socket: nat)
      requires Wired() && free < |connections| && workConnect == connections[free] && workConnect.Valid()
      modifies workConnect`ClientSocket, workConnect`connectionIndex
      ensures Wired() && Slots() == old(Slots())[free := old(Slots())[free].(socket := socket)]
      ensures workConnect.ClientSocket >= 0 && workConnect.Valid()
      ensures ValueOf(workConnect) == Reuse.Occupied(old(ValueOf(workConnect)))
    {
      hide Views, Outboxes, Client.Receiving, Client.Sending;
      workConnect.connectionIndex := free;
      workConnect.ClientSocket := socket;
    }

    /** The first free slot of the table is that of the values. */
    lemma FirstFreeOfValues()
      requires Wired() && AllValid(connections)
      ensures FirstFree(ViewsOf(Values())) == FirstFree(Slots())
    {
      hide FirstFree;
      ViewsAreSlots();
      FirstFreeIs(ViewsOf(Values()), FirstFree(Slots()));
    }

    method Enlist(free: nat)
      requires Wired() && serverNumConnections < serverConnections.Length
      modifies this`serverNumConnections, serverConnections
      ensures Wired() && serverNumConnections == old(serverNumConnections) + 1
      ensures serverConnections[..serverNumConnections] == old(serverConnections[..serverNumConnections]) + [free]
    {
      serverConnections[serverNumConnections] := free;
      serverNumConnections := serverNumConnections + 1;
    }

    /** The compaction loop: drops one slot number from the index, keeping the order. */
    method Compact(s: nat)
      requires serverNumConnections <= serverConnections.Length
      modifies this`serverNumConnections, serverConnections
      ensures serverNumConnections <= serverConnections.Length
      ensures serverConnections[..serverNumConnections]
           == Without(old(serverConnections[..serverNumConnections]), s)
    {
      hide Views, Outboxes;
      ghost var index := serverConnections[..serverNumConnections];
      var j := 0;
      for i := 0 to serverNumConnections
        invariant j <= i <= serverNumConnections == |index| <= serverConnections.Length
        invariant serverConnections[..j] == Without(index[..i], s)
        invariant serverConnections[i..serverNumConnections] == index[i..]
      {
        assert serverConnections[i] == serverConnections[i..serverNumConnections][0] == index[i];
        assert index[..i + 1][..i] == index[..i];
        assert serverConnections[i + 1..serverNumConnections] == index[i..][1..];
        if serverConnections[i] != s {
          serverConnections[j] := serverConnections[i];
          j := j + 1;
        }
      }
      assert index[..serverNumConnections] == index;
      serverNumConnections := j;
    }

    /** `InitializeConnection`: the slot leaves the index and becomes as good as new. */
    method InitializeConnection(s: nat)
      requires Valid() && s < |connections|
      modifies this`serverNumConnections, serverConnections, connections[s].Footprint()
      ensures Valid() && State() == Reinit(old(State()), s)
      ensures connections[s].Fresh() && connections[s].lastHeartBeat == 0
      ensures Values() == old(Values())[s := Reuse.Vacant()]
    {
      hide HubInv, Reinit, State, Slots, AllValid, AllIdle, Separate, PartsOf, Wired, Client.Valid, Client.Unused;
      hide Values, ValuesOf, ValueOf;
      ghost var before, others := Values(), ValuesOf(Others(s));
      SlotIsApart(s);
      SplitValues(s);
      SplitValid(s);
      SplitIdle(s);
      ReinitKeepsInv(State(), s);
      assert connections[s].Layout() && this !in connections[s].Footprint() by { SlotOwns(s); }
      ReinitSlot(connections[s], s);
      SplitValid(s);
      SplitIdle(s);
      SplitValues(s);
      OneChanged(before, Values(), others, s);
    }

    method ReinitSlot(connect: Client, s: nat)
      requires Wired() && s < |connections| && connect == connections[s] && connect.Layout()
      requires this !in connect.Footprint() && serverConnections !in connect.Footprint()
      requires forall o :: o in Others(s) ==> o !in connect.Footprint()
      modifies this`serverNumConnections, serverConnections, connect.Footprint()
      ensures Wired() && State() == Reinit(old(State()), s)
      ensures connect.Fresh() && connect.lastHeartBeat == 0 && ValueOf(connect) == Reuse.Vacant()
    {
      hide Without, Client.Fresh, Slots;
      if connect.ClientSocket >= 0 {
        Compact(connect.connectionIndex);
      }
      ClearSlot(connect, s);
    }

    method ClearSlot(connect: Client, s: nat)
      requires Wired() && s < |connections| && connect == connections[s] && connect.Layout()
      requires this !in connect.Footprint() && serverConnections !in connect.Footprint()
      requires forall o :: o in Others(s) ==> o !in connect.Footprint()
      modifies connect.Footprint()
      ensures Wired() && Slots() == old(Slots())[s := CLOSED_SESSION]
      ensures connect.Fresh() && connect.lastHeartBeat == 0 && ValueOf(connect) == Reuse.Vacant()
    {
      hide Client.Valid, Client.Fresh, Views, Outboxes;
      ghost var slots := Slots();
      connect.Initialize();
      FreshViews(connect);
      Reuse.VacantIs(connect);
      assert forall i :: 0 <= i < |connections| && i != s ==> connections[i] == Others(s)[if i < s then i else i - 1];
      assert Slots() == slots[s := CLOSED_SESSION];
    }

    /** The scan over all slots for one that holds the pair. */
    method IsHeld(pair: Pair) returns (held: bool)
      ensures held <==> Held(Slots(), pair)
    {
      hide Views, Outboxes;
      for i := 0 to |connections|
        invariant forall t :: 0 <= t < i ==> Slots()[t].pair != pair
      {
        if connections[i].iv == pair.iv && connections[i].key == pair.key {
          assert Slots()[i].pair == pair;
          return true;
        }
      }
      return false;
    }

    /** The handshake handler on the packet in slot `s`, up to its reply. */
    method Authenticate(client: Client, ghost s: nat) returns (ok: bool)
      requires Wired() && s < |connections| && client == connections[s]
      requires client.inbuf.Valid()
      modifies client`todc, client`isAuth, client`iv, client`key
      ensures Wired() && ok == (client.isAuth && !old(client.isAuth))
      ensures ok ==> client.todc == old(client.todc)
      ensures !ok ==>
                client.isAuth == old(client.isAuth) && client.iv == old(client.iv) && client.key == old(client.key)
      ensures State() == Handshake(old(State()), s, client.inbuf.pSize, client.inbuf.buffer[6..22])
    {
      hide Lookup, Held, Mark, Views, Outboxes, Wired;
      if client.isAuth || client.inbuf.pSize != 0x20 {
        return false;
      }
      var row := Lookup(serverKeys, client.inbuf.buffer[6..22]);
      var refused := row == [];
      if !refused {
        refused := IsHeld(row[0]);
      }
      if refused {
        Refuse(client, s);
        return false;
      }
      Admit(client, s, row[0]);
      return true;
    }

    method Refuse(client: Client, ghost s: nat)
      requires Wired() && s < |connections| && client == connections[s]
      modifies client`todc
      ensures State() == Mark(old(State()), s)
    {
      hide Views, Outboxes, Wired;
      ghost var slots := Slots();
      client.Disconnect();
      assert Slots() == slots[s := slots[s].(todc := true)];
    }

    method Admit(client: Client, ghost s: nat, pair: Pair)
      requires Wired() && s < |connections| && client == connections[s]
      modifies client`isAuth, client`iv, client`key
      ensures client.isAuth && State() == old(State()).(
                                 slots := old(Slots())[s := old(Slots())[s].(auth := true, pair := pair)])
    {
      hide Views, Outboxes, Wired;
      ghost var slots := Slots();
      client.iv, client.key := pair.iv, pair.key;
      client.isAuth := true;
      assert Slots() == slots[s := slots[s].(auth := true, pair := pair)];
    }

    /** The handshake handler with its reply. */
    method ServerAuth(client: Client, ghost s: nat, rnd: nat)
      requires Wired() && s < |connections| && client == connections[s] && rnd < 0x8000
      requires client.inbuf.Valid() && client.Valid()
      modifies client`todc, client`isAuth, client`iv, client`key
      modifies client`sendQueue, client`enqueued, client.outbuf, client.outbuf.buffer
      ensures Wired() && client.Valid()
      ensures State() == Handshake(old(State()), s, client.inbuf.pSize, client.inbuf.buffer[6..22])
      ensures client.enqueued == old(client.enqueued) +
              (if client.isAuth && !old(client.isAuth) && client.ClientSocket >= 0 then Emitted(AuthReply(rnd)) else [])
      ensures ValueOf(client) == if client.isAuth && !old(client.isAuth)
                                 then
                                   var admit := Schedules.Admit(Pair(client.iv, client.key), rnd);
                                   Schedules.Effect(old(ValueOf(client)), admit).0
                                 else old(ValueOf(client)).(view := old(ValueOf(client)).view.(todc := client.todc))
    {
      hide Client.Receiving, Client.Sending, Handshake, Emitted, AuthReply, Schedules.Effect, ValueOf;
      hide State, Slots, Wired, ServerPacket.Valid, Word, Lookup, Held;
      client.ReceivingHasLayout();
      client.SendingHasLayout();
      ghost var v := ValueOf(client);
      var ok := AuthenticateValue(client, s);
      assert old(client.enqueued) + [] == old(client.enqueued);
      if ok {
        Reply(client, s, rnd);
        Reuse.AdmitIs(v, Pair(client.iv, client.key), rnd);
      }
    }

    method AuthenticateValue(client: Client, ghost s: nat) returns (ok: bool)
      requires Wired() && s < |connections| && client == connections[s] && client.Valid()
      modifies client`todc, client`isAuth, client`iv, client`key
      ensures Wired() && client.Valid() && ok == (client.isAuth && !old(client.isAuth))
      ensures State() == Handshake(old(State()), s, client.inbuf.pSize, client.inbuf.buffer[6..22])
      ensures ValueOf(client) == if ok
                                 then old(ValueOf(client)).(view := old(ValueOf(client)).view.(
                                        auth := true, pair := Pair(client.iv, client.key)))
                                 else old(ValueOf(client)).(view := old(ValueOf(client)).view.(todc := client.todc))
    {
      hide Client.Receiving, Client.Sending, Handshake, State, Slots, Wired;
      client.ReceivingHasLayout();
      ok := Authenticate(client, s);
    }

    /** Queuing the reply leaves the table alone. */
    method Reply(client: Client, ghost s: nat, rnd: nat)
      requires Wired() && s < |connections| && client == connections[s] && rnd < 0x8000
      requires client.Valid()
      modifies client`todc, client`sendQueue, client`enqueued, client.outbuf, client.outbuf.buffer
      ensures client.Valid() && State() == old(State())
      ensures client.enqueued == old(client.enqueued) +
              (if client.ClientSocket >= 0 then Emitted(AuthReply(rnd)) else [])
      ensures ValueOf(client) == Schedules.Answered(old(ValueOf(client)), AuthReply(rnd))
    {
      hide Client.Receiving, Client.Sending, Emitted, EntriesOf, AuthReply, Wired, Views, Outboxes;
      client.SendingHasLayout();
      ghost var slots := Slots();
      assert old(client.enqueued) + [] == old(client.enqueued);
      AuthReplyIsSendable(rnd);
      Schedules.AnswerAuth(client, rnd);
      assert Slots() == slots;
    }

    /**
     * The broadcast sends one packet object over and over. Every open slot gains exactly one
     * frame, the same for all; the precondition is what keeps the last send from looping.
     */
    method SendToAll(src: ServerPacket)
      requires Distinct() && src.Valid() && src.pOffset == src.pSize
      requires forall i :: 0 <= i < |connections| ==> connections[i].Sending()
      requires forall i :: 0 <= i < |connections| ==>
                             src.buffer != connections[i].rcvbuf && src.buffer != connections[i].sndbuf
      requires Room(src.Img(), CountOpen(Slots()))
      modifies connections`todc, connections`sendQueue, connections`enqueued, src, src.buffer
      ensures src.Valid() && src.Img() == AfterSends(old(src.Img()), old(CountOpen(Slots())))
      ensures forall i :: 0 <= i < |connections| ==> connections[i].Sending()
      ensures forall i :: 0 <= i < |connections| ==>
                            connections[i].Box() == if connections[i].ClientSocket >= 0
                                                    then Gain(old(connections[i].Box()), old(src.Img()))
                                                    else old(connections[i].Box())
    {
      hide Client.Sending, Views, Outboxes, Wired;
      ghost var im, slots, boxes := src.Img(), Slots(), Boxes();
      SendLoop(src, im, slots, boxes);
      TurnsGain(im, boxes, slots, |connections|);
      TurnsSend(im, boxes, slots, |connections|);
      assert slots[..|connections|] == slots;
    }

    method SendLoop(src: ServerPacket, ghost im: Image, ghost slots: seq<Session>, ghost boxes: seq<Outbox>)
      requires Distinct() && src.Valid() && src.Img() == im && Slots() == slots && Boxes() == boxes
      requires im.off == im.size && Room(im, CountOpen(slots))
      requires forall i :: 0 <= i < |connections| ==> connections[i].Sending()
      requires forall i :: 0 <= i < |connections| ==>
                             src.buffer != connections[i].rcvbuf && src.buffer != connections[i].sndbuf
      modifies connections`todc, connections`sendQueue, connections`enqueued, src, src.buffer
      ensures src.Valid() && src.Img() == Turns(im, boxes, slots, |connections|).cur
      ensures Boxes() == Turns(im, boxes, slots, |connections|).boxes
      ensures forall i :: 0 <= i < |connections| ==> connections[i].Sending()
    {
      hide Client.Sending, Views, Outboxes, Wired;
      for i := 0 to |connections|
        invariant src.Img() == Turns(im, boxes, slots, i).cur && Boxes() == Turns(im, boxes, slots, i).boxes
        invariant forall j :: 0 <= j < |connections| ==> connections[j].Sending()
      {
        SendTurn(connections[i], i, src, im, slots, boxes);
      }
    }

    method SendTurn(c: Client, ghost i: nat, src: ServerPacket,
                    ghost im: Image, ghost slots: seq<Session>, ghost boxes: seq<Outbox>)
      requires Distinct() && i < |connections| == |slots| == |boxes| && c == connections[i]
      requires Open(slots[i]) == (c.ClientSocket >= 0)
      requires Sound(im) && im.off == im.size && Room(im, CountOpen(slots))
      requires src.buffer.Length == BUFFER_SIZE && src.Img() == Turns(im, boxes, slots, i).cur
      requires Boxes() == Turns(im, boxes, slots, i).boxes
      requires forall j :: 0 <= j < |connections| ==> connections[j].Sending()
      requires forall j :: 0 <= j < |connections| ==>
                             src.buffer != connections[j].rcvbuf && src.buffer != connections[j].sndbuf
      modifies c`todc, c`sendQueue, c`enqueued, src, src.buffer
      ensures src.Img() == Turns(im, boxes, slots, i + 1).cur
      ensures Boxes() == Turns(im, boxes, slots, i + 1).boxes
      ensures forall j :: 0 <= j < |connections| ==> connections[j].Sending()
    {
      hide Views, Outboxes, Wired;
      if c.ClientSocket >= 0 {
        TurnFits(im, boxes, slots, i);
        SendTo(c, i, src);
      }
    }

    /** One send on one slot leaves all the others alone. */
    method SendTo(c: Client, ghost i: nat, src: ServerPacket)
      requires Distinct() && i < |connections| && c == connections[i] && c.ClientSocket >= 0
      requires forall j :: 0 <= j < |connections| ==> connections[j].Sending()
      requires forall j :: 0 <= j < |connections| ==>
                             src.buffer != connections[j].rcvbuf && src.buffer != connections[j].sndbuf
      requires src.Valid() && (Sendable(src.pSize) ==> PadFits(src.pOffset, src.pSize - 2))
      modifies c`todc, c`sendQueue, c`enqueued, src, src.buffer
      ensures src.Valid() && src.Img() == AfterSend(old(src.Img()))
      ensures forall j :: 0 <= j < |connections| ==> connections[j].Sending()
      ensures Boxes() == old(Boxes())[i := Gain(old(Boxes())[i], old(src.Img()))]
    {
      hide Gain, AfterSend, PadFits, Client.Sending, Views, Outboxes;
      c.Send(src);
    }

    // ---------------------------------------------------------------- one turn of the server loop

    /** The send half of one turn on a slot. */
    method ServeSend(c: Client, ghost s: nat, outcome: Servers.SendOutcome) returns (ghost events: seq<Event>)
      requires Wired() && s < |connections| && c == connections[s] && c.ClientSocket >= 0
      requires c.Sending()
      modifies c`snddata, c`sendQueue, c`wire, c`todc, c.sndbuf
      ensures Wired() && c.Sending() && State() == Final(old(State()), events)
      ensures HandlerRuns(Log(old(State()), events)) == []
      ensures (c.todc, Schedules.OutwardOf(c)) == Schedules.Flushed(old(c.todc), old(Schedules.OutwardOf(c)), outcome)
    {
      hide Client.Sending, Final, Log, HandlerRuns, Views, Outboxes, Wired, Schedules.Flushed;
      c.SendingHasLayout();
      ghost var before := State();
      Schedules.FlushedMarks(c.todc, Schedules.OutwardOf(c), outcome);
      Schedules.Transfer(c, outcome);
      events := Drops(s, c.todc);
      DropsMark(before, s, c.todc);
      assert Slots() == before.slots[s := before.slots[s].(todc := c.todc)];
    }

    /** The packet in the packet buffer of slot `s` as an event. */
    ghost function PacketEvent(c: Client, s: nat): Event
      requires c.inbuf.buffer.Length == BUFFER_SIZE
      reads c.inbuf.buffer
    {
      var bytes := c.inbuf.buffer[..];
      if Word(bytes, 0) > BUFFER_SIZE then Drop(s)
      else Packet(s, Word(bytes, 2), Word(bytes, 4), Word(bytes, 0), bytes[6..22])
    }

    /** `Recv` on slot `s`, with a disconnect when it fails. */
    method RecvOn(c: Client, ghost s: nat, outcome: Servers.RecvOutcome) returns (verdict: Verdict)
      requires Wired() && s < |connections| && c == connections[s]
      requires c.Receiving() && c.inbuf.Valid()
      modifies c`rcvread, c`packetsize, c`hassize, c`received, c`consumed, c`todc, c.rcvbuf, c.inbuf, c.inbuf.buffer
      ensures Wired() && c.Receiving() && c.inbuf.Valid()
      ensures State() == old(State()).(slots := old(Slots())[s := old(c.View()).(todc := c.todc)])
      ensures verdict == Ignored ==> old(c.todc) ==> c.todc
      ensures verdict != Ignored ==>
                && verdict == Servers.Judge(c.inbuf.buffer[..], old(c.View()))
                && c.inbuf.pSize == Word(c.inbuf.buffer[..], 0)
                && c.todc == (old(c.todc) || verdict == Refused)
      ensures (c.todc, Schedules.InwardOf(c), verdict)
           == Schedules.Fed(old(c.View()), old(Schedules.InwardOf(c)), outcome)
    {
      hide Client.Receiving, Schedules.Fed, Servers.Judge, Views, Outboxes, Wired;
      c.ReceivingHasLayout();
      ghost var slots, inward := Slots(), Schedules.InwardOf(c);
      Schedules.FedVerdict(c.View(), inward, outcome);
      verdict := Schedules.Receive(c, outcome);
      assert Slots() == slots[s := slots[s].(todc := c.todc)];
    }

    /** The receive half of one turn, up to the gate, and the event it amounts to. */
    method ServeRecv(c: Client, ghost s: nat, outcome: Servers.RecvOutcome)
      returns (verdict: Verdict, ghost event: seq<Event>)
      requires Wired() && s < |connections| && c == connections[s] && c.ClientSocket >= 0
      requires c.Receiving() && c.inbuf.Valid()
      modifies c`rcvread, c`packetsize, c`hassize, c`received, c`consumed, c`todc, c.rcvbuf, c.inbuf, c.inbuf.buffer
      ensures Wired() && c.Receiving() && c.inbuf.Valid()
      ensures Handles(verdict) ==>
                && State() == old(State()) && event == [PacketEvent(c, s)] && event[0].Packet?
                && Gate(c.View(), event[0].ty, event[0].size) == verdict
                && c.inbuf.pSize == event[0].size
      ensures !Handles(verdict) ==>
                State() == Final(old(State()), event) && HandlerRuns(Log(old(State()), event)) == []
      ensures (c.todc, Schedules.InwardOf(c), verdict)
           == Schedules.Fed(old(c.View()), old(Schedules.InwardOf(c)), outcome)
    {
      hide Client.Receiving, Schedules.Fed, Final, Log, HandlerRuns, Views, Outboxes, Wired;
      ghost var before := State();
      verdict := RecvOn(c, s, outcome);
      if verdict == Ignored {
        event := Drops(s, c.todc);
        DropsMark(before, s, c.todc);
      } else {
        event := [PacketEvent(c, s)];
        assert before.slots[s := before.slots[s]] == before.slots;
        if verdict == Refused {
          MarkingEvents(before, s, event[0]);
        }
      }
    }

    /** Both halves on one slot, up to the handler: what they may change is the slot's alone. */
    method ServeIo(c: Client, ghost s: nat, io: Io)
      returns (verdict: Verdict, ghost events: seq<Event>, ghost packet: seq<Event>)
      requires Wired() && s < |connections| && c == connections[s] && c.ClientSocket >= 0 && c.Valid()
      modifies c`snddata, c`sendQueue, c`wire, c`todc, c.sndbuf
      modifies c`rcvread, c`packetsize, c`hassize, c`received, c`consumed, c.rcvbuf, c.inbuf, c.inbuf.buffer
      ensures Wired() && c.Valid() && c.inbuf.Valid() && State() == Final(old(State()), events)
      ensures HandlerRuns(Log(old(State()), events)) == []
      ensures OpenCount(connections) == old(OpenCount(connections))
      ensures |packet| == (if Handles(verdict) then 1 else 0)
      ensures Handles(verdict) ==>
                && packet == [PacketEvent(c, s)] && packet[0].Packet? && c.inbuf.pSize == packet[0].size
                && Gate(c.View(), packet[0].ty, packet[0].size) == verdict
      ensures (ValueOf(c), verdict) == Transported(old(ValueOf(c)), io)
    {
      hide OpenCount, Client.Receiving, Client.Sending, Final, Log, HandlerRuns, Gate, State, Slots, Wired;
      hide Schedules.Effect, ValueOf;
      c.SendingHasLayout();
      ghost var before, v := State(), ValueOf(c);
      events := [];
      OneEvent(before, Drop(s));
      NoRuns();
      if io.writable {
        events := ServeSendValue(c, s, io.toSend);
      }
      ghost var event;
      verdict, event := ServeRecvValue(c, s, io.toRecv);
      if Handles(verdict) {
        packet := event;
      } else {
        packet := [];
        RunsConcat(before, events, event);
        events := events + event;
      }
    }

    method ServeSendValue(c: Client, ghost s: nat, outcome: Servers.SendOutcome) returns (ghost events: seq<Event>)
      requires Wired() && s < |connections| && c == connections[s] && c.ClientSocket >= 0 && c.Valid()
      modifies c`snddata, c`sendQueue, c`wire, c`todc, c.sndbuf
      ensures Wired() && c.Valid() && State() == Final(old(State()), events)
      ensures HandlerRuns(Log(old(State()), events)) == []
      ensures ValueOf(c) == Schedules.Effect(old(ValueOf(c)), Schedules.Flush(outcome)).0
    {
      hide Client.Receiving, Client.Sending, Final, Log, HandlerRuns, State, Slots, Wired, Schedules.Flushed;
      c.ReceivingHasLayout();
      events := ServeSend(c, s, outcome);
    }

    method ServeRecvValue(c: Client, ghost s: nat, outcome: Servers.RecvOutcome)
      returns (verdict: Verdict, ghost event: seq<Event>)
      requires Wired() && s < |connections| && c == connections[s] && c.ClientSocket >= 0 && c.Valid()
      modifies c`rcvread, c`packetsize, c`hassize, c`received, c`consumed, c`todc, c.rcvbuf, c.inbuf, c.inbuf.buffer
      ensures Wired() && c.Valid()
      ensures Handles(verdict) ==>
                && State() == old(State()) && event == [PacketEvent(c, s)] && event[0].Packet?
                && Gate(c.View(), event[0].ty, event[0].size) == verdict
                && c.inbuf.pSize == event[0].size
      ensures !Handles(verdict) ==>
                State() == Final(old(State()), event) && HandlerRuns(Log(old(State()), event)) == []
      ensures (ValueOf(c), [verdict]) == Schedules.Effect(old(ValueOf(c)), Schedules.Feed(outcome))
    {
      hide Client.Receiving, Client.Sending, Final, Log, HandlerRuns, State, Slots, Wired, Schedules.Fed, Gate;
      hide PacketEvent, Schedules.Peer;
      c.ReceivingHasLayout();
      Schedules.FeedIsAnonymous(c.View(), ValueOf(c), outcome);
      verdict, event := ServeRecv(c, s, outcome);
    }

    /** The chat handler: every open slot's queue gains one frame that carries the message. */
    method Relay(c: Client, ghost s: nat) returns (sent: bool)
      requires Wired() && Separate() && AllValid(connections) && s < |connections| && c == connections[s]
      requires AllIdle(Others(s))
      requires |connections| < MAX_SLOTS
      modifies c.inbuf, c.outbuf, c.outbuf.buffer
      modifies connections`todc, connections`sendQueue, connections`enqueued
      ensures AllIdle(Others(s))
      ensures Wired() && AllValid(connections) && State() == old(State())
      ensures c.inbuf.buffer[..] == old(c.inbuf.buffer[..])
      ensures sent <==> Word(c.inbuf.buffer[..], 4) < 3
      ensures !sent ==> Boxes() == old(Boxes())
      ensures sent ==>
                exists f: seq<Byte> :: Chat.Carries(f, c.inbuf.Img(), Word(c.inbuf.buffer[..], 4))
                                       && forall i :: 0 <= i < |connections| ==>
                                                        GainsFrame(old(Boxes()[i]), connections[i], f)
      ensures Values() == RelayedBy(old(Values()), s)
    {
      hide AllValid, AllIdle, Separate, PartsOf, Wired, Views, Outboxes;
      hide Chat.Relayed, Chat.Carries, Chat.ReadMessage, Emitted, Contents, Values, Spoken;
      SlotOwns(s);
      SlotShows(s);
      ghost var boxes, slots := Boxes(), Values();
      sent := Rebuild(c, s);
      if sent {
        ghost var src, subtype := c.inbuf.Img(), Word(c.inbuf.buffer[..], 4);
        ghost var f := Broadcast(c, s, src, subtype);
        SpokenAfter(slots, s, Chat.Relayed(Chat.ReadMessage(src.bytes, subtype)));
        assert Chat.Carries(f, src, subtype) && src == c.inbuf.Img() && boxes == old(Boxes());
      }
    }

    /** Decoding and rebuilding a message touches the packets of slot `s` only. */
    method Rebuild(c: Client, ghost s: nat) returns (sent: bool)
      requires Wired() && Separate() && AllValid(connections) && s < |connections| && c == connections[s]
      requires AllIdle(Others(s))
      modifies c.inbuf, c.outbuf, c.outbuf.buffer
      ensures AllIdle(Others(s))
      ensures Wired() && AllValid(connections) && State() == old(State()) && Boxes() == old(Boxes())
      ensures c.inbuf.Valid() && c.outbuf.Valid() && c.inbuf.buffer[..] == old(c.inbuf.buffer[..])
      ensures sent <==> Word(c.inbuf.buffer[..], 4) < 3
      ensures sent ==> c.outbuf.Img() == Chat.Relayed(Chat.ReadMessage(c.inbuf.buffer[..], Word(c.inbuf.buffer[..], 4)))
      ensures Values() == if sent then old(Values())[s := old(Values())[s].(reply := c.outbuf.Img())] else old(Values())
    {
      hide *;
      ghost var before, others, v := Values(), ValuesOf(Others(s)), ValueOf(c);
      SlotIsApart(s);
      SplitValues(s);
      SplitValid(s);
      sent := RebuildSlot(c);
      SplitValid(s);
      SplitValues(s);
      OneChanged(before, Values(), others, s);
    }

    /** The broadcast of a relayed message, which is small, reaches every open slot and marks none. */
    method Broadcast(c: Client, ghost s: nat, ghost src: Image, ghost subtype: nat) returns (ghost f: seq<Byte>)
      requires Wired() && Separate() && AllValid(connections) && s < |connections| && c == connections[s]
      requires AllIdle(Others(s))
      requires |connections| < MAX_SLOTS && Sound(src) && subtype < 3
      requires c.outbuf.Valid() && c.outbuf.Img() == Chat.Relayed(Chat.ReadMessage(src.bytes, subtype))
      modifies c.outbuf, c.outbuf.buffer
      modifies connections`todc, connections`sendQueue, connections`enqueued
      ensures AllIdle(Others(s))
      ensures Wired() && AllValid(connections) && State() == old(State())
      ensures Chat.Carries(f, src, subtype)
      ensures forall i :: 0 <= i < |connections| ==> GainsFrame(old(Boxes()[i]), connections[i], f)
      ensures Values() == Spoken(old(Values()), s, old(c.outbuf.Img()))
    {
      hide AllReceiving, AllSending, AllIdle, Separate, PartsOf, Wired, Views, Outboxes;
      hide Chat.Relayed, Chat.Carries, Chat.ReadMessage, Emitted, EntriesOf, Contents, CountOpen, Values, Spoken;
      ghost var im, boxes := c.outbuf.Img(), Boxes();
      Chat.RelayCarries(src, subtype);
      CountIsCardinality(Slots());
      Speak(c, s);
      f := Emitted(im)[0];
      forall i | 0 <= i < |connections| ensures GainsFrame(boxes[i], connections[i], f) {
        Schedules.EntriesHoldFrames(boxes[i].queue, im);
      }
    }

    /** Broadcasting the reply packet of slot `s` changes only queues, or only marks if it is too long. */
    method SendOwn(c: Client, ghost s: nat)
      requires Wired() && Separate() && AllValid(connections) && s < |connections| && c == connections[s]
      requires AllIdle(Others(s))
      requires c.outbuf.pOffset == c.outbuf.pSize && c.outbuf.Valid()
      requires Room(c.outbuf.Img(), CountOpen(Slots()))
      modifies c.outbuf, c.outbuf.buffer
      modifies connections`todc, connections`sendQueue, connections`enqueued
      ensures AllIdle(Others(s))
      ensures Wired() && AllValid(connections) && State() == Marking(old(State()), old(c.outbuf.pSize) > MAX_PACKET)
      ensures forall i :: 0 <= i < |connections| ==>
                            connections[i].Box() == if connections[i].ClientSocket >= 0
                                                    then Gain(old(connections[i].Box()), old(c.outbuf.Img()))
                                                    else old(connections[i].Box())
      ensures c.outbuf.Img() == AfterSends(old(c.outbuf.Img()), old(CountOpen(Slots())))
    {
      hide AllReceiving, AllSending, Separate, PartsOf, Wired, State, Slots, Gain, Room, CountOpen;
      hide Client.Receiving, Client.Sending, ServerPacket.Valid;
      ghost var others := Others(s);
      SlotIsApart(s);
      SlotsAreNoParts(s);
      PartsAreInside(others);
      SendReplyPacket(c, s);
      forall i | 0 <= i < |others| && others[i].ClientSocket < 0 ensures others[i].Unused() {
        assert others[i] == connections[if i < s then i else i + 1];
        assert others[i].Box() == old(others[i].Box());
      }
    }

    method SendReplyPacket(c: Client, ghost s: nat)
      requires Wired() && Separate() && AllValid(connections) && s < |connections| && c == connections[s]
      requires c.outbuf.pOffset == c.outbuf.pSize && c.outbuf.Valid()
      requires Room(c.outbuf.Img(), CountOpen(Slots()))
      modifies c.outbuf, c.outbuf.buffer
      modifies connections`todc, connections`sendQueue, connections`enqueued
      ensures Wired() && AllValid(connections) && State() == Marking(old(State()), old(c.outbuf.pSize) > MAX_PACKET)
      ensures forall i :: 0 <= i < |connections| ==>
                            connections[i].Box() == if connections[i].ClientSocket >= 0
                                                    then Gain(old(connections[i].Box()), old(c.outbuf.Img()))
                                                    else old(connections[i].Box())
      ensures c.outbuf.Img() == AfterSends(old(c.outbuf.Img()), old(CountOpen(Slots())))
    {
      hide AllReceiving, AllSending, Separate, PartsOf, Wired, State, Slots, Gain, Room, CountOpen;
      hide Client.Receiving, ServerPacket.Valid;
      SlotOwns(s);
      OutbufIsApart(s);
      SlotIsApart(s);
      SlotsAreNoParts(s);
      SplitReceiving(s);
      SendFrom(c.outbuf);
      SplitReceiving(s);
    }

    /** Broadcasting a packet marks no slot, or every open one if it is too long. */
    method SendFrom(src: ServerPacket)
      requires Wired() && AllSending(connections) && src.Valid() && src.pOffset == src.pSize
      requires forall i :: 0 <= i < |connections| ==>
                             src.buffer != connections[i].rcvbuf && src.buffer != connections[i].sndbuf
      requires Room(src.Img(), CountOpen(Slots()))
      modifies connections`todc, connections`sendQueue, connections`enqueued, src, src.buffer
      ensures Wired() && AllSending(connections) && src.Valid()
      ensures src.Img() == AfterSends(old(src.Img()), old(CountOpen(Slots())))
      ensures State() == Marking(old(State()), old(src.pSize) > MAX_PACKET)
      ensures forall i :: 0 <= i < |connections| ==>
                            connections[i].Box() == if connections[i].ClientSocket >= 0
                                                    then Gain(old(connections[i].Box()), old(src.Img()))
                                                    else old(connections[i].Box())
    {
      hide PartsOf, Wired, Views, Outboxes, Client.Sending, Room, Emitted, EntriesOf, ServerPacket.Valid, CountOpen;
      ghost var h, big := State(), src.pSize > MAX_PACKET;
      SendToAll(src);
      assert Slots() == Marking(h, big).slots;
    }

    lemma OutbufIsApart(s: nat)
      requires Separate() && s < |connections|
      ensures forall i :: 0 <= i < |connections| ==>
                            && connections[s].outbuf.buffer != connections[i].rcvbuf
                            && connections[s].outbuf.buffer != connections[i].sndbuf
                            && connections[s].outbuf.buffer != connections[i].inbuf.buffer
                            && (i != s ==> connections[s].outbuf != connections[i].outbuf)
                            && (i != s ==> connections[s].outbuf.buffer != connections[i].outbuf.buffer)
    {
      var c, others := connections[s], Others(s);
      SlotIsApart(s);
      SlotOwns(s);
      forall i | 0 <= i < |connections| && i != s
        ensures c.outbuf.buffer !in connections[i].Parts() && c.outbuf !in connections[i].Parts()
      {
        assert others[if i < s then i else i - 1] == connections[i];
        assert connections[i].Parts() <= PartsOf(others);
      }
    }

    lemma TransportIsApart(s: nat)
      requires Separate() && s < |connections|
      ensures connections[s].outbuf !in TransportParts(connections) && allocated(TransportParts(connections))
      ensures connections[s].outbuf.buffer !in TransportParts(connections)
      ensures forall o :: o in connections ==> o !in TransportParts(connections)
    {
      hide Separate, PartsOf;
      OutbufIsApart(s);
      PartsAreOutside();
      TransportIsPart(connections);
    }

    /** The broadcast on values. */
    method Speak(c: Client, ghost s: nat)
      requires Wired() && Separate() && AllValid(connections) && s < |connections| && c == connections[s]
      requires AllIdle(Others(s))
      requires c.outbuf.pOffset == c.outbuf.pSize && c.outbuf.Valid()
      requires Room(c.outbuf.Img(), CountOpen(Slots()))
      modifies c.outbuf, c.outbuf.buffer
      modifies connections`todc, connections`sendQueue, connections`enqueued
      ensures AllIdle(Others(s))
      ensures Wired() && AllValid(connections) && State() == Marking(old(State()), old(c.outbuf.pSize) > MAX_PACKET)
      ensures forall i :: 0 <= i < |connections| ==>
                            connections[i].Box() == if connections[i].ClientSocket >= 0
                                                    then Gain(old(connections[i].Box()), old(c.outbuf.Img()))
                                                    else old(connections[i].Box())
      ensures Values() == Spoken(old(Values()), s, old(c.outbuf.Img()))
    {
      hide AllValid, AllIdle, Separate, PartsOf, Wired, State, Slots, Gain, Room, CountOpen, AfterSends, Marking;
      hide RestsOf, RepliesOf, Values, Boxes, ServerPacket.Valid, Schedules.Answered;
      ghost var before, im, boxes := Values(), c.outbuf.Img(), Boxes();
      ghost var rests, replies := RestsOf(connections), RepliesOf(Others(s));
      EveryValue(s);
      OpenSlotsAre();
      SendFramed(c, s);
      EveryValue(s);
      SpokenIs(before, Values(), s, im, rests, boxes, Boxes(), replies);
    }

    /** A broadcast leaves everything else of the slots alone. */
    method SendFramed(c: Client, ghost s: nat)
      requires Wired() && Separate() && AllValid(connections) && s < |connections| && c == connections[s]
      requires AllIdle(Others(s))
      requires c.outbuf.pOffset == c.outbuf.pSize && c.outbuf.Valid()
      requires Room(c.outbuf.Img(), CountOpen(Slots()))
      modifies c.outbuf, c.outbuf.buffer
      modifies connections`todc, connections`sendQueue, connections`enqueued
      ensures AllIdle(Others(s))
      ensures Wired() && AllValid(connections) && State() == Marking(old(State()), old(c.outbuf.pSize) > MAX_PACKET)
      ensures forall i :: 0 <= i < |connections| ==>
                            connections[i].Box() == if connections[i].ClientSocket >= 0
                                                    then Gain(old(connections[i].Box()), old(c.outbuf.Img()))
                                                    else old(connections[i].Box())
      ensures c.outbuf.Img() == AfterSends(old(c.outbuf.Img()), old(CountOpen(Slots())))
      ensures RestsOf(connections) == old(RestsOf(connections)) && RepliesOf(Others(s)) == old(RepliesOf(Others(s)))
    {
      hide *;
      TransportIsApart(s);
      SlotIsApart(s);
      SlotsAreNoParts(s);
      SendOwn(c, s);
    }

    /** What the values of the slots consist of. */
    lemma EveryValue(s: nat)
      requires AllValid(connections) && s < |connections|
      ensures Values()[s].reply == connections[s].outbuf.Img()
      ensures forall i :: 0 <= i < |connections| ==>
                            && Values()[i] == Assembled(RestsOf(connections)[i], Boxes()[i], Values()[i].reply)
                            && Open(RestsOf(connections)[i].peer) == (connections[i].ClientSocket >= 0)
      ensures forall i :: 0 <= i < |connections| && i != s ==>
                            Values()[i].reply == RepliesOf(Others(s))[if i < s then i else i - 1]
    {
      hide Client.Valid, ValueOf, Assembled, RestOf, Boxes, RestsOf, RepliesOf, Values;
      RestsAre(connections);
      RepliesAre(Others(s));
      BoxesAre();
      forall i | 0 <= i < |connections|
        ensures Values()[i] == Assembled(RestOf(connections[i]), connections[i].Box(), Values()[i].reply)
        ensures Open(RestOf(connections[i]).peer) == (connections[i].ClientSocket >= 0)
        ensures Values()[i].reply == connections[i].outbuf.Img()
      {
        SplitValid(i);
        SplitValues(i);
        ValueIsAssembled(connections[i]);
      }
      var others := Others(s);
      assert forall i :: 0 <= i < |connections| && i != s ==> connections[i] == others[if i < s then i else i - 1];
    }

    lemma BoxesAre()
      ensures forall i :: 0 <= i < |connections| ==> Boxes()[i] == connections[i].Box()
    {
    }

    lemma OpenSlotsAre()
      requires Wired() && AllValid(connections)
      ensures OpenSlots(Values()) == CountOpen(Slots()) == OpenCount(connections)
    {
      ViewsAreSlots();
      SameOpenCount(ViewsOf(Values()), Slots());
      OpenCountIs();
    }

    /** The handshake handler keeps every slot sound. */
    method Shake(c: Client, ghost s: nat, rnd: nat)
      requires Wired() && Separate() && AllValid(connections) && s < |connections| && c == connections[s]
      requires AllIdle(Others(s))
      requires rnd < 0x8000 && c.inbuf.pSize == Word(c.inbuf.buffer[..], 0)
      modifies c`todc, c`isAuth, c`iv, c`key, c`sendQueue, c`enqueued, c.outbuf, c.outbuf.buffer
      ensures Wired() && AllValid(connections)
      ensures State() == Handshake(old(State()), s, c.inbuf.pSize, c.inbuf.buffer[6..22])
      ensures Values() == old(Values())[s := Greeted(old(Values())[s], old(Values()), serverKeys, rnd)]
      ensures AllIdle(Others(s))
    {
      hide AllValid, AllIdle, Others, Separate, PartsOf, Wired, Views, Outboxes, State, Slots, Handshake, Values;
      hide Greeted, ValueOf, Schedules.Effect;
      ghost var before, h := Values(), State();
      ViewsAreSlots();
      SlotShows(s);
      SlotOwns(s);
      ghost var bytes := c.inbuf.buffer[..];
      assert bytes[6..22] == c.inbuf.buffer[6..22];
      ghost var seen := ShakeAlone(c, s, rnd);
      GreetedIs(before[s], before, h, s, rnd, Values()[s], seen);
    }

    method ShakeAlone(c: Client, ghost s: nat, rnd: nat) returns (ghost seen: Session)
      requires Wired() && Separate() && AllValid(connections) && s < |connections| && c == connections[s]
      requires AllIdle(Others(s))
      requires rnd < 0x8000
      modifies c`todc, c`isAuth, c`iv, c`key, c`sendQueue, c`enqueued, c.outbuf, c.outbuf.buffer
      ensures Wired() && AllValid(connections)
      ensures State() == Handshake(old(State()), s, c.inbuf.pSize, c.inbuf.buffer[6..22]) && seen == State().slots[s]
      ensures var v := old(Values())[s];
              Values() == old(Values())[
                s := if seen.auth && !v.view.auth then Schedules.Effect(v, Schedules.Admit(seen.pair, rnd)).0
                     else v.(view := v.view.(todc := seen.todc))]
      ensures AllIdle(Others(s))
    {
      hide *;
      ghost var before, others := Values(), ValuesOf(Others(s));
      SlotIsApart(s);
      SplitValid(s);
      SplitValues(s);
      SlotShows(s);
      ShakeSlot(c, s, rnd);
      SplitValid(s);
      SplitValues(s);
      OneChanged(before, Values(), others, s);
      ViewsAreSlots();
      seen := State().slots[s];
    }

    method ShakeSlot(c: Client, ghost s: nat, rnd: nat)
      requires Wired() && s < |connections| && c == connections[s] && c.Valid() && rnd < 0x8000
      modifies c`todc, c`isAuth, c`iv, c`key, c`sendQueue, c`enqueued, c.outbuf, c.outbuf.buffer
      ensures Wired() && c.Valid()
      ensures State() == Handshake(old(State()), s, c.inbuf.pSize, c.inbuf.buffer[6..22])
      ensures ValueOf(c) == if c.isAuth && !old(c.isAuth)
                            then Schedules.Effect(old(ValueOf(c)), Schedules.Admit(Pair(c.iv, c.key), rnd)).0
                            else old(ValueOf(c)).(view := old(ValueOf(c)).view.(todc := c.todc))
    {
      hide Wired, Views, Outboxes, Handshake, Emitted, AuthReply, Client.Receiving, Client.Sending;
      c.SendingHasLayout();
      ServerAuth(c, s, rnd);
    }

    lemma SlotShows(s: nat)
      requires AllValid(connections) && s < |connections|
      ensures var c, v := connections[s], Values()[s];
              && v == ValueOf(c)
              && v.inward.shown == c.inbuf.buffer[..] && v.reply == c.outbuf.Img()
              && v.inward.consumed == c.consumed && v.outward.enqueued == c.enqueued && v.outward.wire == c.wire
              && c.rcvread <= c.rcvbuf.Length && v.inward.pending == c.Pending()
              && c.snddata <= c.sndbuf.Length && v.outward.unsent == c.Unsent()
              && v.outward.queue == Contents(c.sendQueue)
              && v.lastHeartBeat == c.lastHeartBeat && c.inbuf.buffer.Length == BUFFER_SIZE
              && v.view.auth == c.isAuth && v.view.todc == c.todc && Open(v.view) == (c.ClientSocket >= 0)
    {
      hide Client.Receiving, Client.Sending;
      SplitValid(s);
      connections[s].ReceivingHasLayout();
      connections[s].SendingHasLayout();
    }

    /** The table sees of a slot what its value shows, but for the number of the socket. */
    lemma ViewsAreSlots()
      requires Wired() && AllValid(connections)
      ensures State().keys == serverKeys
      ensures forall i :: 0 <= i < |connections| ==>
                            && State().slots[i] == connections[i].View() == Session(
                                 connections[i].ClientSocket, connections[i].todc, connections[i].isAuth,
                                 Pair(connections[i].iv, connections[i].key))
                            && ViewsOf(Values())[i] ==
                               State().slots[i].(socket := if Open(State().slots[i]) then 0 else -1)
    {
    }

    /** A reply to the client itself: nothing but this slot's outbox, its mark and its reply packet change. */
    method Answer(c: Client, ghost s: nat, act: Act, calls: seq<Call>) returns (hung: bool, ghost marks: seq<Event>)
      requires Wired() && Separate() && AllValid(connections) && s < |connections| && c == connections[s]
      requires c.ClientSocket >= 0 && (act.Builds? || (act == Repeats && c.isAuth))
      modifies c`todc, c`sendQueue, c`enqueued, c.outbuf, c.outbuf.buffer
      ensures Wired() && AllValid(connections) && State() == Final(old(State()), marks)
      ensures HandlerRuns(Log(old(State()), marks)) == []
      ensures hung == Hangs(act, old(c.outbuf.Img()), calls, 0)
      ensures Values() == if hung then old(Values())
                          else old(Values())[s := Schedules.Effect(old(Values())[s], OpOf(act, calls)).0]
    {
      hide *;
      ghost var before, others := Values(), ValuesOf(Others(s));
      SlotIsApart(s);
      SplitValid(s);
      SplitValues(s);
      hung, marks := AnswerSlot(c, s, act, calls);
      SplitValid(s);
      SplitValues(s);
      OneChanged(before, Values(), others, s);
    }

    method AnswerSlot(c: Client, ghost s: nat, act: Act, calls: seq<Call>) returns (hung: bool, ghost marks: seq<Event>)
      requires Wired() && s < |connections| && c == connections[s] && c.Valid() && c.ClientSocket >= 0
      requires act.Builds? || (act == Repeats && c.isAuth)
      modifies c`todc, c`sendQueue, c`enqueued, c.outbuf, c.outbuf.buffer
      ensures Wired() && c.Valid() && State() == Final(old(State()), marks)
      ensures HandlerRuns(Log(old(State()), marks)) == []
      ensures hung == Hangs(act, old(c.outbuf.Img()), calls, 0)
      ensures ValueOf(c) == if hung then old(ValueOf(c))
                            else Schedules.Effect(old(ValueOf(c)), OpOf(act, calls)).0
    {
      hide Wired, Views, Outboxes, Hangs, Final, Log, HandlerRuns, Client.Valid, ValueOf, Schedules.Effect;
      ghost var before := State();
      hung := SendAnswer(c, act, calls);
      marks := Drops(s, c.todc);
      DropsMark(before, s, c.todc);
      assert Slots() == before.slots[s := before.slots[s].(todc := c.todc)];
    }

    /** A reply to everybody: all outboxes change, and a reply that is too long marks every open slot. */
    method Spread(c: Client, ghost s: nat, ty: nat, subtype: nat, calls: seq<Call>)
      returns (hung: bool, ghost marks: seq<Event>)
      requires Wired() && Separate() && AllValid(connections) && s < |connections| && c == connections[s]
      requires AllIdle(Others(s))
      modifies c.outbuf, c.outbuf.buffer
      modifies connections`todc, connections`sendQueue, connections`enqueued
      ensures Wired() && AllValid(connections) && AllIdle(Others(s)) && State() == Final(old(State()), marks)
      ensures HandlerRuns(Log(old(State()), marks)) == []
      ensures hung == !Room(Schedules.Made(ty, subtype, calls), old(OpenCount(connections)))
      ensures Values() == if hung then old(Values())[s := Stuck(old(Values())[s], Spreads(ty, subtype), calls)]
                          else Spoken(old(Values()), s, Schedules.Made(ty, subtype, calls))
    {
      hide AllValid, AllIdle, Separate, PartsOf, Wired, Views, Outboxes, Slots, State, Final, Log, HandlerRuns;
      hide Schedules.Made, CountOpen, Values, Spoken;
      ghost var before, slots, im := State(), Values(), Schedules.Made(ty, subtype, calls);
      PartsAreOutside();
      SlotIsApart(s);
      BuildReply(c, s, ty, subtype, calls);
      var open := CountConnections();
      OpenCountIs();
      Reuse.MadeInLockstep(ty, subtype, calls);
      MarkingIsDrops(before, false);
      hung := Sendable(c.outbuf.pSize) && PadTo(c.outbuf.pSize - 2) + 2 * open >= BUFFER_SIZE;
      marks := [];
      if !hung {
        ghost var big := c.outbuf.pSize > MAX_PACKET;
        Speak(c, s);
        SpokenAfter(slots, s, im);
        MarkingIsDrops(before, big);
        marks := if big then DropAll(|before.slots|) else [];
      }
    }

    method BuildReply(c: Client, ghost s: nat, ty: nat, subtype: nat, calls: seq<Call>)
      requires Wired() && Separate() && AllValid(connections) && s < |connections| && c == connections[s]
      requires AllIdle(Others(s))
      modifies c.outbuf, c.outbuf.buffer
      ensures Wired() && AllValid(connections) && AllIdle(Others(s)) && State() == old(State())
      ensures c.outbuf.Valid() && c.outbuf.Img() == Schedules.Made(ty, subtype, calls)
      ensures Values() == old(Values())[s := old(Values())[s].(reply := Schedules.Made(ty, subtype, calls))]
    {
      hide *;
      ghost var before, others := Values(), ValuesOf(Others(s));
      SlotIsApart(s);
      SplitValues(s);
      SplitValid(s);
      SlotOwns(s);
      MakeReply(c, ty, subtype, calls);
      SplitValid(s);
      SplitValues(s);
      OneChanged(before, Values(), others, s);
    }

    method Respond(c: Client, ghost s: nat, act: Act, calls: seq<Call>) returns (hung: bool, ghost marks: seq<Event>)
      requires Wired() && Separate() && AllValid(connections) && s < |connections| && c == connections[s]
      requires AllIdle(Others(s)) && c.ClientSocket >= 0
      requires act.Builds? || act.Spreads? || (act == Repeats && c.isAuth)
      modifies c.outbuf, c.outbuf.buffer
      modifies connections`todc, connections`sendQueue, connections`enqueued
      ensures Wired() && AllValid(connections) && AllIdle(Others(s)) && State() == Final(old(State()), marks)
      ensures HandlerRuns(Log(old(State()), marks)) == []
      ensures hung == Hangs(act, old(c.outbuf.Img()), calls, old(OpenCount(connections)))
      ensures Values() == if hung then old(Values())[s := Stuck(old(Values())[s], act, calls)]
                          else if act.Spreads? then Spoken(old(Values()), s, Schedules.Made(act.ty, act.subtype, calls))
                          else old(Values())[s := Schedules.Effect(old(Values())[s], OpOf(act, calls)).0]
    {
      hide AllValid, AllIdle, Separate, Wired, PartsOf, Views, Outboxes, OpenCount, Final, Log, HandlerRuns;
      hide Room, PadFits, Schedules.Made, State, Slots, Values, Spoken, Schedules.Effect;
      SlotIsApart(s);
      if act.Spreads? {
        hung, marks := Spread(c, s, act.ty, act.subtype, calls);
      } else {
        hung, marks := Answer(c, s, act, calls);
      }
    }

    /** The handler that a packet of this verdict runs, and whether it ever returns. */
    method RunHandler(c: Client, ghost s: nat, verdict: Verdict, io: Io) returns (hung: bool, ghost marks: seq<Event>)
      requires Wired() && Separate() && AllValid(connections) && s < |connections| && c == connections[s]
      requires AllIdle(Others(s)) && c.ClientSocket >= 0
      requires |connections| < MAX_SLOTS && Bounded(io) && c.inbuf.Valid()
      requires c.inbuf.pSize == Word(c.inbuf.buffer[..], 0)
      requires verdict.Run? && verdict.ty != AUTH_TYPE ==> c.isAuth
      modifies c`todc, c`isAuth, c`iv, c`key, c`lastHeartBeat, c.inbuf, c.outbuf, c.outbuf.buffer
      modifies connections`todc, connections`sendQueue, connections`enqueued
      ensures Wired() && AllValid(connections) && AllIdle(Others(s))
      ensures c.inbuf.buffer[..] == old(c.inbuf.buffer[..])
      ensures var act := ActOf(verdict, Word(c.inbuf.buffer[..], 4), io);
              var shaken := if act == Shakes
                            then Handshake(old(State()), s, old(c.inbuf.pSize), c.inbuf.buffer[6..22])
                            else old(State());
              && State() == Final(shaken, marks) && HandlerRuns(Log(shaken, marks)) == []
              && hung == Hangs(act, old(c.outbuf.Img()), io.calls, old(OpenCount(connections)))
              && c.lastHeartBeat == Beaten(act, old(c.lastHeartBeat), io.tick)
      ensures var act := ActOf(verdict, Word(c.inbuf.buffer[..], 4), io);
              Values() == if hung then old(Values())[s := Stuck(old(Values())[s], act, io.calls)]
                          else Acted(old(Values()), serverKeys, s, act, io)
    {
      hide AllValid, AllIdle, Separate, Wired, PartsOf, Views, Outboxes, OpenCount, Final, Log, HandlerRuns;
      hide Handshake, Hangs, Word, Values, Acted, Stuck;
      hung, marks := Perform(c, s, ActOf(verdict, Word(c.inbuf.buffer[..], 4), io), io);
    }

    /** The client's heartbeat packet. */
    method Postpone(c: Client, ghost s: nat, tick: nat)
      requires Wired() && Separate() && AllValid(connections) && s < |connections| && c == connections[s]
      requires AllIdle(Others(s))
      modifies c`lastHeartBeat
      ensures Wired() && AllValid(connections) && State() == old(State())
      ensures c.lastHeartBeat == (tick + 30) % 0x1_0000_0000
      ensures Values() == old(Values())[s := old(Values())[s].(lastHeartBeat := (tick + 30) % 0x1_0000_0000)]
      ensures AllIdle(Others(s))
    {
      hide *;
      ghost var before, others := Values(), ValuesOf(Others(s));
      SlotIsApart(s);
      SplitValid(s);
      SplitValues(s);
      PostponeSlot(c, tick);
      SplitValid(s);
      SplitValues(s);
      OneChanged(before, Values(), others, s);
    }

    method Perform(c: Client, ghost s: nat, act: Act, io: Io) returns (hung: bool, ghost marks: seq<Event>)
      requires Wired() && Separate() && AllValid(connections) && s < |connections| && c == connections[s]
      requires AllIdle(Others(s)) && c.ClientSocket >= 0
      requires |connections| < MAX_SLOTS && Bounded(io) && c.inbuf.Valid()
      requires c.inbuf.pSize == Word(c.inbuf.buffer[..], 0)
      requires act == Repeats ==> c.isAuth
      modifies c`todc, c`isAuth, c`iv, c`key, c`lastHeartBeat, c.inbuf, c.outbuf, c.outbuf.buffer
      modifies connections`todc, connections`sendQueue, connections`enqueued
      ensures Wired() && AllValid(connections) && AllIdle(Others(s))
      ensures c.inbuf.buffer[..] == old(c.inbuf.buffer[..])
      ensures var shaken := if act == Shakes
                            then Handshake(old(State()), s, old(c.inbuf.pSize), c.inbuf.buffer[6..22])
                            else old(State());
              && State() == Final(shaken, marks) && HandlerRuns(Log(shaken, marks)) == []
              && hung == Hangs(act, old(c.outbuf.Img()), io.calls, old(OpenCount(connections)))
              && c.lastHeartBeat == Beaten(act, old(c.lastHeartBeat), io.tick)
      ensures Values() == if hung then old(Values())[s := Stuck(old(Values())[s], act, io.calls)]
                          else Acted(old(Values()), serverKeys, s, act, io)
    {
      hide AllValid, AllIdle, Separate, Wired, PartsOf, State, Slots, Values, ValuesOf, ValueOf, OpenCount;
      hide Final, Log, HandlerRuns, Acted, Hangs, Beaten, Stuck, Greeted, Spoken, Handshake, OpOf, Room, PadFits, Word;
      hide Schedules.Effect, Schedules.Made, Chat.Relayed, Chat.ReadMessage, Client.Footprint, Others, Sound;
      hide Client.Layout, ServerPacket.Valid;
      SlotOwns(s);
      FootprintHas(c);
      SlotShows(s);
      ActedIs(Values(), serverKeys, s, act, io);
      HangsIs(act, c.outbuf.Img(), io.calls, OpenCount(connections));
      BeatenIs(act, c.lastHeartBeat, io.tick);
      hung, marks := false, [];
      if act.Builds? || act.Spreads? || act == Repeats {
        if !act.Spreads? {
          OpOfIs(act, io.calls);
        }
        hung, marks := Respond(c, s, act, io.calls);
      } else {
        PerformQuietly(c, s, act, io);
        OneEvent(State(), Drop(s));
        NoRuns();
      }
    }

    /** The handlers that always return and leave no mark of a long reply. */
    method PerformQuietly(c: Client, ghost s: nat, act: Act, io: Io)
      requires Wired() && Separate() && AllValid(connections) && s < |connections| && c == connections[s]
      requires AllIdle(Others(s)) && c.ClientSocket >= 0
      requires |connections| < MAX_SLOTS && Bounded(io) && c.inbuf.Valid()
      requires c.inbuf.pSize == Word(c.inbuf.buffer[..], 0)
      requires act in {Nothing, Shakes, Beats, Relays}
      modifies c`todc, c`isAuth, c`iv, c`key, c`lastHeartBeat, c.inbuf, c.outbuf, c.outbuf.buffer
      modifies connections`todc, connections`sendQueue, connections`enqueued
      ensures Wired() && AllValid(connections) && AllIdle(Others(s))
      ensures c.inbuf.buffer[..] == old(c.inbuf.buffer[..])
      ensures State() == if act == Shakes
                         then Handshake(old(State()), s, old(c.inbuf.pSize), c.inbuf.buffer[6..22])
                         else old(State())
      ensures c.lastHeartBeat == Beaten(act, old(c.lastHeartBeat), io.tick)
      ensures Values() == Acted(old(Values()), serverKeys, s, act, io)
    {
      hide *;
      SlotOwns(s);
      FootprintHas(c);
      SlotShows(s);
      ActedIs(Values(), serverKeys, s, act, io);
      BoundedIs(io);
      BeatenIs(act, c.lastHeartBeat, io.tick);
      match act {
        case Shakes => Shake(c, s, io.rnd);
        case Beats => Postpone(c, s, io.tick);
        case Relays => var _ := Relay(c, s);
        case Nothing =>
      }
    }

    /** The heartbeat at the end of a turn, which goes to the slot even if it was just closed. */
    method Beat(c: Client, ghost s: nat, now: nat, tick: nat)
      requires Wired() && Separate() && AllValid(connections) && s < |connections| && c == connections[s]
      requires tick < U32_LIMIT
      modifies c`lastHeartBeat, c`todc, c`sendQueue, c`enqueued, c.outbuf, c.outbuf.buffer
      ensures Wired() && AllValid(connections) && State() == old(State()) && c.todc == old(c.todc)
      ensures old(c.Fresh()) ==> c.Fresh()
      ensures c.lastHeartBeat == if old(c.lastHeartBeat) < now then now + HEARTBEAT_TIME else old(c.lastHeartBeat)
      ensures c.Box() == if old(c.lastHeartBeat) < now && c.ClientSocket >= 0
                         then Gain(old(c.Box()), HeartBeat(tick)) else old(c.Box())
      ensures old(c.lastHeartBeat) < now && c.ClientSocket < 0 ==> c.outbuf.Img() == HeartBeat(tick)
      ensures Values() == old(Values())[s := Schedules.Effect(old(Values())[s], Schedules.Turn(now, tick)).0]
    {
      hide *;
      ghost var before, others := Values(), ValuesOf(Others(s));
      SlotIsApart(s);
      SplitValues(s);
      SplitValid(s);
      BeatSlot(c, s, now, tick);
      SplitValid(s);
      SplitValues(s);
      OneChanged(before, Values(), others, s);
    }

    method BeatSlot(c: Client, ghost s: nat, now: nat, tick: nat)
      requires Wired() && s < |connections| && c == connections[s] && c.Valid() && tick < U32_LIMIT
      modifies c`lastHeartBeat, c`todc, c`sendQueue, c`enqueued, c.outbuf, c.outbuf.buffer
      ensures Wired() && c.Valid() && State() == old(State()) && c.todc == old(c.todc)
      ensures old(c.Fresh()) ==> c.Fresh()
      ensures c.lastHeartBeat == if old(c.lastHeartBeat) < now then now + HEARTBEAT_TIME else old(c.lastHeartBeat)
      ensures c.Box() == if old(c.lastHeartBeat) < now && c.ClientSocket >= 0
                         then Gain(old(c.Box()), HeartBeat(tick)) else old(c.Box())
      ensures old(c.lastHeartBeat) < now && c.ClientSocket < 0 ==> c.outbuf.Img() == HeartBeat(tick)
      ensures ValueOf(c) == Schedules.Effect(old(ValueOf(c)), Schedules.Turn(now, tick)).0
    {
      hide Wired, Views, Outboxes, HeartBeat, Client.Valid, ValueOf, Gain, Schedules.Effect, Client.Fresh;
      ghost var slots := Slots();
      BeatAlone(c, now, tick);
      assert Slots() == slots;
    }

    /** Both halves and the handler: the slot is served as a run of table events. */
    method ServePacket(c: Client, ghost s: nat, io: Io)
      returns (verdict: Verdict, hung: bool, ghost events: seq<Event>)
      requires Wired() && Separate() && AllValid(connections) && s < |connections| && c == connections[s]
      requires AllIdle(Others(s)) && c.ClientSocket >= 0
      requires |connections| < MAX_SLOTS && Bounded(io)
      modifies c.Footprint(), connections`todc, connections`sendQueue, connections`enqueued
      ensures Wired() && AllValid(connections) && AllIdle(Others(s)) && State() == Final(old(State()), events)
      ensures HandlerRuns(Log(old(State()), events)) == Invoked(s, verdict)
      ensures c.ClientSocket == old(c.ClientSocket)
      ensures var result := Attended(old(Values()), serverKeys, s, io);
              Values() == result.slots && verdict == result.verdict && hung == result.hung
    {
      hide AllValid, AllIdle, Separate, Wired, PartsOf, Views, Outboxes, State, Slots, Final, Log, HandlerRuns;
      hide Values, ValuesOf, ValueOf, Gate, Others, Transported, Dispatched;
      ghost var before, slots := State(), Values();
      ghost var packet;
      verdict, events, packet := ServeSlot(c, s, io);
      hung := false;
      if Handles(verdict) {
        ghost var more;
        hung, more := Handle(c, s, verdict, packet[0], io);
        RunsConcat(before, events, more);
        events := events + more;
      } else {
        NothingDispatched(Values(), serverKeys, s, verdict, io);
      }
      AttendedIs(slots, serverKeys, s, io);
    }

    /** Running the handler is the event of its packet, and a mark if its reply was too long. */
    method Handle(c: Client, ghost s: nat, verdict: Verdict, ghost packet: Event, io: Io)
      returns (hung: bool, ghost events: seq<Event>)
      requires Wired() && Separate() && AllValid(connections) && s < |connections| && c == connections[s]
      requires AllIdle(Others(s)) && c.ClientSocket >= 0
      requires |connections| < MAX_SLOTS && Bounded(io)
      requires c.inbuf.Valid() && packet == PacketEvent(c, s) && packet.Packet? && c.inbuf.pSize == packet.size
      requires Handles(verdict) && Gate(c.View(), packet.ty, packet.size) == verdict
      modifies c`todc, c`isAuth, c`iv, c`key, c`lastHeartBeat, c.inbuf, c.outbuf, c.outbuf.buffer
      modifies connections`todc, connections`sendQueue, connections`enqueued
      ensures Wired() && AllValid(connections) && AllIdle(Others(s)) && State() == Final(old(State()), events)
      ensures HandlerRuns(Log(old(State()), events)) == Invoked(s, verdict)
      ensures var result := Dispatched(old(Values()), serverKeys, s, verdict, io);
              Values() == result.slots && hung == result.hung
    {
      hide AllValid, AllIdle, Separate, Wired, PartsOf, Views, Outboxes, State, Slots, Final, Log, HandlerRuns, Word;
      hide Handshake, OpenCount, Hangs, Values, ValuesOf, ValueOf, Acted, Stuck, Beaten, Gate, Others, Room, ActOf;
      ghost var before, bytes, slots := State(), c.inbuf.buffer[..], Values();
      ViewsAreSlots();
      OpenSlotsAre();
      SlotShows(s);
      PacketIsHandled(before, s, packet, verdict, bytes, io);
      ghost var marks;
      hung, marks := RunHandler(c, s, verdict, io);
      assert bytes[6..22] == c.inbuf.buffer[6..22];
      events := [packet] + marks;
      RunsConcat(before, [packet], marks);
    }

    method ServeSlot(c: Client, ghost s: nat, io: Io)
      returns (verdict: Verdict, ghost events: seq<Event>, ghost packet: seq<Event>)
      requires Wired() && Separate() && AllValid(connections) && s < |connections| && c == connections[s]
      requires c.ClientSocket >= 0 && AllIdle(Others(s))
      modifies c.Footprint()
      ensures Wired() && AllValid(connections) && AllIdle(Others(s)) && State() == Final(old(State()), events)
      ensures HandlerRuns(Log(old(State()), events)) == []
      ensures OpenCount(connections) == old(OpenCount(connections))
      ensures |packet| == (if Handles(verdict) then 1 else 0)
      ensures c.inbuf.Valid() && c.ClientSocket == old(c.ClientSocket)
      ensures c.outbuf.Img() == old(c.outbuf.Img()) && c.lastHeartBeat == old(c.lastHeartBeat)
      ensures Handles(verdict) ==>
                && packet == [PacketEvent(c, s)] && packet[0].Packet? && c.inbuf.pSize == packet[0].size
                && Gate(c.View(), packet[0].ty, packet[0].size) == verdict
      ensures var (v, answer) := Transported(old(Values())[s], io);
              Values() == old(Values())[s := v] && verdict == answer
    {
      hide *;
      ghost var before, others := Values(), ValuesOf(Others(s));
      SlotIsApart(s);
      SplitValid(s);
      SplitValues(s);
      SlotOwns(s);
      FootprintHas(c);
      verdict, events, packet := ServeIo(c, s, io);
      SplitValid(s);
      SplitValues(s);
      OneChanged(before, Values(), others, s);
    }

    /** One turn of the server loop on an open slot, as a run of events. It may never end. */
    method ServeConnection(c: Client, s: nat, io: Io, now: nat)
      returns (verdict: Verdict, hung: bool, ghost events: seq<Event>)
      requires Valid() && s < |connections| && c == connections[s] && c.ClientSocket >= 0
      requires |connections| < MAX_SLOTS && Bounded(io)
      modifies this`serverNumConnections, serverConnections, c.Footprint()
      modifies connections`todc, connections`sendQueue, connections`enqueued
      ensures Valid() && State() == Final(old(State()), events)
      ensures HandlerRuns(Log(old(State()), events)) == Invoked(s, verdict)
      ensures !hung ==> c.ClientSocket < 0 || !c.todc
      ensures c.ClientSocket < 0 ==>
                && c.Fresh()
                && (0 < now ==> c.lastHeartBeat == now + HEARTBEAT_TIME && c.outbuf.Img() == HeartBeat(io.tick))
      ensures c.ClientSocket >= 0 ==>
                var act := ActOf(verdict, Word(c.inbuf.buffer[..], 4), io);
                var last := Beaten(act, old(c.lastHeartBeat), io.tick);
                && hung == Hangs(act, old(c.outbuf.Img()), io.calls, old(OpenCount(connections)))
                && c.lastHeartBeat == (if !hung && last < now then now + HEARTBEAT_TIME else last)
                && (!hung && last < now ==> EndsInBeat(c.enqueued, io.tick))
      ensures hung ==> Invoked(s, verdict) == [Ran(s, 1)] || Invoked(s, verdict) == [Ran(s, 2)]
      ensures var result := Served(old(Values()), serverKeys, s, io, now);
              Values() == result.slots && verdict == result.verdict && hung == result.hung
      ensures c.ClientSocket >= 0 ==>
                && c.wire == old(c.wire) + TakenNow(io, Offered(old(c.Unsent()), old(Contents(c.sendQueue))))
                && c.received == old(c.received) + BroughtNow(io, old(c.rcvread))
                && var stream := old(c.Pending()) + BroughtNow(io, old(c.rcvread));
                   if HeadStands(stream) && !ReceiveFails(io, old(c.rcvread))
                   then c.consumed == old(c.consumed) + [stream[..Word(stream, 0) + 2]]
                        && c.Pending() == stream[Word(stream, 0) + 2..]
                   else c.consumed == old(c.consumed) && c.Pending() == stream
      ensures c.ClientSocket >= 0 && !hung ==>
                && !old(c.todc) && verdict != Refused && !ReceiveFails(io, old(c.rcvread))
                && !SendFails(io, Offered(old(c.Unsent()), old(Contents(c.sendQueue))))
    {
      hide AllReceiving, AllSending, AllIdle, Separate, Wired, PartsOf, State, Slots, Final, Log, HandlerRuns, HubInv;
      hide HeartBeat, EndsInBeat, Served, Client.Fresh, Values, ActOf, Hangs, Beaten, Word, OpenCount, Invoked;
      hide Transported, OpenSlots, Client.Footprint, HeadStands, ReceiveFails, SendFails, BroughtNow, TakenNow, Offered;
      hide Contents, Client.Receiving, Client.Sending;
      ghost var slots, before := Values(), c.received;
      SlotShows(s);
      SplitValid(s);
      ReceivedIs(c);
      verdict, hung, events := ServeAndShow(c, s, io, now);
      SlotShows(s);
      SplitValid(s);
      ReceivedIs(c);
      ServedMoves(slots, serverKeys, s, io, now);
      TurnReceives(slots[s], io);
      if c.ClientSocket >= 0 {
        StreamGrows(slots[s].inward, Values()[s].inward, io);
      }
    }

    method ServeAndShow(c: Client, s: nat, io: Io, now: nat)
      returns (verdict: Verdict, hung: bool, ghost events: seq<Event>)
      requires Valid() && s < |connections| && c == connections[s] && c.ClientSocket >= 0
      requires |connections| < MAX_SLOTS && Bounded(io)
      modifies this`serverNumConnections, serverConnections, c.Footprint()
      modifies connections`todc, connections`sendQueue, connections`enqueued
      ensures Valid() && State() == Final(old(State()), events)
      ensures HandlerRuns(Log(old(State()), events)) == Invoked(s, verdict)
      ensures !hung ==> c.ClientSocket < 0 || !c.todc
      ensures c.ClientSocket < 0 ==>
                && c.Fresh()
                && (0 < now ==> c.lastHeartBeat == now + HEARTBEAT_TIME && c.outbuf.Img() == HeartBeat(io.tick))
      ensures c.ClientSocket >= 0 ==>
                var act := ActOf(verdict, Word(c.inbuf.buffer[..], 4), io);
                var last := Beaten(act, old(c.lastHeartBeat), io.tick);
                && hung == Hangs(act, old(c.outbuf.Img()), io.calls, old(OpenCount(connections)))
                && c.lastHeartBeat == (if !hung && last < now then now + HEARTBEAT_TIME else last)
                && (!hung && last < now ==> EndsInBeat(c.enqueued, io.tick))
      ensures hung ==> Invoked(s, verdict) == [Ran(s, 1)] || Invoked(s, verdict) == [Ran(s, 2)]
      ensures var result := Served(old(Values()), serverKeys, s, io, now);
              Values() == result.slots && verdict == result.verdict && hung == result.hung
    {
      hide AllValid, AllIdle, Separate, Wired, PartsOf, Views, Outboxes, State, Slots, Final, Log, HandlerRuns, HubInv;
      hide HeartBeat, EndsInBeat, Served, Client.Fresh, Values, ActOf, Hangs, Beaten, Word, OpenCount, Invoked;
      hide Transported, OpenSlots, Client.Footprint;
      ghost var slots := Values();
      SlotShows(s);
      OpenSlotsAre();
      verdict, hung, events := ServeTurn(c, s, io, now);
      SlotShows(s);
      ServedShows(slots, serverKeys, s, io, now);
      ClosedIsFresh(s);
      if hung {
        HangsIn(s, verdict, Word(Transported(slots[s], io).0.inward.shown, 4), io, slots[s].reply, OpenSlots(slots));
      }
    }

    lemma ClosedIsFresh(s: nat)
      requires AllValid(connections) && AllIdle(connections) && s < |connections|
      ensures connections[s].ClientSocket < 0 ==> connections[s].Fresh()
    {
      SplitValid(s);
      SplitIdle(s);
    }

    /** The turn on the table and on the values. */
    method ServeTurn(c: Client, s: nat, io: Io, now: nat)
      returns (verdict: Verdict, hung: bool, ghost events: seq<Event>)
      requires Valid() && s < |connections| && c == connections[s] && c.ClientSocket >= 0
      requires |connections| < MAX_SLOTS && Bounded(io)
      modifies this`serverNumConnections, serverConnections, c.Footprint()
      modifies connections`todc, connections`sendQueue, connections`enqueued
      ensures Valid() && State() == Final(old(State()), events)
      ensures HandlerRuns(Log(old(State()), events)) == Invoked(s, verdict)
      ensures var result := Served(old(Values()), serverKeys, s, io, now);
              Values() == result.slots && verdict == result.verdict && hung == result.hung
    {
      hide AllValid, AllIdle, Separate, Wired, PartsOf, Views, Outboxes, State, Slots, Final, Log, HandlerRuns, HubInv;
      hide Agrees, Client.Fresh, Values, Attended, Ended, Served, Invoked, HeartBeat, EndsInBeat;
      ghost var before, slots := State(), Values();
      verdict, hung, events := ServeHandled(c, s, io);
      ServedIs(slots, serverKeys, s, io, now);
      if !hung {
        ghost var ended := EndTurn(c, s, io, now);
        RunsConcat(before, events, ended);
        events := events + ended;
      }
    }

    method ServeHandled(c: Client, s: nat, io: Io)
      returns (verdict: Verdict, hung: bool, ghost events: seq<Event>)
      requires Valid() && s < |connections| && c == connections[s] && c.ClientSocket >= 0
      requires |connections| < MAX_SLOTS && Bounded(io)
      modifies c.Footprint(), connections`todc, connections`sendQueue, connections`enqueued
      ensures Valid() && State() == Final(old(State()), events) && c.ClientSocket == old(c.ClientSocket)
      ensures HandlerRuns(Log(old(State()), events)) == Invoked(s, verdict)
      ensures var result := Attended(old(Values()), serverKeys, s, io);
              Values() == result.slots && verdict == result.verdict && hung == result.hung
    {
      hide AllValid, AllIdle, Separate, Wired, PartsOf, Views, Outboxes, State, Slots, Final, Log, HandlerRuns, HubInv;
      hide Values, Attended, Client.Unused;
      ghost var before := State();
      SplitIdle(s);
      verdict, hung, events := ServePacket(c, s, io);
      SplitIdle(s);
      FinalKeepsInv(before, events);
    }

    /** The end of a turn: a marked slot is closed and initialised, and then the heartbeat is made. */
    method EndTurn(c: Client, s: nat, io: Io, now: nat) returns (ghost events: seq<Event>)
      requires Valid() && s < |connections| && c == connections[s] && c.ClientSocket >= 0 && Bounded(io)
      modifies this`serverNumConnections, serverConnections, c.Footprint()
      ensures Valid() && State() == Final(old(State()), events) && HandlerRuns(Log(old(State()), events)) == []
      ensures Values() == old(Values())[s := Ended(old(Values())[s], io, now)]
    {
      hide AllValid, AllIdle, Separate, Wired, PartsOf, Views, Outboxes, State, Slots, Final, Log, HandlerRuns, HubInv;
      hide Agrees, HeartBeat, EndsInBeat, Client.Fresh, Values, Ended, Schedules.Effect;
      ghost var slots := Values();
      SlotOwns(s);
      events := ReapMarked(c, s);
      BeatLast(c, s, now, io.tick);
      EndedIs(slots[s], io, now);
    }

    /** The heartbeat of an open slot stands at the end of what it has queued. */
    method BeatLast(c: Client, s: nat, now: nat, tick: nat)
      requires Valid() && s < |connections| && c == connections[s] && tick < U32_LIMIT
      modifies c`lastHeartBeat, c`todc, c`sendQueue, c`enqueued, c.outbuf, c.outbuf.buffer
      ensures Valid() && State() == old(State()) && c.todc == old(c.todc) && (old(c.Fresh()) ==> c.Fresh())
      ensures c.lastHeartBeat == if old(c.lastHeartBeat) < now then now + HEARTBEAT_TIME else old(c.lastHeartBeat)
      ensures old(c.lastHeartBeat) < now && c.ClientSocket < 0 ==> c.outbuf.Img() == HeartBeat(tick)
      ensures old(c.lastHeartBeat) < now && c.ClientSocket >= 0 ==>
                EndsInBeat(c.enqueued, tick)
      ensures Values() == old(Values())[s := Schedules.Effect(old(Values())[s], Schedules.Turn(now, tick)).0]
    {
      hide AllValid, AllIdle, Separate, Wired, PartsOf, Views, Outboxes, State, Slots, HubInv;
      hide HeartBeat, Client.Valid, Client.Unused, FrameOf, EntriesOf, Values, Schedules.Effect;
      SlotIsApart(s);
      SplitValid(s);
      SplitIdle(s);
      Beat(c, s, now, tick);
      SplitIdle(s);
      HeartBeatIsSendable(tick);
    }

    /** A marked slot is closed and initialised. */
    method ReapMarked(c: Client, s: nat) returns (ghost events: seq<Event>)
      requires Valid() && s < |connections| && c == connections[s] && c.ClientSocket >= 0
      modifies this`serverNumConnections, serverConnections, c.Footprint()
      ensures Valid() && State() == Final(old(State()), events)
      ensures HandlerRuns(Log(old(State()), events)) == []
      ensures c.ClientSocket >= 0 ==> !c.todc && c.lastHeartBeat == old(c.lastHeartBeat)
      ensures c.ClientSocket >= 0 ==> c.inbuf.buffer[..] == old(c.inbuf.buffer[..])
      ensures c.ClientSocket < 0 ==> c.Fresh() && c.lastHeartBeat == 0
      ensures Values() == old(Values())[s := if old(Values())[s].view.todc then Reuse.Vacant() else old(Values())[s]]
    {
      hide AllValid, AllIdle, Separate, Wired, PartsOf, Views, Outboxes, Final, Log, HandlerRuns, HubInv;
      hide Client.Fresh, Values;
      SlotShows(s);
      events := [];
      OneEvent(State(), Reap(s));
      NoRuns();
      if c.todc {
        ReapEvent(State(), s);
        events := [Reap(s)];
        InitializeConnection(s);
        FreshIsClosed(c);
      }
    }

    // ---------------------------------------------------------------- whole runs

    lemma PartsAreListed(s: nat)
      requires s < |connections|
      ensures connections[s].Parts() <= PartsOf(connections)
    {
    }

    /** One round of the server loop: at most one accept, then a turn on every open slot, unless one hangs. */
    method ServeRound(round: Round) returns (runs: seq<Note>, hung: bool, ghost events: seq<Event>)
      requires Valid() && |connections| < MAX_SLOTS
      modifies this`serverNumConnections, this`born, this`clock, serverConnections, connections, PartsOf(connections)
      ensures Valid() && State() == Final(old(State()), events)
      ensures runs == HandlerRuns(Log(old(State()), events))
      ensures hung ==> EndsInRequest(runs)
      ensures var course := RoundOf(old(Values()), serverKeys, round);
              Values() == course.slots && runs == course.notes && hung == course.hung
      ensures serverKeys == old(serverKeys)
    {
      hide Agrees, AllValid, AllIdle, Separate, PartsOf, Views, Outboxes, State, Slots, Final, Log, HandlerRuns, HubInv;
      hide Values, Served, TurnsOf, IoAt;
      ghost var before, slots, keys := State(), Values(), serverKeys;
      PartsAreOutside();
      events := AcceptRound(round.waiting);
      ghost var joined := Values();
      RoundIs(slots, serverKeys, round);
      TurnsStart(joined, serverKeys, round);
      runs, hung := [], false;
      for i := 0 to |connections|
        invariant Valid() && State() == Final(before, events) && runs == HandlerRuns(Log(before, events))
        invariant serverKeys == keys && (hung ==> EndsInRequest(runs))
        invariant TurnsOf(joined, serverKeys, round, i) == Course(Values(), runs, hung)
      {
        var c := connections[i];
        TurnsStep(joined, serverKeys, round, i);
        OpenIs(i);
        if c.ClientSocket >= 0 && !hung {
          var verdict, stuck, more := TakeTurn(c, i, round);
          RunsConcat(before, events, more);
          events := events + more;
          runs := runs + Invoked(i, verdict);
          hung := stuck;
        }
      }
    }

    lemma OpenIs(s: nat)
      requires Valid() && s < |connections|
      ensures Open(Values()[s].view) == (connections[s].ClientSocket >= 0)
    {
      SlotShows(s);
    }

    method TakeTurn(c: Client, s: nat, round: Round) returns (verdict: Verdict, hung: bool, ghost events: seq<Event>)
      requires Valid() && |connections| < MAX_SLOTS
      requires s < |connections| && c == connections[s] && c.ClientSocket >= 0
      modifies this`serverNumConnections, serverConnections, connections, PartsOf(connections)
      ensures Valid() && State() == Final(old(State()), events)
      ensures HandlerRuns(Log(old(State()), events)) == Invoked(s, verdict)
      ensures hung ==> EndsInRequest(Invoked(s, verdict))
      ensures var result := Served(old(Values()), serverKeys, s, IoAt(round, s), round.now);
              Values() == result.slots && verdict == result.verdict && hung == result.hung
      ensures serverKeys == old(serverKeys)
    {
      hide Agrees, AllValid, AllIdle, Separate, PartsOf, Views, Outboxes, State, Slots, Final, Log, HandlerRuns, HubInv;
      hide Values, Served, Word, Hangs, ActOf, EndsInBeat, HeartBeat, HeadStands, ReceiveFails, SendFails, BroughtNow;
      hide TakenNow, Offered, Contents, Client.Fresh;
      PartsAreListed(s);
      SlotOwns(s);
      IoIs(round, s);
      var io := if s < |round.io| then round.io[s] else QUIET;
      io := io.(rnd := io.rnd % 0x8000, tick := io.tick % U32_LIMIT);
      verdict, hung, events := ServeConnection(c, s, io, round.now);
    }

    method AcceptRound(waiting: seq<nat>) returns (ghost events: seq<Event>)
      requires Valid()
      modifies this`serverNumConnections, this`born, this`clock, serverConnections
      modifies connections`ClientSocket, connections`connectionIndex
      ensures Valid() && State() == Final(old(State()), events)
      ensures HandlerRuns(Log(old(State()), events)) == []
      ensures Values() == if waiting == [] then old(Values()) else Joined(old(Values()))
    {
      hide AllValid, AllIdle, Separate, Wired, PartsOf, Views, Outboxes, State, Slots, Final, Log, HandlerRuns;
      hide HubInv, Accepted, Begins, Values, Joined;
      ghost var before := State();
      OneEvent(before, Drop(0));
      NoRuns();
      var _ := AcceptConnection(waiting);
      events := [];
      if waiting != [] {
        IndexCounts(before);
        AcceptEvent(before, waiting[0]);
        events := [Accept(waiting[0])];
      }
    }

    /** The server loop over any schedule of rounds. */
    method ServerThread(rounds: seq<Round>) returns (runs: seq<Note>, hung: bool, ghost events: seq<Event>)
      requires Valid() && |connections| < MAX_SLOTS
      modifies this`serverNumConnections, this`born, this`clock, serverConnections, connections, PartsOf(connections)
      ensures Valid() && State() == Final(old(State()), events)
      ensures runs == HandlerRuns(Log(old(State()), events))
      ensures hung ==> EndsInRequest(runs)
      ensures var course := RunOf(old(Values()), serverKeys, rounds);
              Values() == course.slots && runs == course.notes && hung == course.hung
      ensures serverKeys == old(serverKeys)
    {
      hide Agrees, AllValid, AllIdle, Separate, PartsOf, Views, Outboxes, State, Slots, Final, Log, HandlerRuns;
      hide Values, RunOf, RoundOf;
      ghost var before, slots, keys := State(), Values(), serverKeys;
      PartsAreOutside();
      RunStart(slots, serverKeys);
      assert rounds[..0] == [];
      runs, hung, events := [], false, [];
      OneEvent(before, Drop(0));
      NoRuns();
      for k := 0 to |rounds|
        invariant Valid() && State() == Final(before, events) && runs == HandlerRuns(Log(before, events))
        invariant serverKeys == keys && (hung ==> EndsInRequest(runs))
        invariant RunOf(slots, serverKeys, rounds[..k]) == Course(Values(), runs, hung)
      {
        RunStep(slots, serverKeys, rounds, k);
        if !hung {
          var more, stuck, happened := ServeRound(rounds[k]);
          RunsConcat(before, events, happened);
          events := events + happened;
          runs := runs + more;
          hung := stuck;
        }
      }
      assert rounds[..|rounds|] == rounds;
    }
  }

  /**
   * The server from its start, over any schedule, up to a send that never ends: it is sound after
   * every round, every closed slot is as good as new, the table is a run of the table from the
   * empty one, and the handlers it ran are those of that run, each of them allowed when it ran.
   */
  method RunServer(size: nat, keys: seq<Pair>, garbage: bool, rounds: seq<Round>)
    returns (server: Server, runs: seq<Note>, hung: bool, ghost events: seq<Event>)
    requires size < MAX_SLOTS
    ensures server.Valid() && server.State() == Final(Start(size, keys), events)
    ensures HubInv(server.State())
    ensures forall s :: 0 <= s < |server.connections| && server.connections[s].ClientSocket < 0 ==>
                          server.connections[s].Fresh()
    ensures runs == HandlerRuns(Log(Start(size, keys), events)) && LogLegal(Log(Start(size, keys), events))
    ensures hung ==> EndsInRequest(runs)
    ensures var course := RunOf(AllVacant(size), keys, rounds);
            server.Values() == course.slots && runs == course.notes && hung == course.hung
    ensures hung || Lives.AllSane(server.Values())
  {
    hide Lives.AllSane, Server.Values, RunOf, Server.Agrees, Server.Separate, Server.State, PartsOf;
    hide Final, Log, HandlerRuns, HubInv, LogLegal;
    hide Client.Receiving, Client.Sending, Client.Unused;
    server := new Server(size, keys, garbage);
    runs, hung, events := server.ServerThread(rounds);
    RunsAreGated(size, keys, events);
    RunsKeepInv(size, keys, events);
    Lives.RunsLive(size, keys, rounds);
  }

  /** The operation of a slot that a reply to the client itself amounts to. */
  function OpOf(act: Act, calls: seq<Call>): Schedules.Op
    requires act.Builds? || act == Repeats
  {
    match act
    case Builds(ty, subtype) => Schedules.Reply(ty, subtype, calls)
    case Repeats => Schedules.Again
  }

  lemma OpOfIs(act: Act, calls: seq<Call>)
    requires act.Builds? || act == Repeats
    ensures OpOf(act, calls) == if act == Repeats then Schedules.Again else Schedules.Reply(act.ty, act.subtype, calls)
  {
  }

  /** The reply is built and sent, or the old one is sent, unless that would never end. */
  method SendAnswer(c: Client, act: Act, calls: seq<Call>) returns (hung: bool)
    requires c.Valid() && c.ClientSocket >= 0 && (act.Builds? || (act == Repeats && c.isAuth))
    modifies c`todc, c`sendQueue, c`enqueued, c.outbuf, c.outbuf.buffer
    ensures c.Valid() && (old(c.todc) ==> c.todc)
    ensures hung == Hangs(act, old(c.outbuf.Img()), calls, 0)
    ensures ValueOf(c) == if hung then old(ValueOf(c)) else Schedules.Effect(old(ValueOf(c)), OpOf(act, calls)).0
  {
    hide Schedules.Made, AfterSend, Emitted, Room, Client.Receiving, Client.Sending;
    c.ReceivingHasLayout();
    c.SendingHasLayout();
    hung := false;
    match act {
      case Builds(ty, subtype) => Schedules.SendReply(c, ty, subtype, calls);
      case Repeats =>
        hung := Sendable(c.outbuf.pSize) && !PadFits(c.outbuf.pOffset, c.outbuf.pSize - 2);
        if !hung {
          Schedules.SendBuilt(c);
        }
    }
  }

  /** A connection finds nothing but the time of the next heartbeat and the reply packet of its slot. */
  ghost predicate Begins(c: Client)
    reads c, c.rcvbuf, c.sndbuf, c.inbuf, c.inbuf.buffer, c.outbuf, c.outbuf.buffer
  {
    && c.Valid() && c.ClientSocket >= 0
    && Schedules.Value(c) == Reuse.Occupied(Reuse.Vacant()).(lastHeartBeat := c.lastHeartBeat, reply := c.outbuf.Img())
  }

  lemma BlankBegins(c: Client)
    requires c.Valid() && c.ClientSocket >= 0 && c.Blank()
    ensures Begins(c)
  {
    hide Client.Receiving, Client.Sending;
    c.SendingHasLayout();
  }

  /** The heartbeat on one slot. */
  method BeatAlone(c: Client, now: nat, tick: nat)
    requires c.Valid() && tick < U32_LIMIT
    modifies c`lastHeartBeat, c`todc, c`sendQueue, c`enqueued, c.outbuf, c.outbuf.buffer
    ensures c.Valid() && c.todc == old(c.todc) && (old(c.Fresh()) ==> c.Fresh())
    ensures c.lastHeartBeat == if old(c.lastHeartBeat) < now then now + 30 else old(c.lastHeartBeat)
    ensures c.Box() == if old(c.lastHeartBeat) < now && c.ClientSocket >= 0
                       then Gain(old(c.Box()), HeartBeat(tick)) else old(c.Box())
    ensures old(c.lastHeartBeat) < now && c.ClientSocket < 0 ==> c.outbuf.Img() == HeartBeat(tick)
    ensures ValueOf(c) == Schedules.Effect(old(ValueOf(c)), Schedules.Turn(now, tick)).0
  {
    hide HeartBeat, Client.Valid, ValueOf, Schedules.Effect, Gain;
    DistinctParts(c);
    BeatValue(c, now, tick);
  }

  lemma DistinctParts(c: Client)
    requires c.Valid()
    ensures c.Layout()
  {
    c.ReceivingHasLayout();
  }

  method BeatValue(c: Client, now: nat, tick: nat)
    requires c.Valid() && tick < U32_LIMIT
    modifies c`lastHeartBeat, c`todc, c`sendQueue, c`enqueued, c.outbuf, c.outbuf.buffer
    ensures c.Valid() && c.todc == old(c.todc)
    ensures c.lastHeartBeat == if old(c.lastHeartBeat) < now then now + 30 else old(c.lastHeartBeat)
    ensures c.Box() == if old(c.lastHeartBeat) < now && c.ClientSocket >= 0
                       then Gain(old(c.Box()), HeartBeat(tick)) else old(c.Box())
    ensures old(c.lastHeartBeat) < now && c.ClientSocket < 0 ==> c.outbuf.Img() == HeartBeat(tick)
    ensures ValueOf(c) == Schedules.Effect(old(ValueOf(c)), Schedules.Turn(now, tick)).0
  {
    hide HeartBeat, Client.Receiving, Client.Sending, Gain, AfterSend, Schedules.Peer, Contents, Schedules.Replied;
    c.SendingHasLayout();
    ghost var box, o := c.Box(), Schedules.OutwardOf(c);
    if c.lastHeartBeat < now {
      c.lastHeartBeat := now + HEARTBEAT_TIME;
      c.SendHeartBeat(tick);
      Schedules.GainIsReplied(c.ClientSocket >= 0, box, o, HeartBeat(tick), c.Box(), Schedules.OutwardOf(c));
    }
  }

  method PostponeSlot(c: Client, tick: nat)
    requires c.Valid()
    modifies c`lastHeartBeat
    ensures c.Valid() && c.lastHeartBeat == (tick + 30) % 0x1_0000_0000
    ensures ValueOf(c) == old(ValueOf(c)).(lastHeartBeat := (tick + 30) % 0x1_0000_0000)
  {
    hide Client.Receiving, Client.Sending, Schedules.Peer;
    c.lastHeartBeat := (tick + HEARTBEAT_TIME) % U32_LIMIT;
  }

  method RebuildSlot(c: Client) returns (sent: bool)
    requires c.Valid()
    modifies c.inbuf, c.outbuf, c.outbuf.buffer
    ensures c.Valid() && c.inbuf.Valid() && c.outbuf.Valid() && c.inbuf.buffer[..] == old(c.inbuf.buffer[..])
    ensures sent <==> Word(c.inbuf.buffer[..], 4) < 3
    ensures sent ==> c.outbuf.Img() == Chat.Relayed(Chat.ReadMessage(c.inbuf.buffer[..], Word(c.inbuf.buffer[..], 4)))
    ensures !sent ==> c.outbuf.Img() == old(c.outbuf.Img())
    ensures ValueOf(c) == old(ValueOf(c)).(reply := c.outbuf.Img()) && (!sent ==> ValueOf(c) == old(ValueOf(c)))
  {
    hide Client.Receiving, Client.Sending, Chat.Relayed, Chat.ReadMessage, Schedules.Peer;
    c.ReceivingHasLayout();
    c.SendingHasLayout();
    sent := Chat.ClientOperations(c.inbuf, c.outbuf);
  }

  method MakeReply(c: Client, ty: nat, subtype: nat, calls: seq<Call>)
    requires c.Valid()
    modifies c.outbuf, c.outbuf.buffer
    ensures c.Valid() && c.outbuf.Valid() && c.outbuf.Img() == Schedules.Made(ty, subtype, calls)
    ensures ValueOf(c) == old(ValueOf(c)).(reply := Schedules.Made(ty, subtype, calls))
  {
    hide Client.Receiving, Client.Sending, Schedules.Made, Schedules.Peer;
    c.ReceivingHasLayout();
    c.SendingHasLayout();
    Schedules.Make(c.outbuf, ty, subtype, calls);
  }

  /** What a slot shows besides its outbox and its reply packet. */
  datatype Remainder = Remainder(peer: Session, inward: Schedules.Inward, unsent: seq<Byte>, wire: seq<Byte>,
                                 lastHeartBeat: nat)

  ghost function RestOf(c: Client): Remainder
    reads c`ClientSocket, c`isAuth, c`iv, c`key, c`rcvread, c`consumed, c`snddata, c`wire, c`lastHeartBeat
    reads c.rcvbuf, c.sndbuf, c.inbuf.buffer
  {
    if c.rcvread <= c.rcvbuf.Length && c.snddata <= c.sndbuf.Length
    then Remainder(Schedules.Peer(c), Schedules.InwardOf(c), c.Unsent(), c.wire, c.lastHeartBeat)
    else Remainder(Schedules.Peer(c), Schedules.Inward([], [], []), [], [], 0)
  }

  ghost function TransportParts(cs: seq<Client>): set<object> {
    set i: nat, o | i < |cs| && o in cs[i].Arrays() :: o
  }

  ghost function RestsOf(cs: seq<Client>): (r: seq<Remainder>)
    reads cs`ClientSocket, cs`isAuth, cs`iv, cs`key, cs`rcvread, cs`consumed, cs`snddata, cs`wire, cs`lastHeartBeat
    reads TransportParts(cs)
    ensures |r| == |cs|
  {
    if cs == [] then []
    else
      var n := |cs| - 1;
      assert TransportParts(cs[..n]) <= TransportParts(cs) && cs[n].Arrays() <= TransportParts(cs);
      RestsOf(cs[..n]) + [RestOf(cs[n])]
  }

  lemma ValueIsAssembled(c: Client)
    requires c.Valid()
    ensures ValueOf(c) == Assembled(RestOf(c), c.Box(), c.outbuf.Img()) && ValueOf(c).reply == c.outbuf.Img()
    ensures Open(RestOf(c).peer) == (c.ClientSocket >= 0)
  {
    hide Client.Receiving, Client.Sending, ServerPacket.Valid, Contents;
    c.ReceivingHasLayout();
    c.SendingHasLayout();
  }

  lemma RepliesAre(cs: seq<Client>)
    ensures forall i :: 0 <= i < |cs| ==> RepliesOf(cs)[i] == cs[i].outbuf.Img()
  {
  }

  lemma {:induction false} RestsAre(cs: seq<Client>)
    ensures forall i :: 0 <= i < |cs| ==> RestsOf(cs)[i] == RestOf(cs[i])
  {
    hide RestOf;
    if cs != [] {
      RestsAre(cs[..|cs| - 1]);
    }
  }

  ghost function RepliesOf(cs: seq<Client>): (r: seq<Image>)
    reads PartsOf(cs)
    ensures |r| == |cs|
  {
    seq(|cs|, i requires 0 <= i < |cs| reads PartsOf(cs) =>
          assert cs[i].Parts() <= PartsOf(cs); cs[i].outbuf.Img())
  }

  function Assembled(rest: Remainder, box: Outbox, reply: Image): Schedules.SlotState {
    Schedules.SlotState(rest.peer.(todc := box.todc), rest.inward,
                        Schedules.Outward(rest.unsent, Contents(box.queue), box.enqueued, rest.wire),
                        rest.lastHeartBeat, reply)
  }

  /** A slot whose outbox has gained the frame of a broadcast. */
  lemma GainIsAnswered(rest: Remainder, box: Outbox, im: Image, before: Image, after: Image)
    requires Sound(im)
    ensures Assembled(rest, if Open(rest.peer) then Gain(box, im) else box, after)
         == Schedules.Answered(Assembled(rest, box, before), im).(reply := after)
  {
    hide Gain, Contents, Schedules.Replied;
    var box' := if Open(rest.peer) then Gain(box, im) else box;
    Schedules.GainIsReplied(Open(rest.peer), box, Assembled(rest, box, before).outward, im,
                            box', Assembled(rest, box', after).outward);
  }

  lemma SpokenIs(before: seq<Schedules.SlotState>, after: seq<Schedules.SlotState>, s: nat, im: Image,
                 rests: seq<Remainder>, boxes: seq<Outbox>, boxes': seq<Outbox>, replies: seq<Image>)
    requires s < |before| == |after| == |rests| == |boxes| == |boxes'| == |replies| + 1
    requires AllProper(before) && Sound(im) && after[s].reply == AfterSends(im, OpenSlots(before))
    requires forall i :: 0 <= i < |before| ==> before[i] == Assembled(rests[i], boxes[i], before[i].reply)
    requires forall i :: 0 <= i < |before| ==> after[i] == Assembled(rests[i], boxes'[i], after[i].reply)
    requires forall i :: 0 <= i < |before| ==> boxes'[i] == if Open(rests[i].peer) then Gain(boxes[i], im) else boxes[i]
    requires forall i :: 0 <= i < |before| && i != s ==>
                           before[i].reply == after[i].reply == replies[if i < s then i else i - 1]
    ensures after == Spoken(before, s, im)
  {
    hide *;
    forall i | 0 <= i < |before| ensures after[i] == Spoken(before, s, im)[i] {
      GainIsAnswered(rests[i], boxes[i], im, before[i].reply, after[i].reply);
    }
  }

  /** The packet object after the first turns has been sent once for every open slot. */
  lemma {:induction false} TurnsSend(im: Image, boxes: seq<Outbox>, slots: seq<Session>, n: nat)
    requires Sound(im) && n <= |boxes| == |slots|
    ensures Turns(im, boxes, slots, n).cur == AfterSends(im, CountOpen(slots[..n]))
    decreases n
  {
    hide AfterSend, Gain;
    if n > 0 {
      assert slots[..n][..n - 1] == slots[..n - 1];
      TurnsSend(im, boxes, slots, n - 1);
    }
  }

  /** Two tables that differ in one slot. */
  lemma OneChanged<T>(before: seq<T>, after: seq<T>, others: seq<T>, s: nat)
    requires s < |before| == |after| == |others| + 1
    requires forall i :: 0 <= i < |before| && i != s ==> before[i] == others[if i < s then i else i - 1]
    requires forall i :: 0 <= i < |before| && i != s ==> after[i] == others[if i < s then i else i - 1]
    ensures after == before[s := after[s]]
  {
  }

  lemma TransportIsPart(cs: seq<Client>)
    ensures TransportParts(cs) <= PartsOf(cs)
    ensures forall o :: o in TransportParts(cs) ==> exists i :: 0 <= i < |cs| && o in cs[i].Arrays()
  {
    forall o | o in TransportParts(cs) ensures o in PartsOf(cs) {
      var i: nat :| i < |cs| && o in cs[i].Arrays();
      assert o in cs[i].Parts();
    }
  }

  lemma PartsAreInside(cs: seq<Client>)
    ensures forall i :: 0 <= i < |cs| ==> cs[i].Parts() <= PartsOf(cs)
  {
  }

  /** What the event of a packet that reaches a handler does to the table, by what its handler does. */
  lemma PacketIsHandled(h: Hub, s: nat, packet: Event, verdict: Verdict, bytes: seq<Byte>, io: Io)
    requires |bytes| == BUFFER_SIZE && Word(bytes, 0) <= BUFFER_SIZE && s < |h.slots| && Open(h.slots[s])
    requires packet == Packet(s, Word(bytes, 2), Word(bytes, 4), Word(bytes, 0), bytes[6..22])
    requires Handles(verdict) && Gate(h.slots[s], packet.ty, packet.size) == verdict
    ensures Final(h, [packet]) == if ActOf(verdict, Word(bytes, 4), io) == Shakes
                                  then Handshake(h, s, Word(bytes, 0), bytes[6..22]) else h
    ensures HandlerRuns(Log(h, [packet])) == Invoked(s, verdict)
    ensures verdict.Run? && verdict.ty != AUTH_TYPE ==> h.slots[s].auth
  {
    hide Handshake, Final, Log, HandlerRuns, Word;
    HandledEvents(h, packet);
  }

  lemma ReceivedIs(c: Client)
    requires c.Receiving()
    ensures c.rcvread <= c.rcvbuf.Length && c.received == Concat(c.consumed) + c.Pending()
  {
  }

  /** The stream received so far grows by what arrives. */
  lemma StreamGrows(i: Schedules.Inward, w: Schedules.Inward, io: Io)
    requires |i.pending| <= BUFFER_SIZE
    requires var stream := i.pending + BroughtNow(io, |i.pending|);
             || (w.consumed == i.consumed && w.pending == stream)
             || (HeadStands(stream)
                 && w.consumed == i.consumed + [stream[..Word(stream, 0) + 2]]
                 && w.pending == stream[Word(stream, 0) + 2..])
    ensures Concat(w.consumed) + w.pending == Concat(i.consumed) + i.pending + BroughtNow(io, |i.pending|)
  {
    hide BroughtNow, Word;
    var stream := i.pending + BroughtNow(io, |i.pending|);
    AppendAssoc(Concat(i.consumed), i.pending, BroughtNow(io, |i.pending|));
    if w.consumed != i.consumed {
      var n := Word(stream, 0) + 2;
      ConcatOne(i.consumed, stream[..n]);
      AppendAssoc(Concat(i.consumed), stream[..n], stream[n..]);
      assert stream[..n] + stream[n..] == stream;
    }
  }

  lemma FootprintHas(c: Client)
    ensures c.Footprint() == {c, c.rcvbuf, c.sndbuf, c.inbuf, c.inbuf.buffer, c.outbuf, c.outbuf.buffer}
  {
  }

  lemma OwnParts(c: Client)
    ensures c !in c.Parts()
  {
  }

  lemma FreshAreValid(cs: seq<Client>)
    requires forall i :: 0 <= i < |cs| ==> cs[i].Fresh()
    ensures AllValid(cs) && AllIdle(cs)
  {
    hide Client.Receiving, Client.Sending, Client.Unused, ServerPacket.Valid;
  }

  lemma FreshIsClosed(c: Client)
    requires c.Fresh()
    ensures c.ClientSocket < 0
  {
  }

  lemma FreshViews(c: Client)
    requires c.Fresh()
    ensures c.Valid() && c.View() == CLOSED_SESSION
  {
  }

  lemma AreDistinct(cs: seq<Client>)
    requires Apart(cs)
    ensures forall i, j :: 0 <= i < j < |cs| ==> cs[i] != cs[j]
  {
    forall i, j | 0 <= i < j < |cs| ensures cs[i] != cs[j] {
      assert cs[i] in cs[i].Footprint();
    }
  }

  lemma ApartAppend(cs: seq<Client>, c: Client)
    requires Apart(cs) && forall i :: 0 <= i < |cs| ==> cs[i].Footprint() !! c.Footprint()
    ensures Apart(cs + [c])
  {
  }

  method NewSlot(garbage: bool) returns (c: Client)
    ensures c.Fresh() && c.Layout() && c.lastHeartBeat == 0 && ValueOf(c) == Reuse.Vacant() && fresh(c.Footprint())
  {
    hide Client.Receiving, Client.Sending;
    c := new Client(garbage);
    Reuse.VacantIs(c);
  }

  method MakeSlots(size: nat, garbage: bool) returns (cs: seq<Client>)
    ensures |cs| == size && Apart(cs)
    ensures forall i :: 0 <= i < |cs| ==> fresh(cs[i].Footprint())
    ensures forall i :: 0 <= i < |cs| ==> cs[i].Fresh() && cs[i].Layout() && cs[i].lastHeartBeat == 0
    ensures forall i :: 0 <= i < |cs| ==> ValueOf(cs[i]) == Reuse.Vacant()
  {
    hide Client.Fresh, Client.Layout, ValueOf;
    cs := [];
    while |cs| < size
      invariant |cs| <= size && Apart(cs)
      invariant forall i :: 0 <= i < |cs| ==> fresh(cs[i].Footprint())
      invariant forall i :: 0 <= i < |cs| ==> cs[i].Fresh() && cs[i].Layout() && cs[i].lastHeartBeat == 0
      invariant forall i :: 0 <= i < |cs| ==> ValueOf(cs[i]) == Reuse.Vacant()
    {
      var c := NewSlot(garbage);
      ApartAppend(cs, c);
      cs := cs + [c];
    }
  }

  lemma FirstFreeIs(slots: seq<Session>, f: nat)
    requires f <= |slots| && forall i :: 0 <= i < f ==> Open(slots[i])
    requires f < |slots| ==> !Open(slots[f])
    ensures FirstFree(slots) == f
  {
  }

  /** The packet object and the slots during the broadcast loop. */
  datatype Turn = Turn(cur: Image, boxes: seq<Outbox>)

  /** The first `n` turns of the loop. */
  ghost function Turns(im: Image, boxes: seq<Outbox>, slots: seq<Session>, n: nat): (r: Turn)
    requires Sound(im) && n <= |boxes| == |slots|
    ensures Sound(r.cur) && |r.boxes| == |boxes|
  {
    if n == 0 then Turn(im, boxes)
    else
      var before := Turns(im, boxes, slots, n - 1);
      if Open(slots[n - 1]) then
        Turn(AfterSend(before.cur), before.boxes[n - 1 := Gain(before.boxes[n - 1], before.cur)])
      else before
  }

  /** Every turn sends the packet as the sends before it left it, and emits the same frame. */
  lemma {:induction false} TurnsFollow(im: Image, boxes: seq<Outbox>, slots: seq<Session>, n: nat)
    requires Sound(im) && im.off == im.size && n <= |boxes| == |slots|
    requires Room(im, CountOpen(slots[..n]))
    ensures SentSoFar(im, Turns(im, boxes, slots, n).cur, CountOpen(slots[..n]))
    ensures forall j :: 0 <= j < |boxes| ==>
                          Turns(im, boxes, slots, n).boxes[j] ==
                          if j < n && Open(slots[j]) then Gain(boxes[j], im) else boxes[j]
    decreases n
  {
    hide PadFits, Emitted, EntriesOf, AfterSend, Resendable, FrameOf;
    if n > 0 {
      assert slots[..n][..n - 1] == slots[..n - 1];
      TurnsFollow(im, boxes, slots, n - 1);
      if Open(slots[n - 1]) {
        var before := Turns(im, boxes, slots, n - 1);
        NextSend(im, before.cur, CountOpen(slots[..n - 1]));
        assert Gain(boxes[n - 1], before.cur) == Gain(boxes[n - 1], im);
      }
    }
  }

  lemma CountBefore(slots: seq<Session>, n: nat)
    requires n < |slots| && Open(slots[n])
    ensures CountOpen(slots[..n]) + 1 <= CountOpen(slots)
  {
    CountPrefix(slots, n + 1);
    assert slots[..n + 1][..n] == slots[..n];
  }

  lemma {:induction false} TurnFits(im: Image, boxes: seq<Outbox>, slots: seq<Session>, n: nat)
    requires Sound(im) && im.off == im.size && n < |boxes| == |slots| && Open(slots[n])
    requires Room(im, CountOpen(slots))
    ensures var cur := Turns(im, boxes, slots, n).cur;
            Sendable(cur.size) ==> PadFits(cur.off, cur.size - 2)
  {
    hide SentSoFar, PadFits, Gain, CountOpen, Emitted, EntriesOf, Sound;
    var k := CountOpen(slots[..n]);
    CountBefore(slots, n);
    assert Room(im, k + 1) && Room(im, k);
    TurnsFollow(im, boxes, slots, n);
    NextSend(im, Turns(im, boxes, slots, n).cur, k);
  }

  lemma TurnsGain(im: Image, boxes: seq<Outbox>, slots: seq<Session>, n: nat)
    requires Sound(im) && im.off == im.size && n == |boxes| == |slots|
    requires Room(im, CountOpen(slots))
    ensures forall j :: 0 <= j < |boxes| ==>
                          Turns(im, boxes, slots, n).boxes[j] ==
                          if Open(slots[j]) then Gain(boxes[j], im) else boxes[j]
  {
    assert slots[..n] == slots;
    TurnsFollow(im, boxes, slots, n);
  }
}
