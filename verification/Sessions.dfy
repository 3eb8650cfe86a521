/**
 * The connection table on values: which slots are open, the index of open slots, who is
 * authenticated with which key, and what may run a packet handler, over whole runs.
 */
module Sessions {
  import opened Bytes

  /** The packet type of the handshake, the only one an unauthenticated client may send. */
  const AUTH_TYPE: nat := 0

  /** Entries of the handler table. */
  const TABLE_SIZE: nat := 6

  /** The size of a handshake request. */
  const HANDSHAKE_SIZE: nat := 0x20

  datatype Pair = Pair(iv: seq<Byte>, key: seq<Byte>)

  datatype Session = Session(socket: int, todc: bool, auth: bool, pair: Pair)

  /** What the buffers hold before authentication. */
  const NO_PAIR: Pair := Pair(Zeros(16), Zeros(32))

  const CLOSED_SESSION: Session := Session(-1, false, false, NO_PAIR)

  // ---------------------------------------------------------------- the gate

  datatype Verdict = Ignored | Refused | Run(ty: nat) | WildCall(ty: nat)

  /**
   * What happens to a packet before any handler. The bound lets the type one past the table
   * through: `WildCall` is a call through memory behind the table.
   */
  function Gate(s: Session, ty: nat, size: nat): Verdict {
    if s.todc then Ignored
    else if s.auth && size < 16 then Ignored
    else if ty > TABLE_SIZE || (!s.auth && ty != AUTH_TYPE) then Refused
    else if ty < TABLE_SIZE then Run(ty)
    else WildCall(ty)
  }

  /** The gate in plain numbers: a marked client and a short body are ignored, and each type has its rule. */
  lemma GateIs(s: Session, ty: nat, size: nat)
    ensures Gate(s, ty, size) == Run(ty) <==> !s.todc && ty < 6 && if s.auth then size >= 16 else ty == 0
    ensures Gate(s, ty, size) == WildCall(ty) <==> !s.todc && ty == 6 && s.auth && size >= 16
    ensures Gate(s, ty, size) == Refused <==> !s.todc && if s.auth then size >= 16 && ty > 6 else ty != 0
    ensures Gate(s, ty, size) == Ignored <==> s.todc || (s.auth && size < 16)
  {
  }

  /** A packet of this verdict reaches a handler, or memory behind the handler table. */
  predicate Handles(v: Verdict) {
    v.Run? || v.WildCall?
  }

  // ---------------------------------------------------------------- the table

  /** `born` and `clock` only record the order of the accepts. */
  datatype Hub = Hub(slots: seq<Session>, index: seq<nat>, keys: seq<Pair>, born: seq<nat>, clock: nat)

  predicate Open(s: Session) {
    s.socket >= 0
  }

  function FirstFree(slots: seq<Session>): (f: nat)
    ensures f <= |slots|
    ensures f < |slots| ==> !Open(slots[f])
    ensures forall i :: 0 <= i < f ==> Open(slots[i])
  {
    if slots == [] || !Open(slots[0]) then 0 else 1 + FirstFree(slots[1..])
  }

  function CountOpen(slots: seq<Session>): nat {
    if slots == [] then 0
    else CountOpen(slots[..|slots| - 1]) + (if Open(slots[|slots| - 1]) then 1 else 0)
  }

  /** The index without slot `s`, order kept: the compaction loop. */
  function Without(index: seq<nat>, s: nat): (r: seq<nat>)
    ensures |r| <= |index|
  {
    if index == [] then []
    else
      var n := |index| - 1;
      Without(index[..n], s) + (if index[n] == s then [] else [index[n]])
  }

  /** The first row of the key table with this iv. */
  function Lookup(keys: seq<Pair>, iv: seq<Byte>): (p: seq<Pair>)
    ensures |p| <= 1
    ensures p != [] ==> p[0] in keys && p[0].iv == iv
    ensures p == [] ==> forall k :: k in keys ==> k.iv != iv
  {
    if keys == [] then [] else if keys[0].iv == iv then [keys[0]] else Lookup(keys[1..], iv)
  }

  predicate Held(slots: seq<Session>, p: Pair) {
    exists i :: 0 <= i < |slots| && slots[i].pair == p
  }

  datatype Event =
    | Accept(socket: int)
    | Packet(s: nat, ty: nat, subtype: nat, size: nat, iv: seq<Byte>)
    | Drop(s: nat)
    | Reap(s: nat)
    | NewKey(pair: Pair)

  datatype Note = Opened(s: nat) | Authed(s: nat) | Ran(s: nat, ty: nat) | Marked(s: nat) | Closed(s: nat)

  function Accepted(h: Hub, socket: int): Hub {
    var f := FirstFree(h.slots);
    if f < |h.slots| && |h.born| == |h.slots| then
      Hub(h.slots[f := h.slots[f].(socket := socket)], h.index + [f], h.keys, h.born[f := h.clock], h.clock + 1)
    else h
  }

  function Mark(h: Hub, s: nat): Hub
    requires s < |h.slots|
  {
    h.(slots := h.slots[s := h.slots[s].(todc := true)])
  }

  /** `InitializeConnection`. */
  function Reinit(h: Hub, s: nat): Hub
    requires s < |h.slots|
  {
    h.(slots := h.slots[s := CLOSED_SESSION],
       index := if Open(h.slots[s]) then Without(h.index, s) else h.index)
  }

  /** The handshake handler. */
  function Handshake(h: Hub, s: nat, size: nat, iv: seq<Byte>): Hub
    requires s < |h.slots|
  {
    if h.slots[s].auth || size != HANDSHAKE_SIZE then h
    else
      var row := Lookup(h.keys, iv);
      if row == [] || Held(h.slots, row[0]) then Mark(h, s)
      else h.(slots := h.slots[s := h.slots[s].(auth := true, pair := row[0])])
  }

  /** One packet through the gate and, for the handshake, its handler. */
  function Handled(h: Hub, e: Event): (r: (Hub, seq<Note>))
    requires e.Packet? && e.s < |h.slots|
  {
    match Gate(h.slots[e.s], e.ty, e.size)
    case Ignored => (h, [])
    case Refused => (Mark(h, e.s), [Marked(e.s)])
    case WildCall(ty) => (h, [Ran(e.s, ty)])
    case Run(ty) =>
      if ty != AUTH_TYPE || e.subtype != 0 then (h, [Ran(e.s, ty)])
      else
        var h' := Handshake(h, e.s, e.size, e.iv);
        (h', [Ran(e.s, ty)] +
             (if h'.slots[e.s].todc then [Marked(e.s)] else []) +
             (if h'.slots[e.s].auth && !h.slots[e.s].auth then [Authed(e.s)] else []))
  }

  /** One event. Only open slots are served, and only marked ones are reinitialised. */
  function Step(h: Hub, e: Event): (r: (Hub, seq<Note>)) {
    match e
    case Accept(socket) =>
      if socket >= 0 && FirstFree(h.slots) < |h.slots| then (Accepted(h, socket), [Opened(FirstFree(h.slots))])
      else (h, [])
    case Packet(s, _, _, _, _) => if s < |h.slots| && Open(h.slots[s]) then Handled(h, e) else (h, [])
    case Drop(s) => if s < |h.slots| && Open(h.slots[s]) then (Mark(h, s), [Marked(s)]) else (h, [])
    case Reap(s) =>
      if s < |h.slots| && Open(h.slots[s]) && h.slots[s].todc then (Reinit(h, s), [Closed(s)]) else (h, [])
    case NewKey(pair) => (h.(keys := h.keys + [pair]), [])
  }

  function Final(h: Hub, events: seq<Event>): Hub {
    if events == [] then h else Step(Final(h, events[..|events| - 1]), events[|events| - 1]).0
  }

  /** Everything that happened, in order. */
  function Log(h: Hub, events: seq<Event>): seq<Note> {
    if events == [] then []
    else
      var before := events[..|events| - 1];
      Log(h, before) + Step(Final(h, before), events[|events| - 1]).1
  }

  lemma RunAppend(h: Hub, events: seq<Event>, e: Event)
    ensures Final(h, events + [e]) == Step(Final(h, events), e).0
    ensures Log(h, events + [e]) == Log(h, events) + Step(Final(h, events), e).1
  {
  }

  lemma OneEvent(h: Hub, e: Event)
    ensures Final(h, []) == h && Log(h, []) == []
    ensures Final(h, [e]) == Step(h, e).0 && Log(h, [e]) == Step(h, e).1
  {
  }

  /** A run continued is a run. */
  lemma {:induction false} RunConcat(h: Hub, a: seq<Event>, b: seq<Event>)
    ensures Final(h, a + b) == Final(Final(h, a), b)
    ensures Log(h, a + b) == Log(h, a) + Log(Final(h, a), b)
    decreases |b|
  {
    hide Step;
    if b == [] {
      assert a + b == a && Log(h, a) + [] == Log(h, a);
    } else {
      var n := |b| - 1;
      var before, e := b[..n], b[n];
      RunConcat(h, a, before);
      assert b == before + [e];
      AppendAssoc(a, before, [e]);
      hide Final, Log;
      RunAppend(h, a + before, e);
      RunAppend(Final(h, a), before, e);
      AppendAssoc(Log(h, a), Log(Final(h, a), before), Step(Final(h, a + before), e).1);
    }
  }

  /** The handler runs in a log, in order. */
  function HandlerRuns(log: seq<Note>): seq<Note> {
    if log == [] then []
    else
      var last := log[|log| - 1];
      HandlerRuns(log[..|log| - 1]) + (if last.Ran? then [last] else [])
  }

  lemma {:induction false} HandlerRunsConcat(a: seq<Note>, b: seq<Note>)
    ensures HandlerRuns(a + b) == HandlerRuns(a) + HandlerRuns(b)
    decreases |b|
  {
    if b == [] {
      assert a + b == a && HandlerRuns(a) + [] == HandlerRuns(a);
    } else {
      var n := |b| - 1;
      HandlerRunsConcat(a, b[..n]);
      assert (a + b)[..|a| + n] == a + b[..n];
      AppendAssoc(HandlerRuns(a), HandlerRuns(b[..n]), if b[n].Ran? then [b[n]] else []);
    }
  }

  /** A packet the gate lets through changes the table only as its handler does. */
  lemma HandledEvents(h: Hub, e: Event)
    requires e.Packet? && e.s < |h.slots| && Open(h.slots[e.s])
    requires Gate(h.slots[e.s], e.ty, e.size).Run? || Gate(h.slots[e.s], e.ty, e.size).WildCall?
    ensures Final(h, [e]) == if e.ty == AUTH_TYPE && e.subtype == 0 then Handshake(h, e.s, e.size, e.iv) else h
    ensures HandlerRuns(Log(h, [e])) == [Ran(e.s, e.ty)]
  {
    hide Handled, Handshake, FirstFree, Final, Log;
    OneEvent(h, e);
    HandledNotes(h, e);
    OneRun(Handled(h, e).1);
  }

  lemma HandledNotes(h: Hub, e: Event)
    requires e.Packet? && e.s < |h.slots|
    requires Gate(h.slots[e.s], e.ty, e.size).Run? || Gate(h.slots[e.s], e.ty, e.size).WildCall?
    ensures var (h', notes) := Handled(h, e);
            && h' == (if e.ty == AUTH_TYPE && e.subtype == 0 then Handshake(h, e.s, e.size, e.iv) else h)
            && notes != [] && notes[0] == Ran(e.s, e.ty)
            && forall i :: 1 <= i < |notes| ==> !notes[i].Ran?
  {
    hide Held, Lookup;
  }

  lemma {:induction false} OneRun(log: seq<Note>)
    requires log != [] && log[0].Ran? && forall i :: 1 <= i < |log| ==> !log[i].Ran?
    ensures HandlerRuns(log) == [log[0]]
  {
    if |log| > 1 {
      OneRun(log[..|log| - 1]);
    }
  }

  lemma ReapEvent(h: Hub, s: nat)
    requires s < |h.slots| && Open(h.slots[s]) && h.slots[s].todc
    ensures Final(h, [Reap(s)]) == Reinit(h, s) && HandlerRuns(Log(h, [Reap(s)])) == []
  {
    OneEvent(h, Reap(s));
  }

  /** A packet the gate refuses and a dropped connection both only mark the slot. */
  lemma MarkingEvents(h: Hub, s: nat, e: Event)
    requires s < |h.slots| && Open(h.slots[s])
    requires e == Drop(s) || (e.Packet? && e.s == s && Gate(h.slots[s], e.ty, e.size) == Refused)
    ensures Final(h, [e]) == Mark(h, s) && HandlerRuns(Log(h, [e])) == []
  {
    OneEvent(h, e);
  }

  lemma RunsConcat(h: Hub, a: seq<Event>, b: seq<Event>)
    ensures Final(h, a + b) == Final(Final(h, a), b)
    ensures HandlerRuns(Log(h, a + b)) == HandlerRuns(Log(h, a)) + HandlerRuns(Log(Final(h, a), b))
  {
    RunConcat(h, a, b);
    HandlerRunsConcat(Log(h, a), Log(Final(h, a), b));
  }

  lemma NoRuns()
    ensures HandlerRuns([]) == []
  {
  }

  /** The event of a connection that failed, if it did. */
  function Drops(s: nat, mark: bool): seq<Event> {
    if mark then [Drop(s)] else []
  }

  lemma DropsMark(h: Hub, s: nat, mark: bool)
    requires s < |h.slots| && Open(h.slots[s]) && (h.slots[s].todc ==> mark)
    ensures Final(h, Drops(s, mark)) == h.(slots := h.slots[s := h.slots[s].(todc := mark)])
    ensures HandlerRuns(Log(h, Drops(s, mark))) == []
  {
    OneEvent(h, Drop(s));
    if !mark {
      assert h.slots[s := h.slots[s].(todc := mark)] == h.slots;
    }
  }

  lemma AcceptEvent(h: Hub, socket: nat)
    requires |h.born| == |h.slots|
    ensures Final(h, [Accept(socket)]) == Accepted(h, socket) && HandlerRuns(Log(h, [Accept(socket)])) == []
  {
    OneEvent(h, Accept(socket));
  }

  /** The server before its first connection. */
  function Start(size: nat, keys: seq<Pair>): Hub {
    Hub(seq(size, _ => CLOSED_SESSION), [], keys, seq(size, _ => 0), 0)
  }

  // ---------------------------------------------------------------- the invariant

  /** The index lists exactly the open slots, once each, in the order they were accepted. */
  predicate IndexAgrees(h: Hub) {
    && |h.born| == |h.slots|
    && (forall i :: 0 <= i < |h.index| ==> h.index[i] < |h.slots| && Open(h.slots[h.index[i]]))
    && (forall s :: 0 <= s < |h.slots| && Open(h.slots[s]) ==> s in h.index && h.born[s] < h.clock)
    && (forall i, j :: 0 <= i < j < |h.index| ==> h.born[h.index[i]] < h.born[h.index[j]])
  }

  /** The pair an authenticated slot holds: a real one, and the first row of the table with its iv. */
  predicate Granted(h: Hub, pair: Pair) {
    pair != NO_PAIR && Lookup(h.keys, pair.iv) == [pair]
  }

  /** No two slots are authenticated with the same pair, and every pair comes from the table. */
  predicate KeysExclusive(h: Hub) {
    && (forall s :: 0 <= s < |h.slots| && !h.slots[s].auth ==> h.slots[s].pair == NO_PAIR)
    && (forall s :: 0 <= s < |h.slots| && h.slots[s].auth ==> Granted(h, h.slots[s].pair))
    && (forall s, t :: 0 <= s < t < |h.slots| && h.slots[s].auth && h.slots[t].auth ==>
                         h.slots[s].pair != h.slots[t].pair)
  }

  predicate ClosedAreBlank(h: Hub) {
    forall s :: 0 <= s < |h.slots| && !Open(h.slots[s]) ==> h.slots[s] == CLOSED_SESSION
  }

  predicate HubInv(h: Hub) {
    IndexAgrees(h) && KeysExclusive(h) && ClosedAreBlank(h)
  }

  lemma {:induction false} WithoutKeeps(index: seq<nat>, s: nat)
    ensures forall x :: x in Without(index, s) <==> x in index && x != s
    ensures s !in index ==> Without(index, s) == index
  {
    if index != [] {
      var n := |index| - 1;
      WithoutKeeps(index[..n], s);
      assert index == index[..n] + [index[n]];
    }
  }

  /** Compaction keeps the order by birth. */
  lemma {:induction false} WithoutOrdered(index: seq<nat>, s: nat, born: seq<nat>)
    requires forall i :: 0 <= i < |index| ==> index[i] < |born|
    requires forall i, j :: 0 <= i < j < |index| ==> born[index[i]] < born[index[j]]
    ensures forall i :: 0 <= i < |Without(index, s)| ==> Without(index, s)[i] < |born|
    ensures forall i, j :: 0 <= i < j < |Without(index, s)| ==>
                             born[Without(index, s)[i]] < born[Without(index, s)[j]]
  {
    if index != [] {
      var n := |index| - 1;
      WithoutOrdered(index[..n], s, born);
      WithoutKeeps(index[..n], s);
      var r := Without(index[..n], s);
      forall i | 0 <= i < |r| ensures born[r[i]] < born[index[n]] {
        assert r[i] in index[..n];
      }
    }
  }

  lemma AcceptKeepsIndex(h: Hub, socket: int)
    requires IndexAgrees(h) && socket >= 0
    ensures IndexAgrees(Accepted(h, socket))
  {
    var f := FirstFree(h.slots);
    if f < |h.slots| {
      var h' := Accepted(h, socket);
      assert f !in h.index;
      forall s | 0 <= s < |h'.slots| && Open(h'.slots[s]) ensures s in h'.index {
        assert s == f || s in h.index;
      }
      forall i, j | 0 <= i < j < |h'.index| ensures h'.born[h'.index[i]] < h'.born[h'.index[j]] {
        assert h.index[i] in h.index;
      }
    }
  }

  lemma AcceptKeepsInv(h: Hub, socket: int)
    requires HubInv(h) && socket >= 0
    ensures HubInv(Accepted(h, socket))
  {
    AcceptKeepsIndex(h, socket);
    hide IndexAgrees;
  }

  lemma ReinitKeepsIndex(h: Hub, s: nat)
    requires IndexAgrees(h) && s < |h.slots|
    ensures IndexAgrees(Reinit(h, s))
  {
    WithoutKeeps(h.index, s);
    WithoutOrdered(h.index, s, h.born);
    hide Without;
    var h' := Reinit(h, s);
    forall i | 0 <= i < |h'.index| ensures h'.index[i] < |h'.slots| && Open(h'.slots[h'.index[i]]) {
      assert h'.index[i] in h.index;
    }
  }

  lemma ReinitKeepsInv(h: Hub, s: nat)
    requires HubInv(h) && s < |h.slots|
    ensures HubInv(Reinit(h, s))
  {
    ReinitKeepsIndex(h, s);
    hide IndexAgrees;
  }

  lemma HandshakeKeepsKeys(h: Hub, s: nat, size: nat, iv: seq<Byte>)
    requires KeysExclusive(h) && s < |h.slots|
    ensures KeysExclusive(Handshake(h, s, size, iv))
  {
    var h' := Handshake(h, s, size, iv);
    if !h.slots[s].auth && h'.slots[s].auth {
      assert h.slots[s].pair == NO_PAIR;
      assert forall t :: 0 <= t < |h.slots| ==> h.slots[t].pair != h'.slots[s].pair;
    }
  }

  lemma HandshakeKeepsInv(h: Hub, s: nat, size: nat, iv: seq<Byte>)
    requires HubInv(h) && s < |h.slots| && Open(h.slots[s])
    ensures HubInv(Handshake(h, s, size, iv))
  {
    HandshakeKeepsKeys(h, s, size, iv);
    hide KeysExclusive, Lookup, Held;
    assert Handshake(h, s, size, iv).index == h.index;
  }

  lemma MarkKeepsInv(h: Hub, s: nat)
    requires HubInv(h) && s < |h.slots| && Open(h.slots[s])
    ensures HubInv(Mark(h, s))
  {
  }

  /** A row added behind the others never changes what an iv of the table is looked up as. */
  lemma {:induction false} LookupStays(keys: seq<Pair>, more: Pair, iv: seq<Byte>)
    requires Lookup(keys, iv) != []
    ensures Lookup(keys + [more], iv) == Lookup(keys, iv)
  {
    if keys[0].iv != iv {
      LookupStays(keys[1..], more, iv);
      assert (keys + [more])[1..] == keys[1..] + [more];
    }
  }

  lemma NewKeyKeepsInv(h: Hub, pair: Pair)
    requires HubInv(h)
    ensures HubInv(h.(keys := h.keys + [pair]))
  {
    forall s | 0 <= s < |h.slots| && h.slots[s].auth
      ensures Granted(h.(keys := h.keys + [pair]), h.slots[s].pair)
    {
      LookupStays(h.keys, pair, h.slots[s].pair.iv);
    }
  }

  lemma StepKeepsInv(h: Hub, e: Event)
    requires HubInv(h)
    ensures HubInv(Step(h, e).0) && |Step(h, e).0.slots| == |h.slots|
  {
    hide HubInv, FirstFree, Lookup, Held, Without;
    match e
    case Accept(socket) => if socket >= 0 { AcceptKeepsInv(h, socket); }
    case Packet(s, _, _, size, iv) =>
      if s < |h.slots| && Open(h.slots[s]) {
        HandshakeKeepsInv(h, s, size, iv);
        MarkKeepsInv(h, s);
      }
    case Drop(s) => if s < |h.slots| && Open(h.slots[s]) { MarkKeepsInv(h, s); }
    case Reap(s) => if s < |h.slots| { ReinitKeepsInv(h, s); }
    case NewKey(pair) => NewKeyKeepsInv(h, pair);
  }

  lemma StartKeepsInv(size: nat, keys: seq<Pair>)
    ensures HubInv(Start(size, keys)) && Start(size, keys).index == []
    ensures Start(size, keys).slots == seq(size, _ => CLOSED_SESSION)
  {
  }

  lemma {:induction false} FinalKeepsInv(h: Hub, events: seq<Event>)
    requires HubInv(h)
    ensures HubInv(Final(h, events)) && |Final(h, events).slots| == |h.slots|
  {
    if events != [] {
      FinalKeepsInv(h, events[..|events| - 1]);
      StepKeepsInv(Final(h, events[..|events| - 1]), events[|events| - 1]);
    }
  }

  /** Over every run: the index agrees with the slots and no key is held twice. */
  lemma RunsKeepInv(size: nat, keys: seq<Pair>, events: seq<Event>)
    ensures HubInv(Final(Start(size, keys), events))
    ensures |Final(Start(size, keys), events).slots| == size
  {
    StartKeepsInv(size, keys);
    FinalKeepsInv(Start(size, keys), events);
  }

  // ---------------------------------------------------------------- counting

  function OpenSet(slots: seq<Session>): set<nat> {
    set s: nat | s < |slots| && Open(slots[s])
  }

  lemma {:induction false} CountIsCardinality(slots: seq<Session>)
    ensures CountOpen(slots) == |OpenSet(slots)| <= |slots|
    ensures CountOpen(slots) == |slots| ==> forall s :: 0 <= s < |slots| ==> Open(slots[s])
  {
    if slots != [] {
      var n := |slots| - 1;
      CountIsCardinality(slots[..n]);
      if Open(slots[n]) {
        assert OpenSet(slots) == OpenSet(slots[..n]) + {n};
      } else {
        assert OpenSet(slots) == OpenSet(slots[..n]);
      }
    }
  }

  lemma {:induction false} CountPrefix(slots: seq<Session>, n: nat)
    requires n <= |slots|
    ensures CountOpen(slots[..n]) <= CountOpen(slots)
    decreases |slots|
  {
    if n == |slots| {
      assert slots[..n] == slots;
    } else {
      assert slots[..|slots| - 1][..n] == slots[..n];
      CountPrefix(slots[..|slots| - 1], n);
    }
  }

  function Elements(xs: seq<nat>): set<nat> {
    set x | x in xs
  }

  lemma {:induction false} DistinctCardinality(xs: seq<nat>)
    requires forall i, j :: 0 <= i < j < |xs| ==> xs[i] != xs[j]
    ensures |Elements(xs)| == |xs|
  {
    if xs == [] {
      assert Elements(xs) == {};
    } else {
      var n := |xs| - 1;
      DistinctCardinality(xs[..n]);
      assert xs == xs[..n] + [xs[n]];
      assert Elements(xs) == Elements(xs[..n]) + {xs[n]};
      assert xs[n] !in Elements(xs[..n]);
    }
  }

  /** The index names no slot twice. */
  lemma IndexIsDistinct(h: Hub)
    requires IndexAgrees(h)
    ensures forall i, j :: 0 <= i < j < |h.index| ==> h.index[i] != h.index[j]
  {
  }

  /** The length of the index is the number of open slots, and there is room for another accept. */
  lemma IndexCounts(h: Hub)
    requires HubInv(h)
    ensures |h.born| == |h.slots|
    ensures |h.index| == CountOpen(h.slots) <= |h.slots|
    ensures |h.index| < |h.slots| <==> FirstFree(h.slots) < |h.slots|
  {
    CountIsCardinality(h.slots);
    IndexIsDistinct(h);
    DistinctCardinality(h.index);
    assert Elements(h.index) == OpenSet(h.slots);
    if FirstFree(h.slots) < |h.slots| {
      assert !Open(h.slots[FirstFree(h.slots)]);
    } else {
      AllOpen(h.slots);
    }
  }

  lemma {:induction false} AllOpen(slots: seq<Session>)
    requires forall s :: 0 <= s < |slots| ==> Open(slots[s])
    ensures CountOpen(slots) == |slots|
  {
    if slots != [] {
      AllOpen(slots[..|slots| - 1]);
    }
  }

  // ---------------------------------------------------------------- keys

  /**
   * The handshake succeeds exactly for an unauthenticated client that sends a request of the
   * right size with an iv of the key table whose pair no slot holds.
   */
  lemma HandshakeSucceedsIff(h: Hub, s: nat, size: nat, iv: seq<Byte>)
    requires HubInv(h) && s < |h.slots| && !h.slots[s].auth
    ensures Handshake(h, s, size, iv).slots[s].auth <==>
            && size == HANDSHAKE_SIZE
            && Lookup(h.keys, iv) != []
            && forall t :: 0 <= t < |h.slots| ==> h.slots[t].pair != Lookup(h.keys, iv)[0]
  {
  }

  /**
   * Any other request of an unauthenticated client that has the right size marks its slot and does
   * nothing else, for an unknown iv as for a held pair; one of another size does nothing at all.
   */
  lemma HandshakeRefusesIff(h: Hub, s: nat, size: nat, iv: seq<Byte>)
    requires HubInv(h) && s < |h.slots|
    ensures h.slots[s].auth || size != 0x20 ==> Handshake(h, s, size, iv) == h
    ensures !h.slots[s].auth && size == 0x20 ==>
              var known := exists i :: 0 <= i < |h.keys| && h.keys[i].iv == iv;
              Handshake(h, s, size, iv) ==
              if known && (forall t :: 0 <= t < |h.slots| ==> h.slots[t].pair != h.keys[FirstKey(h.keys, iv)])
              then h.(slots := h.slots[s := h.slots[s].(auth := true, pair := h.keys[FirstKey(h.keys, iv)])])
              else h.(slots := h.slots[s := h.slots[s].(todc := true)])
  {
    LookupIsFirst(h.keys, iv);
  }

  /** The number of the first row with this iv, or the number of rows. */
  function FirstKey(keys: seq<Pair>, iv: seq<Byte>): (i: nat)
    ensures i <= |keys| && forall j :: 0 <= j < i ==> keys[j].iv != iv
    ensures i < |keys| ==> keys[i].iv == iv
  {
    if keys == [] || keys[0].iv == iv then 0 else 1 + FirstKey(keys[1..], iv)
  }

  lemma {:induction false} LookupIsFirst(keys: seq<Pair>, iv: seq<Byte>)
    ensures Lookup(keys, iv) == if FirstKey(keys, iv) < |keys| then [keys[FirstKey(keys, iv)]] else []
  {
    if keys != [] && keys[0].iv != iv {
      LookupIsFirst(keys[1..], iv);
    }
  }

  /** While its holder lives a pair is refused; once the holder's slot is reinitialised it is not. */
  predicate HandsOn(h: Hub, holder: nat, s: nat)
    requires holder < |h.slots| && s < |h.slots|
  {
    var pair := h.slots[holder].pair;
    && Handshake(h, s, HANDSHAKE_SIZE, pair.iv) == Mark(h, s)
    && Handshake(Reinit(h, holder), s, HANDSHAKE_SIZE, pair.iv)
    == Reinit(h, holder).(slots := h.slots[holder := CLOSED_SESSION][s := h.slots[s].(auth := true, pair := pair)])
  }

  lemma HolderHandsOn(h: Hub, holder: nat, s: nat)
    requires HubInv(h) && holder < |h.slots| && s < |h.slots|
    requires h.slots[holder].auth && !h.slots[s].auth
    ensures HandsOn(h, holder, s)
  {
    var pair := h.slots[holder].pair;
    var h' := Reinit(h, holder);
    assert Granted(h, pair) && Held(h.slots, pair);
    forall t | 0 <= t < |h'.slots| ensures h'.slots[t].pair != pair {
      if t != holder && h.slots[t].auth {
        assert h.slots[t].pair != pair;
      }
    }
    assert !Held(h'.slots, pair);
  }

  /** So it is in every state of every run, for every holder and every slot not authenticated. */
  lemma PairBecomesUsable(size: nat, keys: seq<Pair>, events: seq<Event>)
    ensures var h := Final(Start(size, keys), events);
            forall holder: nat, s: nat ::
              holder < |h.slots| && s < |h.slots| && h.slots[holder].auth && !h.slots[s].auth ==>
                HandsOn(h, holder, s)
  {
    hide Final, HubInv, HandsOn;
    var h := Final(Start(size, keys), events);
    RunsKeepInv(size, keys, events);
    forall holder: nat, s: nat
      | holder < |h.slots| && s < |h.slots| && h.slots[holder].auth && !h.slots[s].auth
      ensures HandsOn(h, holder, s)
    {
      HolderHandsOn(h, holder, s);
    }
  }

  /** The three events that pass the pair of `holder` on to `s`. */
  function Passing(h: Hub, holder: nat, s: nat): seq<Event>
    requires holder < |h.slots|
  {
    [Drop(holder), Reap(holder), Packet(s, AUTH_TYPE, 0, HANDSHAKE_SIZE, h.slots[holder].pair.iv)]
  }

  lemma PassingSteps(h: Hub, holder: nat, s: nat)
    requires HubInv(h) && holder < |h.slots| && s < |h.slots|
    requires Open(h.slots[holder]) && h.slots[holder].auth
    requires Open(h.slots[s]) && !h.slots[s].auth && !h.slots[s].todc
    ensures var es := Passing(h, holder, s);
            Step(Step(Step(h, es[0]).0, es[1]).0, es[2]).0.slots
            == h.slots[holder := CLOSED_SESSION][s := h.slots[s].(auth := true, pair := h.slots[holder].pair)]
  {
    hide HubInv, Handshake, Without, Lookup;
    HolderHandsOn(h, holder, s);
    assert Reinit(Mark(h, holder), holder) == Reinit(h, holder);
  }

  /**
   * The same as events at the end of any run: when the holder has been dropped and reinitialised,
   * its iv authenticates any open slot that is not marked, and no other slot changes.
   */
  lemma PairChangesHands(size: nat, keys: seq<Pair>, events: seq<Event>, holder: nat, s: nat)
    requires var h := Final(Start(size, keys), events);
             && holder < |h.slots| && s < |h.slots| && Open(h.slots[holder]) && h.slots[holder].auth
             && Open(h.slots[s]) && !h.slots[s].auth && !h.slots[s].todc
    ensures var h := Final(Start(size, keys), events);
            Final(Start(size, keys), events + Passing(h, holder, s)).slots
            == h.slots[holder := CLOSED_SESSION][s := h.slots[s].(auth := true, pair := h.slots[holder].pair)]
  {
    hide HubInv, Final, Step;
    var start := Start(size, keys);
    var h := Final(start, events);
    var es := Passing(h, holder, s);
    RunsKeepInv(size, keys, events);
    PassingSteps(h, holder, s);
    RunAppend(start, events, es[0]);
    RunAppend(start, events + [es[0]], es[1]);
    RunAppend(start, events + [es[0]] + [es[1]], es[2]);
    assert events + [es[0]] + [es[1]] + [es[2]] == events + es;
  }

  // ---------------------------------------------------------------- gating over whole runs

  /** `note` was made since slot `s` was last opened. */
  predicate Since(log: seq<Note>, note: Note, s: nat) {
    log != [] &&
    var last := log[|log| - 1];
    last == note || (last != Opened(s) && Since(log[..|log| - 1], note, s))
  }

  predicate AuthedSince(log: seq<Note>, s: nat) {
    Since(log, Authed(s), s)
  }

  predicate MarkedSince(log: seq<Note>, s: nat) {
    Since(log, Marked(s), s)
  }

  /** `Since` in plain words. */
  lemma {:induction false} SinceMeans(log: seq<Note>, note: Note, s: nat)
    ensures Since(log, note, s) <==>
            exists q :: 0 <= q < |log| && log[q] == note && forall k :: q < k < |log| ==> log[k] != Opened(s)
  {
    if log != [] {
      var n := |log| - 1;
      SinceMeans(log[..n], note, s);
      if Since(log, note, s) && log[n] != note {
        var q :| 0 <= q < n && log[..n][q] == note && forall k :: q < k < n ==> log[..n][k] != Opened(s);
        assert forall k :: q < k < n ==> log[k] == log[..n][k];
        assert log[q] == note;
      }
      if q :| 0 <= q < |log| && log[q] == note && forall k :: q < k < |log| ==> log[k] != Opened(s) {
        if q < n {
          assert log[..n][q] == note;
        }
      }
    }
  }

  /** What every state of a run owes to the log so far. */
  predicate LogExplains(h: Hub, log: seq<Note>) {
    forall s :: 0 <= s < |h.slots| ==>
                  && (h.slots[s].auth ==> AuthedSince(log, s))
                  && (Open(h.slots[s]) && MarkedSince(log, s) ==> h.slots[s].todc)
  }

  /** Every handler run in the log was allowed when it happened. */
  predicate LogLegal(log: seq<Note>) {
    forall p :: 0 <= p < |log| && log[p].Ran? ==>
                  && (log[p].ty != AUTH_TYPE ==> AuthedSince(log[..p], log[p].s))
                  && !MarkedSince(log[..p], log[p].s)
  }

  lemma LegalAppend(log: seq<Note>, note: Note)
    requires LogLegal(log)
    requires note.Ran? ==> (note.ty != AUTH_TYPE ==> AuthedSince(log, note.s)) && !MarkedSince(log, note.s)
    ensures LogLegal(log + [note])
  {
    forall p | 0 <= p < |log| + 1 && (log + [note])[p].Ran?
      ensures (log + [note])[p].ty != AUTH_TYPE ==> AuthedSince((log + [note])[..p], (log + [note])[p].s)
      ensures !MarkedSince((log + [note])[..p], (log + [note])[p].s)
    {
      if p < |log| {
        assert (log + [note])[..p] == log[..p];
      } else {
        assert (log + [note])[..p] == log;
      }
    }
  }

  /** A note that fits a state change of its slot keeps the log an explanation of the state. */
  lemma ExplainAppend(h: Hub, h': Hub, log: seq<Note>, note: Note)
    requires LogExplains(h, log) && note.s < |h.slots| == |h'.slots|
    requires forall t :: 0 <= t < |h.slots| && t != note.s ==> h'.slots[t] == h.slots[t]
    requires match note
             case Opened(s) => !h'.slots[s].auth
             case Authed(s) => h'.slots[s].todc == h.slots[s].todc && Open(h'.slots[s]) == Open(h.slots[s])
             case Marked(s) => h'.slots[s].todc && h'.slots[s].auth == h.slots[s].auth
             case Ran(s, _) => h'.slots[s] == h.slots[s]
             case Closed(s) => h'.slots[s] == CLOSED_SESSION
    ensures LogExplains(h', log + [note])
  {
  }

  lemma PacketIsGated(h: Hub, e: Event, log: seq<Note>)
    requires e.Packet? && e.s < |h.slots| && Open(h.slots[e.s])
    requires LogExplains(h, log) && LogLegal(log)
    ensures LogExplains(Handled(h, e).0, log + Handled(h, e).1)
    ensures LogLegal(log + Handled(h, e).1)
  {
    var (h', notes) := Handled(h, e);
    var verdict := Gate(h.slots[e.s], e.ty, e.size);
    if verdict.Ignored? {
      assert log + notes == log;
    } else if verdict.Refused? {
      ExplainAppend(h, h', log, Marked(e.s));
      LegalAppend(log, Marked(e.s));
    } else {
      var ran := Ran(e.s, verdict.ty);
      ExplainAppend(h, h, log, ran);
      LegalAppend(log, ran);
      if |notes| == 1 {
        assert notes == [ran] && h'.slots == h.slots;
      } else {
        var second := notes[1];
        assert notes == [ran] + [second];
        AppendAssoc(log, [ran], [second]);
        ExplainAppend(h, h', log + [ran], second);
        LegalAppend(log + [ran], second);
      }
    }
  }

  lemma StepIsGated(h: Hub, e: Event, log: seq<Note>)
    requires HubInv(h) && LogExplains(h, log) && LogLegal(log)
    ensures LogExplains(Step(h, e).0, log + Step(h, e).1)
    ensures LogLegal(log + Step(h, e).1)
  {
    var (h', notes) := Step(h, e);
    if notes == [] {
      assert log + notes == log && (h'.slots == h.slots || e.Packet?);
    }
    if e.Packet? && e.s < |h.slots| && Open(h.slots[e.s]) {
      PacketIsGated(h, e, log);
    } else if notes != [] {
      ExplainAppend(h, h', log, notes[0]);
      LegalAppend(log, notes[0]);
      assert notes == [notes[0]];
    }
  }

  /**
   * Over every run: a handler for a type other than the handshake runs on a slot only after a
   * successful handshake on that slot since it was opened, and no handler runs on a slot
   * between its disconnection and its next accept.
   */
  lemma {:induction false} RunsAreGated(size: nat, keys: seq<Pair>, events: seq<Event>)
    ensures LogLegal(Log(Start(size, keys), events))
    ensures LogExplains(Final(Start(size, keys), events), Log(Start(size, keys), events))
  {
    if events != [] {
      var before := events[..|events| - 1];
      RunsAreGated(size, keys, before);
      RunsKeepInv(size, keys, before);
      StepIsGated(Final(Start(size, keys), before), events[|events| - 1], Log(Start(size, keys), before));
    }
  }
}
