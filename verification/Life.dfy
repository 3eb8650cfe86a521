/**
 * Every open slot of a running server has come about by a schedule, from a slot that differs from a
 * brand-new one in nothing but the time of the next heartbeat and the old reply.
 */
module Lives {
  import opened Bytes
  import opened Packet
  import opened Outgoing
  import opened Sessions
  import opened Clients
  import opened Schedules
  import opened Reuse
  import opened Rounds
  import Chat
  import Servers

  predicate Lived(v: SlotState, from: SlotState, ops: seq<Op>) {
    Proper(from) && Alike(from, Occupied(Vacant())) && Terminates(from, ops) && v == Outcome(from, ops).0
  }

  ghost predicate Lives(v: SlotState) {
    exists from, ops :: Lived(v, from, ops)
  }

  /** Open slots have a schedule behind them, and closed ones are vacant but for those two things. */
  ghost predicate Sane(v: SlotState) {
    if Open(v.view) then Lives(v) else SameSides(v, Vacant())
  }

  ghost predicate AllSane(slots: seq<SlotState>) {
    AllProper(slots) && forall i :: 0 <= i < |slots| ==> Sane(slots[i])
  }

  // ---------------------------------------------------------------- one operation

  lemma LivesOn(v: SlotState, op: Op)
    requires Lives(v) && Proper(v) && (IsRepeat(op) ==> CanRepeat(v))
    ensures Lives(Effect(v, op).0)
  {
    hide Effect, Alike, CanRepeat, Sound;
    var from, ops :| Lived(v, from, ops);
    assert (ops + [op])[..|ops|] == ops;
    assert Lived(Effect(v, op).0, from, ops + [op]);
  }

  lemma LifeBegins(v: SlotState)
    requires Proper(v) && SameSides(v, Vacant())
    ensures Lives(Occupied(v)) && Open(Occupied(v).view)
  {
    hide Sound;
    assert Lived(Occupied(v), Occupied(v), []);
  }

  lemma OpensStay(v: SlotState, op: Op)
    requires Proper(v)
    ensures Open(Effect(v, op).0.view) == Open(v.view)
  {
    hide Fed, Flushed, Made, HeartBeat, AuthReply, Replied, AfterSend, Sound;
  }

  /** A broadcast leaves the reply packet sent once for every open slot. */
  lemma {:induction false} SharesLive(v: SlotState, im: Image, k: nat, n: nat)
    requires Sound(im) && Lives(Answered(v, im)) && Proper(v) && v.view.auth && Open(v.view)
    requires im.off == im.size && Room(im, n) && 1 <= k <= n
    ensures Lives(Answered(v, im).(reply := AfterSends(im, k)))
    ensures SentSoFar(im, AfterSends(im, k), k)
    decreases k
  {
    hide Lives, Replied, AfterSend, SentSoFar, PadFits, Emitted, EntriesOf, PadTo;
    assert Room(im, k) by { RoomBelow(im, k, n); }
    if k == 1 {
      FirstSent(im);
      assert AfterSends(im, 1) == AfterSend(AfterSends(im, 0)) == AfterSend(im);
      assert Answered(v, im).(reply := AfterSend(im)) == Answered(v, im);
    } else {
      SharesLive(v, im, k - 1, n);
      var w := Answered(v, im).(reply := AfterSends(im, k - 1));
      RoomBelow(im, k, n);
      NextSend(im, AfterSends(im, k - 1), k - 1);
      AnsweredIsProper(v, im);
      LivesOn(w, Share);
      assert Effect(w, Share).0 == w.(reply := AfterSends(im, k));
    }
  }

  lemma RoomBelow(im: Image, k: nat, n: nat)
    requires Room(im, n) && k <= n
    ensures Room(im, k)
  {
  }

  // ---------------------------------------------------------------- one turn

  lemma TransportLives(v: SlotState, io: Io)
    requires Lives(v) && Proper(v) && Open(v.view)
    ensures var (w, verdict) := Transported(v, io);
            && Lives(w) && Open(w.view)
            && (verdict.Run? && verdict.ty != AUTH_TYPE ==> w.view.auth)
  {
    hide Lives, Effect, Sound;
    var sent := if io.writable then Effect(v, Flush(io.toSend)).0 else v;
    EffectIsProper(v, Flush(io.toSend));
    LivesOn(v, Flush(io.toSend));
    LivesOn(sent, Feed(io.toRecv));
    OpensStay(v, Flush(io.toSend));
    OpensStay(sent, Feed(io.toRecv));
    JudgedIsAuthed(v, io);
  }

  /** A handler other than the handshake's runs for an authenticated slot only. */
  lemma JudgedIsAuthed(v: SlotState, io: Io)
    requires Proper(v)
    ensures var (w, verdict) := Transported(v, io); verdict.Run? && verdict.ty != AUTH_TYPE ==> w.view.auth
  {
    hide Transported, Servers.Presented, BroughtNow, Offered, HeadStands, SendFails, ReceiveFails, Word;
    TurnReceives(v, io);
    TransportLeaves([v], 0, io);
  }

  /** What the slot of the handler becomes. */
  lemma OwnLives(slots: seq<SlotState>, keys: seq<Pair>, s: nat, act: Act, io: Io)
    requires AllProper(slots) && s < |slots| && Lives(slots[s]) && Open(slots[s].view)
    requires |slots| < 4032 && Bounded(io) && !Hangs(act, slots[s].reply, io.calls, OpenSlots(slots))
    requires act.Builds? || act.Spreads? || act in {Relays, Repeats} ==> slots[s].view.auth
    ensures Lives(Acted(slots, keys, s, act, io)[s]) && Open(Acted(slots, keys, s, act, io)[s].view)
  {
    hide Lives, Sound, Made, Chat.Relayed, Chat.ReadMessage, Effect, Greeted, PadFits, OpenSlots, Answered, AfterSends;
    var v := slots[s];
    ActLeaves(slots, keys, s, act, io);
    match act
    case Nothing =>
    case Shakes => GreetingLives(v, slots, keys, io.rnd);
    case Beats => BeatLives(v, io.tick);
    case Builds(ty, subtype) => LivesOn(v, Reply(ty, subtype, io.calls));
    case Repeats => LivesOn(v, Again);
    case Spreads(ty, subtype) =>
      MadeInLockstep(ty, subtype, io.calls);
      SpeakingLives(slots, s, ty, subtype, io.calls);
    case Relays =>
      var subtype := Word(v.inward.shown, 4);
      if subtype < 3 {
        var m := Chat.ReadMessage(v.inward.shown, subtype);
        RelayIsReply(v, m);
        RelayHasRoom(v, subtype, slots);
        MadeInLockstep(Chat.CHAT_TYPE, Chat.SubtypeOf(m), Chat.CallsOf(m));
        SpeakingLives(slots, s, Chat.CHAT_TYPE, Chat.SubtypeOf(m), Chat.CallsOf(m));
      }
  }

  lemma RelayIsReply(v: SlotState, m: Chat.Message)
    ensures Chat.Relayed(m) == Made(Chat.CHAT_TYPE, Chat.SubtypeOf(m), Chat.CallsOf(m))
  {
    Chat.RelayedIsBuilt(m);
  }

  lemma RelayHasRoom(v: SlotState, subtype: nat, slots: seq<SlotState>)
    requires Proper(v) && subtype < 3 && |slots| < 4032
    ensures Room(Chat.Relayed(Chat.ReadMessage(v.inward.shown, subtype)), OpenSlots(slots))
  {
    hide Chat.Relayed, Chat.ReadMessage, CountOpen;
    RelayIsSmall(Chat.ReadMessage(v.inward.shown, subtype));
    CountIsCardinality(ViewsOf(slots));
  }

  /** Whatever the texts hold, a relayed packet is small. */
  lemma RelayIsSmall(m: Chat.Message)
    ensures Chat.Relayed(m).size <= 117
  {
    var calls, start := Chat.CallsOf(m), Begun(Chat.CHAT_TYPE, Chat.SubtypeOf(m));
    Chat.RelayedIsBuilt(m);
    SizeAtMost(start, calls);
    BegunIsBuilt(Chat.CHAT_TYPE, Chat.SubtypeOf(m));
    hide Build, Begun, Chat.Relayed;
    FewWidths(calls);
  }

  lemma FewWidths(calls: seq<Call>)
    requires 3 <= |calls| <= 4
    ensures Widths(calls) == Width(calls[0]) + Width(calls[1]) + Width(calls[2]) +
                             if |calls| == 4 then Width(calls[3]) else 0
  {
    assert calls[..3][..2] == calls[..2] && calls[..2][..1] == calls[..1] && calls[..1][..0] == [];
    assert Widths(calls[..1]) == Width(calls[0]) && Widths(calls[..2]) == Widths(calls[..1]) + Width(calls[1]);
    assert Widths(calls[..3]) == Widths(calls[..2]) + Width(calls[2]);
    assert |calls| == 3 ==> calls[..3] == calls;
  }

  /** Builder calls never add more than the widths of their fields. */
  lemma {:induction false} SizeAtMost(im: Image, calls: seq<Call>)
    requires Sound(im)
    ensures Build(im, calls).size <= im.size + Widths(calls)
  {
    if calls != [] {
      var before, last := Build(im, calls[..|calls| - 1]), calls[|calls| - 1];
      SizeAtMost(im, calls[..|calls| - 1]);
      assert Apply(before, last).size <= before.size + Width(last);
    }
  }

  lemma BeatLives(v: SlotState, tick: nat)
    requires Lives(v) && Proper(v)
    ensures Lives(v.(lastHeartBeat := (tick + HEARTBEAT_TIME) % U32_LIMIT))
  {
    hide Lives, Sound;
    LivesOn(v, ClientBeat(tick));
  }

  lemma GreetingLives(v: SlotState, slots: seq<SlotState>, keys: seq<Pair>, rnd: nat)
    requires Lives(v) && Proper(v)
    ensures Lives(Greeted(v, slots, keys, rnd))
  {
    hide Lives, Sound, Effect, Lookup, Held, Word;
    var row := Lookup(keys, v.inward.shown[6..22]);
    LivesOn(v, Reject);
    if row != [] {
      LivesOn(v, Admit(row[0], rnd));
    }
  }

  lemma SpeakingLives(slots: seq<SlotState>, s: nat, ty: nat, subtype: nat, calls: seq<Call>)
    requires AllProper(slots) && s < |slots| && Lives(slots[s]) && slots[s].view.auth && Open(slots[s].view)
    requires Made(ty, subtype, calls).off == Made(ty, subtype, calls).size
    requires Room(Made(ty, subtype, calls), OpenSlots(slots))
    ensures Lives(Spoken(slots, s, Made(ty, subtype, calls))[s])
  {
    hide Lives, Sound, Made, Answered, AfterSends, SentSoFar, Room;
    var v, im, n := slots[s], Made(ty, subtype, calls), OpenSlots(slots);
    LivesOn(v, Reply(ty, subtype, calls));
    SomeOpen(ViewsOf(slots), s);
    SharesLive(v, im, n, n);
  }

  lemma {:induction false} SomeOpen(slots: seq<Session>, s: nat)
    requires s < |slots| && Open(slots[s])
    ensures CountOpen(slots) >= 1
  {
    CountPrefix(slots, s + 1);
    assert slots[..s + 1][..s] == slots[..s];
  }

  /** Nobody else's slot becomes anything but the hearer of a broadcast. */
  lemma OtherLives(slots: seq<SlotState>, keys: seq<Pair>, s: nat, act: Act, io: Io, i: nat)
    requires AllSane(slots) && s < |slots| && i < |slots| && i != s
    ensures Sane(Acted(slots, keys, s, act, io)[i])
  {
    hide Lives, Sound, Made, Chat.Relayed, Chat.ReadMessage, Effect, Greeted, AfterSends, OpenSlots, Word;
    var v := slots[i];
    match act
    case Spreads(ty, subtype) => HearingLives(slots, s, i, ty, subtype, io.calls);
    case Relays =>
      var subtype := Word(slots[s].inward.shown, 4);
      if subtype < 3 {
        var m := Chat.ReadMessage(slots[s].inward.shown, subtype);
        RelayIsReply(slots[s], m);
        HearingLives(slots, s, i, Chat.CHAT_TYPE, Chat.SubtypeOf(m), Chat.CallsOf(m));
      }
    case _ =>
  }

  lemma HearingLives(slots: seq<SlotState>, s: nat, i: nat, ty: nat, subtype: nat, calls: seq<Call>)
    requires AllSane(slots) && s < |slots| && i < |slots| && i != s
    ensures Sane(Spoken(slots, s, Made(ty, subtype, calls))[i])
  {
    hide Lives, Sound, Made, Emitted, AfterSend, AfterSends, OpenSlots;
    var v, op := slots[i], Hear(ty, subtype, calls);
    assert Effect(v, op).0 == Spoken(slots, s, Made(ty, subtype, calls))[i];
    if Open(v.view) {
      LivesOn(v, op);
      OpensStay(v, op);
    }
  }

  lemma EndLives(v: SlotState, io: Io, now: nat)
    requires Proper(v) && Lives(v) && Open(v.view) && Bounded(io)
    ensures Sane(Ended(v, io, now))
  {
    hide Lives, Sound, Effect;
    EndedIs(v, io, now);
    if v.view.todc {
      VacantTurn(now, io.tick);
    } else {
      LivesOn(v, Turn(now, io.tick));
      OpensStay(v, Turn(now, io.tick));
    }
  }

  lemma VacantTurn(now: nat, tick: nat)
    ensures SameSides(Effect(Vacant(), Turn(now, tick)).0, Vacant())
  {
    hide HeartBeat;
  }

  lemma TurnLives(slots: seq<SlotState>, keys: seq<Pair>, s: nat, io: Io, now: nat)
    requires AllSane(slots) && s < |slots| < 4032 && Open(slots[s].view) && Bounded(io)
    ensures var result := Served(slots, keys, s, io, now); result.hung || AllSane(result.slots)
  {
    hide Sane, Lives, Sound, Transported, ActOf, Acted, Ended, OpenSlots, Hangs, Stuck, Word;
    var (v, verdict) := Transported(slots[s], io);
    var before, act := slots[s := v], ActOf(verdict, Word(v.inward.shown, 4), io);
    SaneIs(slots[s]);
    TransportLives(slots[s], io);
    SaneIs(v);
    ServedIs(slots, keys, s, io, now);
    AttendedIs(slots, keys, s, io);
    if !Hangs(act, v.reply, io.calls, OpenSlots(before)) {
      ActNeedsAuth(verdict, Word(v.inward.shown, 4), io);
      OwnLives(before, keys, s, act, io);
      var after := Acted(before, keys, s, act, io);
      EndLives(after[s], io, now);
      forall i | 0 <= i < |slots| && i != s ensures Sane(after[i]) {
        OtherLives(before, keys, s, act, io, i);
      }
    }
  }

  lemma SaneIs(v: SlotState)
    ensures Open(v.view) ==> (Sane(v) <==> Lives(v))
  {
  }

  lemma ActNeedsAuth(verdict: Verdict, subtype: nat, io: Io)
    ensures var act := ActOf(verdict, subtype, io);
            act.Builds? || act.Spreads? || act in {Relays, Repeats} ==> verdict.Run? && verdict.ty != AUTH_TYPE
  {
  }

  // ---------------------------------------------------------------- whole runs

  lemma JoinLives(slots: seq<SlotState>)
    requires AllSane(slots)
    ensures AllSane(Joined(slots))
  {
    hide Lives, Sound;
    var f := FirstFree(ViewsOf(slots));
    if f < |slots| {
      LifeBegins(slots[f]);
    }
  }

  lemma {:induction false} TurnsLive(slots: seq<SlotState>, keys: seq<Pair>, round: Round, n: nat)
    requires AllSane(slots) && n <= |slots| < 4032
    ensures var course := TurnsOf(slots, keys, round, n); course.hung || AllSane(course.slots)
    decreases n
  {
    hide Sane, Proper, Served, IoAt;
    if n > 0 {
      TurnsLive(slots, keys, round, n - 1);
      var before := TurnsOf(slots, keys, round, n - 1);
      if !before.hung && Open(before.slots[n - 1].view) {
        TurnLives(before.slots, keys, n - 1, IoAt(round, n - 1), round.now);
      }
    }
  }

  /**
   * In every state of every run, whatever the sockets, the database and the clock answer, every open
   * slot is what some schedule has made of a slot that was like a brand-new one.
   */
  lemma {:induction false} RunsLive(size: nat, keys: seq<Pair>, rounds: seq<Round>)
    requires size < 4032
    ensures var course := RunOf(AllVacant(size), keys, rounds); course.hung || AllSane(course.slots)
  {
    hide Sane, Proper, RoundOf;
    if rounds == [] {
      NewSane(size);
    } else {
      var before := RunOf(AllVacant(size), keys, rounds[..|rounds| - 1]);
      RunsLive(size, keys, rounds[..|rounds| - 1]);
      if !before.hung {
        RoundLives(before.slots, keys, rounds[|rounds| - 1]);
      }
    }
  }

  lemma RoundLives(slots: seq<SlotState>, keys: seq<Pair>, round: Round)
    requires AllSane(slots) && |slots| < 4032
    ensures var course := RoundOf(slots, keys, round); course.hung || AllSane(course.slots)
  {
    hide Sane, Proper, Joined, TurnsOf;
    RoundIs(slots, keys, round);
    JoinLives(slots);
    TurnsLive(if round.waiting == [] then slots else Joined(slots), keys, round, |slots|);
  }

  lemma NewSane(size: nat)
    ensures AllSane(AllVacant(size))
  {
  }
}
