/**
 * What a slot carries over. A new occupant finds the time of the next heartbeat and the old reply
 * of the slot, and nothing else; the gate keeps the old reply from it, and exactly the schedules
 * are named in which the time shows. Some requests of an authenticated client send the old reply
 * again: the frames are the same, and it is said exactly how often such a send terminates.
 */
module Reuse {
  import opened Bytes
  import opened Packet
  import opened Framing
  import opened Outgoing
  import opened Sessions
  import opened Clients
  import opened Servers
  import opened Schedules

  // ---------------------------------------------------------------- the old reply

  /** A packet as it was built, and how often it has been sent since. */
  datatype Sends = Sends(built: Image, times: nat)

  /** This is how the reply buffer of the slot came about. */
  predicate Explains(s: Sends, v: SlotState) {
    && Proper(v) && Sound(s.built) && s.built.off == s.built.size
    && SentSoFar(s.built, v.reply, s.times)
  }

  /** The packet last built along a schedule. */
  function LastBuilt(s: Sends, v: SlotState, ops: seq<Op>): Sends
    requires Proper(v)
  {
    if ops == [] then s
    else
      var before := ops[..|ops| - 1];
      NextSends(LastBuilt(s, v, before), Outcome(v, before).0, ops[|ops| - 1])
  }

  function NextSends(s: Sends, v: SlotState, op: Op): Sends {
    match op
    case Reply(ty, subtype, calls) => Sends(Made(ty, subtype, calls), 1)
    case Admit(_, rnd) => Sends(AuthReply(rnd % 0x8000), 1)
    case Turn(now, tick) => if v.lastHeartBeat < now then Sends(HeartBeat(tick % U32_LIMIT), 1) else s
    case Again => if v.view.auth then s.(times := s.times + 1) else s
    case Share => if v.view.auth then s.(times := s.times + 1) else s
    case _ => s
  }

  lemma MadeInLockstep(ty: nat, subtype: nat, calls: seq<Call>)
    ensures Made(ty, subtype, calls).off == Made(ty, subtype, calls).size
  {
    Lockstep(Begun(Wrap16(ty), Wrap16(subtype)), calls);
  }

  lemma FirstSent(im: Image)
    requires Sound(im) && im.off == im.size
    ensures SentSoFar(im, AfterSend(im), 1)
  {
    hide FrameOf, Emitted, EntriesOf;
    if Sendable(im.size) {
      FirstSend(im);
    }
    NextSend(im, im, 0);
  }

  /** Whether one more send ends depends on the packet as it was built and on the number of sends. */
  lemma RepeatFits(im: Image, cur: Image, times: nat)
    requires Sound(im) && im.off == im.size && SentSoFar(im, cur, times)
    ensures Sendable(cur.size) == Sendable(im.size)
    ensures Sendable(im.size) ==>
              (PadFits(cur.off, cur.size - 2) <==> PadTo(im.size - 2) + 2 * (times + 1) < BUFFER_SIZE)
  {
    if Sendable(im.size) {
      FirstSend(im);
      if times > 0 {
        Resend(cur, FrameOf(im));
      }
    }
  }

  /** The old reply can be sent once more: what decides it. */
  predicate Repeatable(s: Sends, v: SlotState) {
    v.view.auth && Sendable(s.built.size) ==> PadTo(s.built.size - 2) + 2 * (s.times + 1) < BUFFER_SIZE
  }

  lemma CanRepeatIff(s: Sends, v: SlotState)
    requires Explains(s, v)
    ensures CanRepeat(v) <==> Repeatable(s, v)
  {
    hide SentSoFar, PadFits, PadTo;
    RepeatFits(s.built, v.reply, s.times);
  }

  lemma AnsweredExplains(v: SlotState, im: Image)
    requires Proper(v) && Open(v.view) && Sound(im) && im.off == im.size
    ensures Explains(Sends(im, 1), Answered(v, im)) && Open(Answered(v, im).view)
  {
    hide SentSoFar, Emitted, AfterSend, Sound;
    FirstSent(im);
  }

  lemma AgainExplains(s: Sends, v: SlotState)
    requires Explains(s, v) && Open(v.view) && v.view.auth && CanRepeat(v)
    ensures Explains(s.(times := s.times + 1), Answered(v, v.reply)) && Open(Answered(v, v.reply).view)
    ensures Explains(s.(times := s.times + 1), v.(reply := AfterSend(v.reply)))
  {
    hide SentSoFar, Emitted, EntriesOf, AfterSend, Sound, CanRepeat;
    CanRepeatIff(s, v);
    NextSend(s.built, v.reply, s.times);
  }

  lemma EffectExplains(s: Sends, v: SlotState, op: Op)
    requires Explains(s, v) && Open(v.view) && (IsRepeat(op) ==> CanRepeat(v))
    ensures Explains(NextSends(s, v, op), Effect(v, op).0) && Open(Effect(v, op).0.view)
  {
    hide SentSoFar, Answered, Made, AuthReply, HeartBeat, CanRepeat, Fed, Flushed, Sound;
    EffectIsProper(v, op);
    match op
    case Reply(ty, subtype, calls) =>
      MadeInLockstep(ty, subtype, calls);
      AnsweredExplains(v, Made(ty, subtype, calls));
    case Admit(pair, rnd) =>
      AuthReplyIsSendable(rnd % 0x8000);
      AnsweredExplains(v.(view := v.view.(auth := true, pair := pair)), AuthReply(rnd % 0x8000));
    case Turn(now, tick) =>
      HeartBeatIsSendable(tick % U32_LIMIT);
      AnsweredExplains(v.(lastHeartBeat := now + HEARTBEAT_TIME), HeartBeat(tick % U32_LIMIT));
    case Again => if v.view.auth { AgainExplains(s, v); }
    case Share => if v.view.auth { AgainExplains(s, v); }
    case _ =>
  }

  /** Along every schedule the reply buffer holds the packet last built, sent that often. */
  lemma {:induction false} LastBuiltExplains(s: Sends, v: SlotState, ops: seq<Op>)
    requires Explains(s, v) && Open(v.view) && Terminates(v, ops)
    ensures Explains(LastBuilt(s, v, ops), Outcome(v, ops).0) && Open(Outcome(v, ops).0.view)
  {
    hide Effect, Explains, NextSends, CanRepeat;
    assert Proper(v) by { ExplainsProper(s, v); }
    if ops != [] {
      var before := ops[..|ops| - 1];
      LastBuiltExplains(s, v, before);
      EffectExplains(LastBuilt(s, v, before), Outcome(v, before).0, ops[|ops| - 1]);
    }
  }

  lemma ExplainsProper(s: Sends, v: SlotState)
    requires Explains(s, v)
    ensures Proper(v)
  {
  }

  /**
   * After any schedule, sending the old reply once more ends exactly when the packet last built is
   * not sent at all, or its padded size plus twice the number of its sends, this one included, is
   * below 8192.
   */
  lemma RepeatTerminatesIff(s: Sends, v: SlotState, ops: seq<Op>, op: Op)
    requires Explains(s, v) && Open(v.view) && Terminates(v, ops) && IsRepeat(op)
    ensures Terminates(v, ops + [op]) <==> Repeatable(LastBuilt(s, v, ops), Outcome(v, ops).0)
  {
    hide Effect, Explains, Repeatable, CanRepeat, LastBuilt;
    ExplainsProper(s, v);
    assert (ops + [op])[..|ops|] == ops;
    LastBuiltExplains(s, v, ops);
    CanRepeatIff(LastBuilt(s, v, ops), Outcome(v, ops).0);
  }

  function Repeats(n: nat): seq<Op> {
    seq(n, _ => Again)
  }

  lemma {:induction false} RepeatsCount(s: Sends, v: SlotState, pair: Pair, rnd: nat, n: nat)
    requires Explains(s, v) && Open(v.view) && Terminates(v, [Admit(pair, rnd)] + Repeats(n))
    ensures LastBuilt(s, v, [Admit(pair, rnd)] + Repeats(n)) == Sends(AuthReply(rnd % 0x8000), n + 1)
    ensures Outcome(v, [Admit(pair, rnd)] + Repeats(n)).0.view.auth
  {
    hide Explains, AuthReply, CanRepeat, Fed, Flushed, Made, HeartBeat, Replied, AfterSend;
    ExplainsProper(s, v);
    var ops := [Admit(pair, rnd)] + Repeats(n);
    if n == 0 {
      assert ops == [Admit(pair, rnd)] && ops[..0] == [];
      assert Outcome(v, []).0 == v;
    } else {
      assert ops[..|ops| - 1] == [Admit(pair, rnd)] + Repeats(n - 1);
      RepeatsCount(s, v, pair, rnd, n - 1);
    }
  }

  /**
   * After a handshake, and without another reply in between, requests of an unknown subtype are
   * answered 4078 times; the next send never ends.
   */
  lemma {:induction false} RepeatsStickIff(s: Sends, v: SlotState, pair: Pair, rnd: nat, n: nat)
    requires Explains(s, v) && Open(v.view)
    ensures Terminates(v, [Admit(pair, rnd)] + Repeats(n)) <==> n < 4079
  {
    hide Effect, Explains, CanRepeat, LastBuilt, AuthReply;
    ExplainsProper(s, v);
    var ops := [Admit(pair, rnd)] + Repeats(n);
    if n == 0 {
      assert ops == [Admit(pair, rnd)] && ops[..0] == [];
      assert Terminates(v, []);
    } else {
      var before := [Admit(pair, rnd)] + Repeats(n - 1);
      assert ops == before + [Again] && ops[..|ops| - 1] == before;
      RepeatsStickIff(s, v, pair, rnd, n - 1);
      if Terminates(v, before) {
        RepeatTerminatesIff(s, v, before, Again);
        RepeatsCount(s, v, pair, rnd, n - 1);
        AuthReplyIsSendable(rnd % 0x8000);
      }
    }
  }

  // ---------------------------------------------------------------- what is sent

  /** The frames that one operation makes the slot queue. */
  function Queued(s: Sends, v: SlotState, op: Op): seq<seq<Byte>>
    requires Explains(s, v)
  {
    match op
    case Reply(ty, subtype, calls) => Emitted(Made(ty, subtype, calls))
    case Hear(ty, subtype, calls) => Emitted(Made(ty, subtype, calls))
    case Admit(_, rnd) => Emitted(AuthReply(rnd % 0x8000))
    case Turn(now, tick) => if v.lastHeartBeat < now then Emitted(HeartBeat(tick % U32_LIMIT)) else []
    case Again => if v.view.auth then Emitted(s.built) else []
    case _ => []
  }

  /** The frames that a schedule makes the slot queue; a reply sent again is the frame it was at first. */
  function Replies(s: Sends, v: SlotState, ops: seq<Op>): seq<seq<Byte>>
    requires Explains(s, v) && Open(v.view) && Terminates(v, ops)
  {
    if ops == [] then []
    else
      var before := ops[..|ops| - 1];
      LastBuiltExplains(s, v, before);
      Replies(s, v, before) + Queued(LastBuilt(s, v, before), Outcome(v, before).0, ops[|ops| - 1])
  }

  /** Every enqueued byte is on the wire, in the send buffer or still queued, in order. */
  predicate Conserved(o: Outward) {
    o.wire + o.unsent + Concat(o.queue) == Concat(o.enqueued)
  }

  lemma FlushConserves(todc: bool, o: Outward, outcome: SendOutcome)
    requires Conserved(o)
    ensures Conserved(Flushed(todc, o, outcome).1) && Flushed(todc, o, outcome).1.enqueued == o.enqueued
  {
    var offer := Offer(o.unsent, o.queue);
    var n := if outcome.Took? then Possible(outcome, |offer|).n else 0;
    var behind := Concat(Behind(o.unsent, o.queue));
    OfferConserves(o.unsent, o.queue);
    TransmitKeepsSum(o.wire, offer, n);
    AppendAssoc(o.wire, offer, behind);
    AppendAssoc(o.wire, o.unsent, Concat(o.queue));
  }

  lemma AnswerConserves(v: SlotState, im: Image)
    requires Sound(im) && Conserved(v.outward) && Open(v.view)
    ensures Conserved(Answered(v, im).outward)
    ensures Answered(v, im).outward.enqueued == v.outward.enqueued + Emitted(im)
  {
    hide Emitted, AfterSend;
    var o := v.outward;
    ConcatAppend(o.queue, Emitted(im));
    ConcatAppend(o.enqueued, Emitted(im));
    AppendAssoc(o.wire + o.unsent, Concat(o.queue), Concat(Emitted(im)));
  }

  lemma RepeatsAreTheSame(s: Sends, v: SlotState)
    requires Explains(s, v) && Open(v.view) && v.view.auth && CanRepeat(v)
    ensures Emitted(v.reply) == Emitted(s.built)
  {
    hide SentSoFar, Emitted, EntriesOf, AfterSend, Sound, CanRepeat;
    CanRepeatIff(s, v);
    NextSend(s.built, v.reply, s.times);
  }

  lemma EffectSends(s: Sends, v: SlotState, op: Op)
    requires Explains(s, v) && Open(v.view) && Conserved(v.outward) && (IsRepeat(op) ==> CanRepeat(v))
    ensures var after := Effect(v, op).0;
            && Conserved(after.outward)
            && after.outward.enqueued == v.outward.enqueued + Queued(s, v, op)
  {
    hide SentSoFar, Answered, Made, AuthReply, HeartBeat, CanRepeat, Fed, Flushed, Sound, Emitted, Conserved;
    assert v.outward.enqueued + [] == v.outward.enqueued;
    match op
    case Reply(ty, subtype, calls) => AnswerConserves(v, Made(ty, subtype, calls));
    case Hear(ty, subtype, calls) => AnswerConserves(v, Made(ty, subtype, calls));
    case Admit(pair, rnd) =>
      AnswerConserves(v.(view := v.view.(auth := true, pair := pair)), AuthReply(rnd % 0x8000));
    case Turn(now, tick) =>
      AnswerConserves(v.(lastHeartBeat := now + HEARTBEAT_TIME), HeartBeat(tick % U32_LIMIT));
    case Again =>
      if v.view.auth {
        AnswerConserves(v, v.reply);
        RepeatsAreTheSame(s, v);
      }
    case Flush(outcome) => FlushConserves(v.view.todc, v.outward, outcome);
    case _ =>
  }

  /**
   * On the sending side a schedule queues exactly the frames of its replies, heartbeats included,
   * and what is on the wire is the beginning of them, however much the socket took at a time.
   */
  lemma {:induction false} RepliesAreSent(s: Sends, v: SlotState, ops: seq<Op>)
    requires Explains(s, v) && Open(v.view) && Terminates(v, ops) && Conserved(v.outward)
    ensures var after := Outcome(v, ops).0;
            && Conserved(after.outward)
            && after.outward.enqueued == v.outward.enqueued + Replies(s, v, ops)
            && after.outward.wire <= Concat(after.outward.enqueued)
  {
    hide Effect, Explains, Queued, CanRepeat, LastBuilt, Conserved;
    ExplainsProper(s, v);
    if ops == [] {
      assert v.outward.enqueued + [] == v.outward.enqueued;
    } else {
      var before := ops[..|ops| - 1];
      var last := LastBuilt(s, v, before);
      RepliesAreSent(s, v, before);
      LastBuiltExplains(s, v, before);
      EffectSends(last, Outcome(v, before).0, ops[|ops| - 1]);
      AppendAssoc(v.outward.enqueued, Replies(s, v, before), Queued(last, Outcome(v, before).0, ops[|ops| - 1]));
    }
    WireIsFront(Outcome(v, ops).0.outward);
  }

  lemma WireIsFront(o: Outward)
    requires Conserved(o)
    ensures o.wire <= Concat(o.enqueued)
  {
    AppendAssoc(o.wire, o.unsent, Concat(o.queue));
  }

  // ---------------------------------------------------------------- the time of the next heartbeat

  predicate SameSides(v: SlotState, w: SlotState) {
    v.view == w.view && v.inward == w.inward && v.outward == w.outward
  }

  /** The slots cannot be told apart, now or by anything the gate lets a client do with the old reply. */
  predicate Alike(v: SlotState, w: SlotState) {
    SameSides(v, w) && (v.view.auth ==> v.reply == w.reply)
  }

  /** At every point of the schedule. */
  predicate AlwaysAlike(v: SlotState, w: SlotState, ops: seq<Op>)
    requires Proper(v) && Proper(w)
  {
    && Alike(Outcome(v, ops).0, Outcome(w, ops).0)
    && Outcome(v, ops).1 == Outcome(w, ops).1
    && (ops != [] ==> AlwaysAlike(v, w, ops[..|ops| - 1]))
  }

  /** An operation that sets the time of the next heartbeat in a slot whose time is `a`. */
  predicate Decides(a: nat, op: Op) {
    op.ClientBeat? || (op.Turn? && a < op.now)
  }

  function FirstDeciding(a: nat, ops: seq<Op>): (d: nat)
    ensures d <= |ops|
    ensures forall i :: 0 <= i < d ==> !Decides(a, ops[i])
    ensures d < |ops| ==> Decides(a, ops[d])
  {
    if ops == [] || Decides(a, ops[0]) then 0 else 1 + FirstDeciding(a, ops[1..])
  }

  /**
   * The times `a` and `b`, where `a` is not later, cannot be told apart by the schedule: the first
   * operation that sets the time from `a`, if there is one, sets it from `b` as well.
   */
  predicate SameClock(a: nat, b: nat, ops: seq<Op>) {
    var d := FirstDeciding(a, ops);
    a == b || d == |ops| || Decides(b, ops[d])
  }

  lemma DecidingPrefix(a: nat, ops: seq<Op>)
    requires ops != []
    ensures var before, d := ops[..|ops| - 1], FirstDeciding(a, ops[..|ops| - 1]);
            FirstDeciding(a, ops) == if d < |before| then d
                                     else if Decides(a, ops[|before|]) then |before| else |ops|
  {
    hide FirstDeciding, Decides;
    var before := ops[..|ops| - 1];
    assert forall i :: 0 <= i < |before| ==> before[i] == ops[i];
  }

  lemma AnswersAlike(v: SlotState, w: SlotState, im: Image)
    requires SameSides(v, w) && Sound(im)
    ensures Alike(Answered(v, im), Answered(w, im)) && Answered(v, im).reply == Answered(w, im).reply
  {
    hide Emitted, AfterSend;
  }

  /** One operation keeps two slots alike if it does the same to their clocks. */
  lemma EffectsAlike(v: SlotState, w: SlotState, op: Op)
    requires Proper(v) && Proper(w) && Alike(v, w)
    requires op.Turn? ==> (v.lastHeartBeat < op.now <==> w.lastHeartBeat < op.now)
    ensures Alike(Effect(v, op).0, Effect(w, op).0) && Effect(v, op).1 == Effect(w, op).1
    ensures v.lastHeartBeat == w.lastHeartBeat || Decides(v.lastHeartBeat, op) ==>
              Effect(v, op).0.lastHeartBeat == Effect(w, op).0.lastHeartBeat
    ensures !Decides(v.lastHeartBeat, op) ==>
              && Effect(v, op).0.lastHeartBeat == v.lastHeartBeat
              && (!Decides(w.lastHeartBeat, op) ==> Effect(w, op).0.lastHeartBeat == w.lastHeartBeat)
  {
    hide Answered, Made, AuthReply, HeartBeat, Fed, Flushed, Sound;
    match op
    case Reply(ty, subtype, calls) => AnswersAlike(v, w, Made(ty, subtype, calls));
    case Hear(ty, subtype, calls) => AnswersAlike(v, w, Made(ty, subtype, calls));
    case Admit(pair, rnd) =>
      AnswersAlike(v.(view := v.view.(auth := true, pair := pair)), w.(view := w.view.(auth := true, pair := pair)),
                   AuthReply(rnd % 0x8000));
    case Turn(now, tick) =>
      AnswersAlike(v.(lastHeartBeat := now + HEARTBEAT_TIME), w.(lastHeartBeat := now + HEARTBEAT_TIME),
                   HeartBeat(tick % U32_LIMIT));
    case Again => if v.view.auth { AnswersAlike(v, w, v.reply); }
    case _ =>
  }

  /** Until the first deciding operation the times stay apart, and from then on they agree. */
  lemma {:induction false} ClocksFollow(v: SlotState, w: SlotState, ops: seq<Op>)
    requires Proper(v) && Proper(w) && Alike(v, w) && v.lastHeartBeat <= w.lastHeartBeat
    requires SameClock(v.lastHeartBeat, w.lastHeartBeat, ops)
    ensures AlwaysAlike(v, w, ops) && (Terminates(v, ops) <==> Terminates(w, ops))
    ensures var a, b := v.lastHeartBeat, w.lastHeartBeat;
            if a == b || FirstDeciding(a, ops) < |ops|
            then Outcome(v, ops).0.lastHeartBeat == Outcome(w, ops).0.lastHeartBeat
            else Outcome(v, ops).0.lastHeartBeat == a && Outcome(w, ops).0.lastHeartBeat == b
  {
    hide Effect, FirstDeciding, Alike, Sound, PadFits;
    if ops != [] {
      var before, op := ops[..|ops| - 1], ops[|ops| - 1];
      DecidingPrefix(v.lastHeartBeat, ops);
      ClocksFollow(v, w, before);
      EffectsAlike(Outcome(v, before).0, Outcome(w, before).0, op);
      RepeatsAlike(Outcome(v, before).0, Outcome(w, before).0);
    }
  }

  lemma RepeatsAlike(v: SlotState, w: SlotState)
    requires Alike(v, w)
    ensures CanRepeat(v) <==> CanRepeat(w)
  {
  }

  lemma {:induction false} AlwaysAlikeAt(v: SlotState, w: SlotState, ops: seq<Op>, n: nat)
    requires Proper(v) && Proper(w) && AlwaysAlike(v, w, ops) && n <= |ops|
    ensures Alike(Outcome(v, ops[..n]).0, Outcome(w, ops[..n]).0)
    decreases |ops|
  {
    hide Effect, Alike, Outcome, Proper;
    if n == |ops| {
      assert ops[..n] == ops;
    } else {
      AlwaysAlikeAt(v, w, ops[..|ops| - 1], n);
      assert ops[..|ops| - 1][..n] == ops[..n];
    }
  }

  /** A heartbeat that is due in one slot and not in the other shows on the wire. */
  lemma BeatShows(v: SlotState, w: SlotState, now: nat, tick: nat)
    requires Proper(v) && Proper(w) && Open(v.view) && v.lastHeartBeat < now <= w.lastHeartBeat
    ensures Effect(v, Turn(now, tick)).0.outward.enqueued
         == v.outward.enqueued + Emitted(HeartBeat(tick % U32_LIMIT))
    ensures |Emitted(HeartBeat(tick % U32_LIMIT))| == 1
    ensures Effect(w, Turn(now, tick)).0.outward == w.outward
  {
    hide AfterSend, HeartBeat, FrameOf;
    HeartBeatIsSendable(tick % U32_LIMIT);
  }

  lemma {:induction false} StaysOpen(v: SlotState, ops: seq<Op>)
    requires Proper(v) && Open(v.view)
    ensures Open(Outcome(v, ops).0.view)
  {
    hide Fed, Flushed, Made, HeartBeat, AuthReply, Replied, AfterSend, Sound;
    if ops != [] {
      StaysOpen(v, ops[..|ops| - 1]);
    }
  }

  lemma ClocksShow(v: SlotState, w: SlotState, ops: seq<Op>)
    requires Proper(v) && Proper(w) && Alike(v, w) && Open(v.view) && v.lastHeartBeat <= w.lastHeartBeat
    requires !SameClock(v.lastHeartBeat, w.lastHeartBeat, ops)
    ensures !AlwaysAlike(v, w, ops)
  {
    hide Effect, Outcome, AlwaysAlike, FirstDeciding, Proper, HeartBeat, Emitted;
    var d := FirstDeciding(v.lastHeartBeat, ops);
    var before, upto := ops[..d], ops[..d + 1];
    assert FirstDeciding(v.lastHeartBeat, before) == d;
    ClocksFollow(v, w, before);
    AlwaysAlikeAt(v, w, before, d);
    assert before[..d] == before && upto[..d] == before && upto[d] == ops[d];
    StaysOpen(v, before);
    BeatShows(Outcome(v, before).0, Outcome(w, before).0, ops[d].now, ops[d].tick);
    LastEffect(v, upto);
    LastEffect(w, upto);
    if AlwaysAlike(v, w, ops) {
      AlwaysAlikeAt(v, w, ops, d + 1);
    }
  }

  lemma LastEffect(v: SlotState, ops: seq<Op>)
    requires Proper(v) && ops != []
    ensures Outcome(v, ops).0 == Effect(Outcome(v, ops[..|ops| - 1]).0, ops[|ops| - 1]).0
  {
  }

  /**
   * Two slots that differ in the time of the next heartbeat, and in the old reply as far as the
   * gate keeps it from the client, stay alike at every point of a schedule exactly when the
   * first operation that sets the earlier time also sets the later one.
   */
  lemma ClockShowsIff(v: SlotState, w: SlotState, ops: seq<Op>)
    requires Proper(v) && Proper(w) && Alike(v, w) && Open(v.view) && v.lastHeartBeat <= w.lastHeartBeat
    ensures AlwaysAlike(v, w, ops) <==> SameClock(v.lastHeartBeat, w.lastHeartBeat, ops)
  {
    hide AlwaysAlike, SameClock, Alike, Proper, Effect;
    if SameClock(v.lastHeartBeat, w.lastHeartBeat, ops) {
      ClocksFollow(v, w, ops);
    } else {
      ClocksShow(v, w, ops);
    }
  }

  lemma AdmitIs(v: SlotState, pair: Pair, rnd: nat)
    requires Proper(v) && rnd < 0x8000
    ensures Effect(v, Admit(pair, rnd)).0 == Answered(v.(view := v.view.(auth := true, pair := pair)), AuthReply(rnd))
  {
    hide Answered, AuthReply;
  }

  lemma SameTimes(a: nat, ops: seq<Op>)
    ensures SameClock(a, a, ops)
  {
  }

  // ---------------------------------------------------------------- a new occupant

  /** A slot that has just been initialised. */
  function Vacant(): (v: SlotState)
    ensures Proper(v)
  {
    SlotState(CLOSED_SESSION, Inward([], [], EMPTY.bytes), Outward([], [], [], []), 0, EMPTY)
  }

  /** A connection is accepted into the slot. */
  function Occupied(v: SlotState): SlotState {
    v.(view := v.view.(socket := 0))
  }

  /** The turn at this time closed the slot, made its heartbeat, and then somebody new came. */
  function Reopened(closed: nat, tick: nat): (v: SlotState)
    ensures Proper(v)
  {
    EffectIsProper(Vacant(), Turn(closed, tick));
    Occupied(Effect(Vacant(), Turn(closed, tick)).0)
  }

  /** What is left of the turn that closed the slot. */
  lemma ReopenedIs(closed: nat, tick: nat)
    ensures Reopened(closed, tick) ==
            if closed == 0 then Occupied(Vacant())
            else Occupied(Vacant()).(lastHeartBeat := closed + HEARTBEAT_TIME, reply := HeartBeat(tick % U32_LIMIT))
    ensures Explains(Sends(Reopened(closed, tick).reply, 0), Reopened(closed, tick))
    ensures Conserved(Reopened(closed, tick).outward) && Open(Reopened(closed, tick).view)
  {
    hide HeartBeat, AfterSend, Emitted;
    HeartBeatIsSendable(tick % U32_LIMIT);
  }

  /**
   * A new occupant of a reused slot cannot tell it from a brand-new one, whatever it and the
   * server do, exactly when the slot was closed at time 0 or the first client heartbeat or turn
   * of the server after time 0 is a client heartbeat or comes later than 30 seconds after the closing.
   */
  lemma ReuseShowsIff(closed: nat, tick: nat, ops: seq<Op>)
    ensures AlwaysAlike(Occupied(Vacant()), Reopened(closed, tick), ops)
       <==> closed == 0 || SameClock(0, closed + HEARTBEAT_TIME, ops)
  {
    hide AlwaysAlike, SameClock, HeartBeat;
    ReopenedIs(closed, tick);
    SameTimes(0, ops);
    ClockShowsIff(Occupied(Vacant()), Reopened(closed, tick), ops);
  }

  /**
   * A schedule that tells them apart: a slot closed at 990 and taken again gets no heartbeat at
   * 1000, where a brand-new one gets its first.
   */
  lemma ReuseShows(tick: nat, t: nat)
    ensures var ops := [Turn(1000, t)];
            && Outcome(Occupied(Vacant()), ops).0.outward.enqueued == Emitted(HeartBeat(t % U32_LIMIT))
            && |Emitted(HeartBeat(t % U32_LIMIT))| == 1
            && Outcome(Reopened(990, tick), ops).0.outward.enqueued == []
            && !AlwaysAlike(Occupied(Vacant()), Reopened(990, tick), ops)
  {
    hide HeartBeat, Emitted, Effect;
    var v, w := Occupied(Vacant()), Reopened(990, tick);
    ReopenedIs(990, tick);
    assert [Turn(1000, t)][..0] == [];
    assert Outcome(v, []).0 == v && Outcome(w, []).0 == w;
    BeatShows(v, w, 1000, t);
    assert v.outward.enqueued + Emitted(HeartBeat(t % U32_LIMIT)) == Emitted(HeartBeat(t % U32_LIMIT));
  }

  /** A client heartbeat first hides the difference: the one at 1000 is then sent, ten seconds after the closing. */
  lemma ClientBeatHides(tick: nat, t: nat)
    ensures AlwaysAlike(Occupied(Vacant()), Reopened(990, tick), [ClientBeat(5), Turn(1000, t)])
    ensures Outcome(Reopened(990, tick), [ClientBeat(5), Turn(1000, t)]).0.outward.enqueued
         == Emitted(HeartBeat(t % U32_LIMIT))
  {
    hide HeartBeat, Emitted, Answered, AlwaysAlike;
    var w, ops := Reopened(990, tick), [ClientBeat(5), Turn(1000, t)];
    ReuseShowsIff(990, tick, ops);
    ReopenedIs(990, tick);
    assert ops[..1] == [ClientBeat(5)] && ops[..1][..0] == [];
    assert Outcome(w, []).0 == w;
    var before := Outcome(w, ops[..1]).0;
    assert before == w.(lastHeartBeat := 35);
    BeatShows(before, before.(lastHeartBeat := 1000), 1000, t);
    assert w.outward.enqueued + Emitted(HeartBeat(t % U32_LIMIT)) == Emitted(HeartBeat(t % U32_LIMIT));
  }

  /** An initialised slot, the rest of the turn that closed it, and the next connection. */
  method Reopen(c: Client, closed: nat, tick: nat, socket: nat)
    requires c.Layout()
    modifies c.Footprint()
    ensures c.Valid() && Schedules.Value(c) == Reopened(closed, tick)
  {
    hide Effect, Client.Receiving, Client.Sending;
    c.Initialize();
    VacantIs(c);
    DoTurn(c, closed, tick);
    c.ClientSocket := socket;
  }

  lemma VacantIs(c: Client)
    requires c.Fresh() && c.lastHeartBeat == 0 && c.outbuf.Img() == EMPTY
    ensures Schedules.Value(c) == Vacant()
  {
    hide Client.Receiving, Client.Sending;
    c.SendingHasLayout();
  }

  /**
   * Slot reuse: whatever state a slot was left in, once it is initialised and a new socket put
   * into it, what it does is determined by the schedule, the time of the closing and its tick.
   */
  method ServeNewOccupant(c: Client, closed: nat, tick: nat, socket: nat, ops: seq<Op>)
    returns (verdicts: seq<Verdict>)
    requires c.Layout() && Terminates(Reopened(closed, tick), ops)
    modifies c.Footprint()
    ensures c.Valid() && (Schedules.Value(c), verdicts) == Outcome(Reopened(closed, tick), ops)
    ensures var v := Reopened(closed, tick);
            && Explains(Sends(v.reply, 0), v) && Open(v.view)
            && c.enqueued == Replies(Sends(v.reply, 0), v, ops)
            && c.wire <= Concat(c.enqueued)
  {
    hide Reopened, Outcome, Terminates, Replies, Explains, Conserved, Client.Receiving, Client.Sending;
    ghost var v := Reopened(closed, tick);
    Reopen(c, closed, tick, socket);
    verdicts := Play(c, ops);
    ReopenedIs(closed, tick);
    NothingQueued(closed, tick);
    RepliesAreSent(Sends(v.reply, 0), v, ops);
  }

  lemma NothingQueued(closed: nat, tick: nat)
    ensures Reopened(closed, tick).outward == Outward([], [], [], [])
    ensures forall fs: seq<seq<Byte>> :: Reopened(closed, tick).outward.enqueued + fs == fs
  {
    hide HeartBeat;
    ReopenedIs(closed, tick);
  }

  /**
   * A slot that was used before next to a brand-new one, over the same schedule: under exactly
   * the condition of `ReuseShowsIff` they agree on everything that is received, sent and decided.
   */
  method ServeReused(used: Client, garbage: bool, closed: nat, tick: nat, socket: nat, other: nat, ops: seq<Op>)
    returns (brandNew: Client, verdicts: seq<Verdict>, expected: seq<Verdict>)
    requires used.Layout()
    requires Terminates(Occupied(Vacant()), ops) && Terminates(Reopened(closed, tick), ops)
    modifies used.Footprint()
    ensures fresh(brandNew) && used.Valid() && brandNew.Valid()
    ensures closed == 0 || SameClock(0, closed + HEARTBEAT_TIME, ops) ==>
              verdicts == expected && Matches(used, brandNew)
  {
    hide Reopened, Occupied, Vacant, Outcome, Terminates, SameClock, Alike, Matches;
    hide Client.Fresh, Client.Valid;
    brandNew := BrandNew(garbage, other);
    Reopen(used, closed, tick, socket);
    verdicts, expected := PlayBoth(used, brandNew, ops);
    ReuseShowsIff(closed, tick, ops);
    if AlwaysAlike(Occupied(Vacant()), Reopened(closed, tick), ops) {
      AlikeMatches(used, brandNew);
    }
  }

  method PlayBoth(a: Client, b: Client, ops: seq<Op>) returns (verdicts: seq<Verdict>, expected: seq<Verdict>)
    requires a.Footprint() !! b.Footprint() && a.Valid() && b.Valid()
    requires Terminates(Schedules.Value(a), ops) && Terminates(Schedules.Value(b), ops)
    modifies a.Footprint(), b.Footprint()
    ensures a.Valid() && (Schedules.Value(a), verdicts) == Outcome(old(Schedules.Value(a)), ops)
    ensures b.Valid() && (Schedules.Value(b), expected) == Outcome(old(Schedules.Value(b)), ops)
  {
    hide Outcome, Terminates, Client.Fresh, Client.Valid;
    assert a in a.Footprint() && b in b.Footprint();
    verdicts := Play(a, ops);
    expected := Play(b, ops);
  }

  method BrandNew(garbage: bool, socket: nat) returns (c: Client)
    ensures fresh(c.Footprint()) && c.Valid() && Schedules.Value(c) == Occupied(Vacant())
  {
    hide Client.Receiving, Client.Sending;
    c := new Client(garbage);
    VacantIs(c);
    c.ClientSocket := socket;
  }

  /** Everything received, sent and decided is the same, and so are the mark and the packet buffer. */
  ghost predicate Matches(a: Client, b: Client)
    requires a.Valid() && b.Valid()
    reads a, a.rcvbuf, a.sndbuf, a.inbuf, a.inbuf.buffer, a.outbuf, a.outbuf.buffer
    reads b, b.rcvbuf, b.sndbuf, b.inbuf, b.inbuf.buffer, b.outbuf, b.outbuf.buffer
  {
    && a.todc == b.todc && a.isAuth == b.isAuth
    && a.consumed == b.consumed && a.Pending() == b.Pending() && a.inbuf.buffer[..] == b.inbuf.buffer[..]
    && a.enqueued == b.enqueued && a.wire == b.wire
    && Contents(a.sendQueue) == Contents(b.sendQueue) && a.Unsent() == b.Unsent()
  }

  lemma AlikeMatches(a: Client, b: Client)
    requires a.Valid() && b.Valid() && Alike(Schedules.Value(b), Schedules.Value(a))
    ensures Matches(a, b)
  {
    hide Client.Receiving, Client.Sending, Contents;
  }
}
