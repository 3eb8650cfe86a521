/**
 * The wire format as a byte stream: frames are a 2-byte little-endian body length and a body.
 * `Frames` is the simple recursive parser; `Poll` is one call of the receive path.
 */
module Framing {
  import opened Bytes

  /** The smallest frame the server looks at: length, type and subtype. */
  const MIN_FRAME: nat := 6

  /** The total size the head declares, computed in `uint16_t`. */
  function Declared(s: seq<Byte>): (d: nat)
    requires |s| >= 2
    ensures d < U16_LIMIT
  {
    Wrap16(Word(s, 0) + 2)
  }

  /** The stream starts with a complete frame that the receive buffer can hold. */
  predicate HeadReady(s: seq<Byte>) {
    |s| >= 2 && MIN_FRAME <= Declared(s) <= BUFFER_SIZE && Declared(s) <= |s|
  }

  /** The head declares a size no frame can have. */
  predicate Poisoned(s: seq<Byte>) {
    |s| >= 2 && !(MIN_FRAME <= Declared(s) <= BUFFER_SIZE)
  }

  /** One whole frame and nothing else. */
  predicate Whole(f: seq<Byte>) {
    HeadReady(f) && |f| == Declared(f)
  }

  /** A frame in plain numbers: at least a head, at most a buffer, and its length in front. */
  lemma WholeIff(f: seq<Byte>)
    ensures Whole(f) <==> 6 <= |f| <= 8192 && Word(f, 0) == |f| - 2
  {
  }

  /** The stream starts with one. */
  lemma HeadReadyIff(s: seq<Byte>)
    ensures HeadReady(s) <==> |s| >= 2 && 4 <= Word(s, 0) <= 8190 && Word(s, 0) + 2 <= |s|
    ensures HeadReady(s) ==> Declared(s) == Word(s, 0) + 2
  {
  }

  /** The lengths no frame can have, the two that wrap around included. */
  lemma PoisonedIff(s: seq<Byte>)
    ensures Poisoned(s) <==> |s| >= 2 && !(4 <= Word(s, 0) <= 8190)
  {
  }

  predicate AllWhole(fs: seq<seq<Byte>>) {
    forall i :: 0 <= i < |fs| ==> Whole(fs[i])
  }

  /** The longest run of complete frames at the front of the stream. */
  function Frames(s: seq<Byte>): seq<seq<Byte>>
    decreases |s|
  {
    if HeadReady(s) then [s[..Declared(s)]] + Frames(s[Declared(s)..]) else []
  }

  /** What is left of the stream behind its complete frames. */
  function Rest(s: seq<Byte>): seq<Byte>
    decreases |s|
  {
    if HeadReady(s) then Rest(s[Declared(s)..]) else s
  }

  lemma HeadIsStable(s: seq<Byte>, t: seq<Byte>)
    requires |s| >= 2
    ensures Declared(s + t) == Declared(s)
    ensures HeadReady(s) ==> HeadReady(s + t)
    ensures HeadReady(s) ==> (s + t)[..Declared(s)] == s[..Declared(s)]
    ensures HeadReady(s) ==> (s + t)[Declared(s)..] == s[Declared(s)..] + t
    ensures Poisoned(s) <==> Poisoned(s + t)
  {
  }

  lemma HeadIsWhole(s: seq<Byte>)
    requires HeadReady(s)
    ensures Whole(s[..Declared(s)])
    ensures s[..Declared(s)] + s[Declared(s)..] == s
  {
  }

  /** Frames and rest together are the stream: the parser loses and invents nothing. */
  lemma {:induction false} ParsePartitions(s: seq<Byte>)
    ensures Concat(Frames(s)) + Rest(s) == s
    ensures AllWhole(Frames(s))
    ensures !HeadReady(Rest(s))
    decreases |s|
  {
    if HeadReady(s) {
      var head, tail := s[..Declared(s)], s[Declared(s)..];
      ParsePartitions(tail);
      HeadIsWhole(s);
      PartitionStep(s, head, tail, Frames(tail), Rest(tail));
    }
  }

  lemma PartitionStep(s: seq<Byte>, head: seq<Byte>, tail: seq<Byte>, fs: seq<seq<Byte>>, rest: seq<Byte>)
    requires s == head + tail && tail == Concat(fs) + rest
    requires Whole(head) && AllWhole(fs)
    ensures Concat([head] + fs) + rest == s
    ensures AllWhole([head] + fs)
  {
  }

  /** Later bytes never change the frames already complete. */
  lemma {:induction false} ParseExtends(s: seq<Byte>, t: seq<Byte>)
    ensures Frames(s + t) == Frames(s) + Frames(Rest(s) + t)
    ensures Rest(s + t) == Rest(Rest(s) + t)
    decreases |s|
  {
    if HeadReady(s) {
      HeadIsStable(s, t);
      ParseExtends(s[Declared(s)..], t);
    }
  }

  lemma FrameInFront(f: seq<Byte>, tail: seq<Byte>, s: seq<Byte>)
    requires Whole(f) && s == f + tail
    ensures Frames(s) == [f] + Frames(tail)
    ensures Rest(s) == Rest(tail)
  {
    HeadIsStable(f, tail);
    assert f[..|f|] == f && f[|f|..] + tail == tail;
  }

  lemma {:induction false} ParseOneByOne(fs: seq<seq<Byte>>, joined: seq<Byte>, t: seq<Byte>, s: seq<Byte>)
    requires AllWhole(fs) && joined == Concat(fs) && s == joined + t
    ensures Frames(s) == fs + Frames(t) && Rest(s) == Rest(t)
    decreases |fs|
  {
    if fs == [] {
      assert s == t;
      assert fs + Frames(t) == Frames(t);
    } else {
      var others, later := fs[1..], Concat(fs[1..]);
      AppendAssoc(fs[0], later, t);
      ParseOneByOne(others, later, t, later + t);
      ParseInFront(fs[0], others, later + t, t, s);
      assert [fs[0]] + others == fs;
    }
  }

  lemma ParseInFront(f: seq<Byte>, others: seq<seq<Byte>>, tail: seq<Byte>, t: seq<Byte>, s: seq<Byte>)
    requires Whole(f) && s == f + tail
    requires Frames(tail) == others + Frames(t) && Rest(tail) == Rest(t)
    ensures Frames(s) == [f] + others + Frames(t) && Rest(s) == Rest(t)
  {
    FrameInFront(f, tail, s);
    AppendAssoc([f], others, Frames(t));
  }

  /** Frames are self-delimiting: parsing a concatenation of whole frames gives them back. */
  lemma ParseOfConcat(fs: seq<seq<Byte>>, t: seq<Byte>)
    requires AllWhole(fs)
    ensures Frames(Concat(fs) + t) == fs + Frames(t)
    ensures Rest(Concat(fs) + t) == Rest(t)
  {
    ParseOneByOne(fs, Concat(fs), t, Concat(fs) + t);
  }

  /** A prefix of a stream parses to a prefix of its frames. */
  lemma ParseOfPrefix(s: seq<Byte>, fs: seq<seq<Byte>>)
    requires s <= Concat(fs) && AllWhole(fs)
    ensures Frames(s) <= fs
    ensures s == Concat(fs) ==> Frames(s) == fs && Rest(s) == []
  {
    var whole := Concat(fs);
    ParseOfConcat(fs, []);
    assert whole + [] == whole;
    assert Frames([]) == [] && fs + [] == fs;
    var t := whole[|s|..];
    assert s + t == whole;
    ParseExtends(s, t);
  }

  // ---------------------------------------------------------------- the receive path

  /** What one call of the receive path leaves in the buffer when `chunk` (perhaps empty) arrives. */
  function After(pending: seq<Byte>, chunk: seq<Byte>): seq<Byte> {
    var s := pending + chunk;
    if HeadReady(s) then s[Declared(s)..] else s
  }

  /** The frame that call delivers, if any: never more than one. */
  function Taken(pending: seq<Byte>, chunk: seq<Byte>): seq<seq<Byte>> {
    var s := pending + chunk;
    if HeadReady(s) then [s[..Declared(s)]] else []
  }

  /** One call in plain numbers: the head frame leaves when it is complete and of a legal length. */
  lemma OneCallIs(pending: seq<Byte>, chunk: seq<Byte>)
    ensures var s := pending + chunk;
            if |s| >= 2 && 4 <= Word(s, 0) <= 8190 && Word(s, 0) + 2 <= |s|
            then Taken(pending, chunk) == [s[..Word(s, 0) + 2]] && After(pending, chunk) == s[Word(s, 0) + 2..]
            else Taken(pending, chunk) == [] && After(pending, chunk) == s
  {
  }

  /** A schedule in which `recv` brings nothing. */
  predicate Idle(chunks: seq<seq<Byte>>) {
    forall i :: 0 <= i < |chunks| ==> chunks[i] == []
  }

  /** The bytes left in the buffer after a whole schedule of calls. */
  function Left(pending: seq<Byte>, chunks: seq<seq<Byte>>): seq<Byte>
    decreases |chunks|
  {
    if chunks == [] then pending else Left(After(pending, chunks[0]), chunks[1..])
  }

  /** The frames delivered by a whole schedule of calls. */
  function Out(pending: seq<Byte>, chunks: seq<seq<Byte>>): seq<seq<Byte>>
    decreases |chunks|
  {
    if chunks == [] then [] else Taken(pending, chunks[0]) + Out(After(pending, chunks[0]), chunks[1..])
  }

  /** Every chunk fits into the free part of the receive buffer when it arrives. */
  predicate Fits(pending: seq<Byte>, chunks: seq<seq<Byte>>)
    decreases |chunks|
  {
    chunks != [] ==>
      && |pending| + |chunks[0]| <= BUFFER_SIZE
      && Fits(After(pending, chunks[0]), chunks[1..])
  }

  lemma OneCall(pending: seq<Byte>, chunk: seq<Byte>, later: seq<Byte>)
    ensures Frames(pending + chunk + later) == Taken(pending, chunk) + Frames(After(pending, chunk) + later)
    ensures Rest(pending + chunk + later) == Rest(After(pending, chunk) + later)
    ensures Concat(Taken(pending, chunk)) + After(pending, chunk) == pending + chunk
  {
    var s := pending + chunk;
    if HeadReady(s) {
      HeadIsStable(s, later);
      HeadIsWhole(s);
      var head := s[..Declared(s)];
      assert Concat([head]) == head + [] == head;
    } else {
      assert [] + Frames(s + later) == Frames(s + later);
      assert Concat([]) + s == s;
    }
  }

  /**
   * Chunking independence: whatever the schedule, the delivered frames followed by the frames
   * still complete in the buffer are the frames of the stream, and the rest is its rest.
   */
  lemma {:induction false} PollsFollowParser(pending: seq<Byte>, chunks: seq<seq<Byte>>)
    ensures Frames(pending + Concat(chunks)) == Out(pending, chunks) + Frames(Left(pending, chunks))
    ensures Rest(pending + Concat(chunks)) == Rest(Left(pending, chunks))
    decreases |chunks|
  {
    if chunks == [] {
      assert pending + Concat(chunks) == pending;
      assert Out(pending, chunks) + Frames(pending) == Frames(pending);
    } else {
      var later := Concat(chunks[1..]);
      var next := After(pending, chunks[0]);
      AppendAssoc(pending, chunks[0], later);
      OneCall(pending, chunks[0], later);
      PollsFollowParser(next, chunks[1..]);
      AppendAssoc(Taken(pending, chunks[0]), Out(next, chunks[1..]), Frames(Left(next, chunks[1..])));
    }
  }

  /** Conservation: delivered frames and buffered bytes are exactly what arrived, in order. */
  lemma {:induction false} PollsConserve(pending: seq<Byte>, chunks: seq<seq<Byte>>)
    ensures Concat(Out(pending, chunks)) + Left(pending, chunks) == pending + Concat(chunks)
    decreases |chunks|
  {
    if chunks == [] {
      assert pending + Concat(chunks) == pending;
      assert Concat([]) + pending == pending;
    } else {
      var next := After(pending, chunks[0]);
      var more := Out(next, chunks[1..]);
      OneCall(pending, chunks[0], []);
      PollsConserve(next, chunks[1..]);
      ConcatAppend(Taken(pending, chunks[0]), more);
      Chain(Concat(Taken(pending, chunks[0])), next, pending, chunks[0],
            Concat(more), Left(next, chunks[1..]), Concat(chunks[1..]));
    }
  }

  lemma Chain(x: seq<Byte>, next: seq<Byte>, p: seq<Byte>, c: seq<Byte>,
              m: seq<Byte>, left: seq<Byte>, later: seq<Byte>)
    requires x + next == p + c && m + left == next + later
    ensures (x + m) + left == p + (c + later)
  {
    AppendAssoc(x, m, left);
    AppendAssoc(x, next, later);
    AppendAssoc(p, c, later);
  }

  /** Empty polls alone deliver every complete frame already buffered. */
  lemma {:induction false} EmptyPollsDrain(pending: seq<Byte>, chunks: seq<seq<Byte>>)
    requires Idle(chunks) && |chunks| >= |Frames(pending)|
    ensures Left(pending, chunks) == Rest(pending)
    ensures Out(pending, chunks) == Frames(pending)
    decreases |chunks|
  {
    if chunks != [] {
      assert pending + chunks[0] == pending;
      EmptyPollsDrain(After(pending, chunks[0]), chunks[1..]);
      assert !HeadReady(pending) ==> [] + Out(pending, chunks[1..]) == Out(pending, chunks[1..]);
    }
  }

  lemma {:induction false} FewerFramesThanBytes(s: seq<Byte>)
    ensures |Frames(s)| <= |s|
    decreases |s|
  {
    if HeadReady(s) {
      FewerFramesThanBytes(s[Declared(s)..]);
    }
  }

  lemma {:induction false} PollsAppend(pending: seq<Byte>, a: seq<seq<Byte>>, b: seq<seq<Byte>>)
    ensures Left(pending, a + b) == Left(Left(pending, a), b)
    ensures Out(pending, a + b) == Out(pending, a) + Out(Left(pending, a), b)
    decreases |a|
  {
    if a == [] {
      assert a + b == b;
      assert [] + Out(pending, b) == Out(pending, b);
    } else {
      assert (a + b)[0] == a[0] && (a + b)[1..] == a[1..] + b;
      var next := After(pending, a[0]);
      PollsAppend(next, a[1..], b);
      AppendAssoc(Taken(pending, a[0]), Out(next, a[1..]), Out(Left(next, a[1..]), b));
    }
  }

  lemma DrainedSchedule(a: seq<seq<Byte>>, idle: seq<seq<Byte>>)
    requires Idle(idle) && |idle| >= |Concat(a)|
    ensures Left([], a + idle) == Rest(Concat(a))
    ensures Out([], a + idle) == Frames(Concat(a))
  {
    PollsFollowParser([], a);
    PollsConserve([], a);
    assert [] + Concat(a) == Concat(a);
    FewerFramesThanBytes(Left([], a));
    EmptyPollsDrain(Left([], a), idle);
    PollsAppend([], a, idle);
  }

  /**
   * Two schedules that carry the same bytes and then poll often enough deliver the same
   * frames and keep the same rest, however the bytes were cut.
   */
  lemma ChunkingIndependence(a: seq<seq<Byte>>, b: seq<seq<Byte>>, idle: seq<seq<Byte>>)
    requires Concat(a) == Concat(b)
    requires Idle(idle) && |idle| >= |Concat(a)|
    ensures Out([], a + idle) == Out([], b + idle) == Frames(Concat(a))
    ensures Left([], a + idle) == Left([], b + idle) == Rest(Concat(a))
  {
    DrainedSchedule(a, idle);
    DrainedSchedule(b, idle);
  }

  /** Once the head is poisoned nothing is delivered ever again and the head is kept. */
  lemma {:induction false} PoisonIsForever(pending: seq<Byte>, chunks: seq<seq<Byte>>)
    requires Poisoned(pending)
    ensures Out(pending, chunks) == []
    ensures Left(pending, chunks) == pending + Concat(chunks)
    decreases |chunks|
  {
    if chunks == [] {
      assert pending + Concat(chunks) == pending;
    } else {
      HeadIsStable(pending, chunks[0]);
      PoisonIsForever(pending + chunks[0], chunks[1..]);
      AppendAssoc(pending, chunks[0], Concat(chunks[1..]));
    }
  }

  /** No deadlock: a full buffer holds a complete head frame unless the head is poisoned. */
  lemma FullBufferIsReady(pending: seq<Byte>)
    requires |pending| == BUFFER_SIZE
    ensures HeadReady(pending) <==> !Poisoned(pending)
  {
  }

  /** What the receive buffer holds never exceeds its size, over any schedule `recv` can make. */
  lemma {:induction false} PendingFits(pending: seq<Byte>, chunks: seq<seq<Byte>>)
    requires |pending| <= BUFFER_SIZE && Fits(pending, chunks)
    ensures |Left(pending, chunks)| <= BUFFER_SIZE
    decreases |chunks|
  {
    if chunks != [] {
      PendingFits(After(pending, chunks[0]), chunks[1..]);
    }
  }
}
