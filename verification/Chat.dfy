/**
 * The chat relay: three kinds of message are decoded from the packet buffer, built again field
 * by field on a clear buffer, and broadcast.
 */
module Chat {
  import opened Bytes
  import opened Packet
  import opened Framing
  import opened Outgoing
  import opened Sessions
  import opened Servers

  const CHAT_TYPE: nat := 4
  const NAME: nat := 0x10
  const TEXT: nat := 0x4E

  datatype Message =
    | Offline(ty: nat, fromHandle: seq<Byte>, toHandle: seq<Byte>, text: seq<Byte>)
    | Inform(toHandle: seq<Byte>, text: seq<Byte>, colour: nat)
    | TeamChat(fromHandle: seq<Byte>, text: seq<Byte>, teamId: nat)

  /** What the handler reads for subtype 0, 1 or 2. */
  function ReadMessage(b: seq<Byte>, subtype: nat): Message
    requires |b| == BUFFER_SIZE && subtype < 3
  {
    if subtype == 0 then
      var (ty, o1) := ReadLE(b, 6, 1);
      var (fromHandle, o2) := ReadString(b, o1, NAME);
      var (toHandle, o3) := ReadString(b, o2, NAME);
      Offline(ty, fromHandle, toHandle, ReadString(b, o3, TEXT).0)
    else
      var (name, o1) := ReadString(b, 6, NAME);
      var (text, o2) := ReadString(b, o1, TEXT);
      var number := ReadLE(b, o2, 4).0;
      if subtype == 1 then Inform(name, text, number) else TeamChat(name, text, number)
  }

  /** Where the fields of each kind of message stand. */
  lemma MessageLayout(b: seq<Byte>)
    requires |b| == BUFFER_SIZE
    ensures ReadMessage(b, 0) == Offline(Value(b[6..7]), CString(b[7..]), CString(b[23..]), CString(b[39..]))
    ensures ReadMessage(b, 1) == Inform(CString(b[6..]), CString(b[22..]), Value(b[100..104]))
    ensures ReadMessage(b, 2) == TeamChat(CString(b[6..]), CString(b[22..]), Value(b[100..104]))
  {
    hide Value, CString;
  }

  /** The packet built from a message. */
  function Relayed(m: Message): (r: Image)
    ensures Sound(r)
  {
    match m
    case Offline(ty, fromHandle, toHandle, text) =>
      AppendedString(AppendedString(AppendedString(Appended(Begun(CHAT_TYPE, 0), LE(1, ty)),
                                                   fromHandle, NAME), toHandle, NAME), text, TEXT)
    case Inform(toHandle, text, colour) =>
      Appended(AppendedString(AppendedString(Begun(CHAT_TYPE, 1), toHandle, NAME), text, TEXT), LE(4, colour))
    case TeamChat(fromHandle, text, teamId) =>
      Appended(AppendedString(AppendedString(Begun(CHAT_TYPE, 2), fromHandle, NAME), text, TEXT), LE(4, teamId))
  }

  /** The calls that build it. */
  function CallsOf(m: Message): seq<Call> {
    match m
    case Offline(ty, fromHandle, toHandle, text) =>
      [Num(1, ty), Text(fromHandle, NAME), Text(toHandle, NAME), Text(text, TEXT)]
    case Inform(toHandle, text, colour) => [Text(toHandle, NAME), Text(text, TEXT), Num(4, colour)]
    case TeamChat(fromHandle, text, teamId) => [Text(fromHandle, NAME), Text(text, TEXT), Num(4, teamId)]
  }

  function SubtypeOf(m: Message): nat {
    match m
    case Offline(_, _, _, _) => 0
    case Inform(_, _, _) => 1
    case TeamChat(_, _, _) => 2
  }

  lemma RelayedIsBuilt(m: Message)
    ensures Relayed(m) == Build(Begun(CHAT_TYPE, SubtypeOf(m)), CallsOf(m))
  {
    hide Appended, AppendedString, Begun, LE;
    var calls, start := CallsOf(m), Begun(CHAT_TYPE, SubtypeOf(m));
    BuildOneMore(start, [], calls[0]);
    BuildOneMore(start, [calls[0]], calls[1]);
    BuildOneMore(start, [calls[0], calls[1]], calls[2]);
    assert [] + [calls[0]] == [calls[0]] && [calls[0]] + [calls[1]] == [calls[0], calls[1]];
    assert [calls[0], calls[1]] + [calls[2]] == [calls[0], calls[1], calls[2]];
    if |calls| == 4 {
      BuildOneMore(start, [calls[0], calls[1], calls[2]], calls[3]);
      assert [calls[0], calls[1], calls[2]] + [calls[3]] == calls;
    } else {
      assert [calls[0], calls[1], calls[2]] == calls;
    }
  }

  /** The handler up to the broadcast; `sent` says whether there is one. */
  method ClientOperations(inbuf: ServerPacket, outbuf: ServerPacket) returns (sent: bool)
    requires inbuf.Valid() && outbuf.Valid() && inbuf != outbuf && inbuf.buffer != outbuf.buffer
    modifies inbuf, outbuf, outbuf.buffer
    ensures inbuf.Valid() && outbuf.Valid() && inbuf.buffer[..] == old(inbuf.buffer[..])
    ensures sent <==> Word(inbuf.buffer[..], 4) < 3
    ensures sent ==> outbuf.Img() == Relayed(ReadMessage(inbuf.buffer[..], Word(inbuf.buffer[..], 4)))
    ensures !sent ==> outbuf.Img() == old(outbuf.Img())
  {
    hide Appended, AppendedString, Begun, CString, Value, Pow256;
    inbuf.pOffset := 6;
    var subtype := Word(inbuf.buffer[..], 4);
    ghost var b := inbuf.buffer[..];
    Pow256Values();
    if subtype == 0 {
      var ty := inbuf.Get(1);
      var fromHandle := inbuf.GetStringA(NAME);
      var toHandle := inbuf.GetStringA(NAME);
      var message := inbuf.GetStringA(TEXT);
      LEOfValue(b[6..7]);
      assert ReadMessage(b, 0) == Offline(ty, fromHandle, toHandle, message);
      outbuf.Begin(CHAT_TYPE, 0);
      outbuf.Append(1, ty);
      outbuf.AppendString(fromHandle, NAME);
      outbuf.AppendString(toHandle, NAME);
      outbuf.AppendString(message, TEXT);
      return true;
    }
    if subtype == 1 || subtype == 2 {
      var name := inbuf.GetStringA(NAME);
      var message := inbuf.GetStringA(TEXT);
      var number := inbuf.Get(4);
      LEOfValue(b[100..104]);
      assert ReadMessage(b, subtype)
          == if subtype == 1 then Inform(name, message, number) else TeamChat(name, message, number);
      outbuf.Begin(CHAT_TYPE, subtype);
      outbuf.AppendString(name, NAME);
      outbuf.AppendString(message, TEXT);
      outbuf.Append(4, number);
      return true;
    }
    return false;
  }

  // ---------------------------------------------------------------- one field

  predicate NoNul(b: seq<Byte>, lo: nat, hi: nat) {
    forall j :: lo <= j < hi && j < |b| ==> b[j] != 0
  }

  /** The byte a rebuilt field shows at `i`: the original up to the first NUL of the field, then zero. */
  function Tail(b: seq<Byte>, o: nat, i: nat): Byte
    requires i < |b|
  {
    if NoNul(b, o, i) then b[i] else 0
  }

  predicate FieldIs(out: seq<Byte>, b: seq<Byte>, o: nat, width: nat)
    requires |out| == |b| && o + width <= |b|
  {
    forall i :: o <= i < o + width ==> out[i] == Tail(b, o, i)
  }

  /**
   * Behind the cursor the buffer is clear, or holds the end of a string that ran over its field,
   * and that end is what the original has there.
   */
  predicate Spill(out: seq<Byte>, b: seq<Byte>, c: nat)
    requires |out| == |b|
  {
    forall i :: c <= i < |b| ==> out[i] == 0 || (out[i] == b[i] && NoNul(b, c, i + 1))
  }

  /** Rebuilding the field at the cursor, however long its string really is. */
  lemma FieldRebuilt(im: Image, src: Image, width: nat)
    requires Sound(im) && Sound(src) && im.off == im.size && im.off + width < BUFFER_SIZE
    requires Spill(im.bytes, src.bytes, im.off)
    ensures var o := im.off;
            var next := AppendedString(im, CString(src.bytes[o..]), width);
            && next.off == next.size == o + width
            && next.bytes[..o] == im.bytes[..o]
            && FieldIs(next.bytes, src.bytes, o, width)
            && Spill(next.bytes, src.bytes, o + width)
  {
    var o, b := im.off, src.bytes;
    var text := CString(b[o..]);
    hide AppendedString, CString, Splice, Tail, Spill;
    var next := AppendedString(im, text, width);
    StringStaysInside(src, o);
    StringWritten(im, text, width);
    assert forall i :: o <= i < BUFFER_SIZE ==> next.bytes[i] == Tail(b, o, i) by {
      TextBytes(b, o);
      TailWritten(next.bytes, im.bytes, b, o, |text|);
    }
    TailSpills(next.bytes, b, o, width);
  }

  lemma TextBytes(b: seq<Byte>, o: nat)
    requires o < |b|
    ensures var text := CString(b[o..]);
            o + |text| <= |b| && forall j :: o <= j < o + |text| ==> b[j] == text[j - o] != 0
  {
  }

  /** A string written over a spill leaves exactly its own tail behind. */
  lemma TailWritten(after: seq<Byte>, before: seq<Byte>, b: seq<Byte>, o: nat, n: nat)
    requires |after| == |before| == |b| && o + n < |b| && Spill(before, b, o)
    requires forall i :: o <= i < o + n ==> after[i] == b[i] != 0
    requires after[o + n] == b[o + n] == 0
    requires forall i :: o + n < i < |b| ==> after[i] == before[i]
    ensures forall i :: o <= i < |b| ==> after[i] == Tail(b, o, i)
  {
  }

  lemma TailSpills(out: seq<Byte>, b: seq<Byte>, o: nat, width: nat)
    requires |out| == |b| && forall i :: o <= i < |b| ==> out[i] == Tail(b, o, i)
    ensures Spill(out, b, o + width)
  {
  }

  /** `AppendedString` byte by byte, for a text without NULs. */
  lemma StringWritten(im: Image, text: seq<Byte>, width: nat)
    requires Sound(im) && 0 !in text && im.off + |text| < BUFFER_SIZE
    requires im.off == im.size && im.off + width < BUFFER_SIZE
    ensures var next := AppendedString(im, text, width);
            && next.off == next.size == im.off + width
            && next.bytes[..im.off] == im.bytes[..im.off]
            && next.bytes[im.off + |text|] == 0
            && (forall i :: im.off <= i < im.off + |text| ==> next.bytes[i] == text[i - im.off])
            && (forall i :: im.off + |text| < i < BUFFER_SIZE ==> next.bytes[i] == im.bytes[i])
  {
  }

  // ---------------------------------------------------------------- reading the rebuilt record

  /** The first NUL at or behind `o`. */
  function End(b: seq<Byte>, o: nat): nat
    requires o < |b|
  {
    o + StrLen(b[o..])
  }

  lemma EndIs(src: Image, o: nat)
    requires Sound(src) && o < BUFFER_SIZE
    ensures o <= End(src.bytes, o) < BUFFER_SIZE && src.bytes[End(src.bytes, o)] == 0
    ensures NoNul(src.bytes, o, End(src.bytes, o))
    ensures CString(src.bytes[o..]) == src.bytes[o..End(src.bytes, o)]
  {
  }

  /** Inside one field the rebuilt record shows a string that started at or before it unchanged. */
  lemma StringInField(out: seq<Byte>, b: seq<Byte>, o: nat, field: nat, width: nat, end: nat)
    requires |out| == |b| && o <= field && field + width <= |b|
    requires FieldIs(out, b, field, width) && NoNul(b, o, end)
    ensures forall i :: field <= i < field + width && i <= end ==> out[i] == b[i]
  {
  }

  /** A string read from the rebuilt record is the original one if the original ends by the record's end. */
  lemma StringSurvives(src: Image, out: seq<Byte>, o: nat, recordEnd: nat)
    requires Sound(src) && |out| == BUFFER_SIZE && o <= recordEnd < BUFFER_SIZE
    requires forall i :: o <= i < recordEnd && i <= End(src.bytes, o) ==> out[i] == src.bytes[i]
    requires out[recordEnd] == 0
    ensures CString(out[o..]) == CString(src.bytes[o..]) <==> End(src.bytes, o) <= recordEnd
  {
  }

  /** The receiver's buffer: the built record, and a zero right behind it. */
  lemma RecordArrives(im: Image, stale: seq<Byte>)
    requires Sound(im) && im.off == im.size && 20 <= im.size <= 8000 && (im.size - 2) % 16 != 0
    requires |stale| == BUFFER_SIZE
    ensures Emitted(im) != [] && |Emitted(im)[0]| < BUFFER_SIZE
    ensures var b := Presented(stale, Emitted(im)[0]);
            b[2..im.size] == im.bytes[2..im.size] && b[im.size] == 0
  {
  }

  // ---------------------------------------------------------------- the relay

  /** Where the text starts and where the record ends. */
  function TextStart(subtype: nat): nat {
    if subtype == 0 then 39 else 22
  }

  function RecordEnd(subtype: nat): nat {
    if subtype == 0 then 117 else 104
  }

  lemma OfflineRecord(src: Image)
    requires Sound(src)
    ensures var im := Relayed(ReadMessage(src.bytes, 0));
            && im.off == im.size == 117
            && im.bytes[6] == src.bytes[6]
            && FieldIs(im.bytes, src.bytes, 7, NAME)
            && FieldIs(im.bytes, src.bytes, 23, NAME)
            && FieldIs(im.bytes, src.bytes, 39, TEXT)
            && Word(im.bytes, 2) == CHAT_TYPE && Word(im.bytes, 4) == 0
  {
    hide FieldIs, Spill, Begun, CString, Value, LE, AppendedString, Splice;
    var b := src.bytes;
    BegunIsBuilt(CHAT_TYPE, 0);
    LEOfValue(b[6..7]);
    var i1 := Appended(Begun(CHAT_TYPE, 0), b[6..7]);
    ClearBehind(i1, b);
    var i2 := AppendedString(i1, CString(b[7..]), NAME);
    var i3 := AppendedString(i2, CString(b[23..]), NAME);
    var i4 := AppendedString(i3, CString(b[39..]), TEXT);
    FieldRebuilt(i1, src, NAME);
    FieldRebuilt(i2, src, NAME);
    FieldRebuilt(i3, src, TEXT);
    FieldStays(i2.bytes, i3.bytes, b, 7, NAME, 23);
    FieldStays(i3.bytes, i4.bytes, b, 7, NAME, 39);
    FieldStays(i3.bytes, i4.bytes, b, 23, NAME, 39);
    HeadStays(i1.bytes, i4.bytes, i2.bytes, i3.bytes, 7, 23, 39);
    assert i4.bytes[..7][..6] == i4.bytes[..6] && i1.bytes[..7][..6] == i1.bytes[..6];
    SameWords(i1.bytes, i4.bytes);
    assert i4.bytes[6] == i4.bytes[..7][6] == i1.bytes[6] == b[6];
    assert LE(1, Value(b[6..7])) == b[6..7];
  }

  lemma ClearBehind(im: Image, b: seq<Byte>)
    requires Sound(im) && |b| == BUFFER_SIZE
    requires forall i :: im.off <= i < BUFFER_SIZE ==> im.bytes[i] == 0
    ensures Spill(im.bytes, b, im.off)
  {
  }

  lemma FieldStays(before: seq<Byte>, after: seq<Byte>, b: seq<Byte>, o: nat, width: nat, cut: nat)
    requires |before| == |after| == |b| && o + width <= cut <= |b|
    requires FieldIs(before, b, o, width) && after[..cut] == before[..cut]
    ensures FieldIs(after, b, o, width)
  {
  }

  lemma HeadStays(first: seq<Byte>, last: seq<Byte>, x: seq<Byte>, y: seq<Byte>, p: nat, q: nat, r: nat)
    requires |first| == |last| == |x| == |y| && p <= q <= r <= |last|
    requires x[..p] == first[..p] && y[..q] == x[..q] && last[..r] == y[..r]
    ensures last[..p] == first[..p]
  {
  }

  lemma NumberedRecord(src: Image, subtype: nat)
    requires Sound(src) && (subtype == 1 || subtype == 2)
    ensures var im := Relayed(ReadMessage(src.bytes, subtype));
            && im.off == im.size == 104
            && FieldIs(im.bytes, src.bytes, 6, NAME)
            && FieldIs(im.bytes, src.bytes, 22, TEXT)
            && im.bytes[100..104] == src.bytes[100..104]
            && Word(im.bytes, 2) == CHAT_TYPE && Word(im.bytes, 4) == subtype
  {
    hide FieldIs, Spill, Begun, CString, Value, LE, AppendedString, Splice;
    var b := src.bytes;
    BegunIsBuilt(CHAT_TYPE, subtype);
    LEOfValue(b[100..104]);
    var i1 := Begun(CHAT_TYPE, subtype);
    ClearBehind(i1, b);
    var i2 := AppendedString(i1, CString(b[6..]), NAME);
    var i3 := AppendedString(i2, CString(b[22..]), TEXT);
    var i4 := Appended(i3, b[100..104]);
    FieldRebuilt(i1, src, NAME);
    FieldRebuilt(i2, src, TEXT);
    assert i4.bytes[..100] == i3.bytes[..100] && i4.bytes[100..104] == b[100..104];
    FieldStays(i2.bytes, i3.bytes, b, 6, NAME, 22);
    FieldStays(i3.bytes, i4.bytes, b, 6, NAME, 100);
    FieldStays(i3.bytes, i4.bytes, b, 22, TEXT, 100);
    HeadStays(i1.bytes, i4.bytes, i2.bytes, i3.bytes, 6, 22, 100);
    SameWords(i1.bytes, i4.bytes);
    assert LE(4, Value(b[100..104])) == b[100..104];
  }

  lemma SameMiddle(a: seq<Byte>, b: seq<Byte>, end: nat)
    requires |a| == |b| && 6 <= end <= |a| && a[2..end] == b[2..end]
    ensures forall i :: 2 <= i < end ==> a[i] == b[i]
    ensures Word(a, 2) == Word(b, 2) && Word(a, 4) == Word(b, 4)
  {
  }

  lemma SameWords(a: seq<Byte>, b: seq<Byte>)
    requires |a| == |b| >= 6 && a[..6] == b[..6]
    ensures Word(a, 2) == Word(b, 2) && Word(a, 4) == Word(b, 4)
  {
  }

  /** The receiver's buffer shows every field as the sender's packet had it. */
  lemma FieldArrives(im: Image, b: seq<Byte>, src: seq<Byte>, o: nat, width: nat)
    requires |im.bytes| == |b| == |src| && 2 <= o && o + width <= im.size <= |b|
    requires b[2..im.size] == im.bytes[2..im.size] && FieldIs(im.bytes, src, o, width)
    ensures FieldIs(b, src, o, width)
  {
  }

  /** A string that starts earlier ends no later. */
  lemma EarlierEnd(src: Image, o: nat, later: nat)
    requires Sound(src) && o <= later < BUFFER_SIZE
    ensures End(src.bytes, o) <= End(src.bytes, later)
  {
  }

  /** The text ends in the record or right behind it: what a caller can check before relaying. */
  predicate TextEnds(src: Image, subtype: nat)
    requires Sound(src)
  {
    End(src.bytes, TextStart(subtype)) <= RecordEnd(subtype)
  }

  lemma OfflineArrives(src: Image, stale: seq<Byte>)
    requires Sound(src) && |stale| == BUFFER_SIZE
    ensures var out := Emitted(Relayed(ReadMessage(src.bytes, 0)));
            && out != []
            && Word(Presented(stale, out[0]), 2) == CHAT_TYPE && Word(Presented(stale, out[0]), 4) == 0
            && (ReadMessage(Presented(stale, out[0]), 0) == ReadMessage(src.bytes, 0) <==> TextEnds(src, 0))
  {
    hide FieldIs, Tail, Relayed, Emitted, Presented, CString, End;
    var im := Relayed(ReadMessage(src.bytes, 0));
    OfflineRecord(src);
    RecordArrives(im, stale);
    var b := Presented(stale, Emitted(im)[0]);
    assert b[6] == b[2..117][4] == im.bytes[2..117][4];
    SameMiddle(b, im.bytes, 117);
    FieldArrives(im, b, src.bytes, 7, NAME);
    FieldArrives(im, b, src.bytes, 23, NAME);
    FieldArrives(im, b, src.bytes, 39, TEXT);
    OfflineString(src, b, 7);
    OfflineString(src, b, 23);
    OfflineString(src, b, 39);
    EarlierEnd(src, 7, 39);
    EarlierEnd(src, 23, 39);
    assert b[6..7] == src.bytes[6..7];
  }

  lemma OfflineString(src: Image, b: seq<Byte>, o: nat)
    requires Sound(src) && |b| == BUFFER_SIZE && o in {7, 23, 39} && b[117] == 0
    requires FieldIs(b, src.bytes, 7, NAME) && FieldIs(b, src.bytes, 23, NAME) && FieldIs(b, src.bytes, 39, TEXT)
    ensures CString(b[o..]) == CString(src.bytes[o..]) <==> End(src.bytes, o) <= 117
  {
    EndIs(src, o);
    var end := End(src.bytes, o);
    if o <= 7 { StringInField(b, src.bytes, o, 7, NAME, end); }
    if o <= 23 { StringInField(b, src.bytes, o, 23, NAME, end); }
    StringInField(b, src.bytes, o, 39, TEXT, end);
    StringSurvives(src, b, o, 117);
  }

  lemma NumberedArrives(src: Image, subtype: nat, stale: seq<Byte>)
    requires Sound(src) && |stale| == BUFFER_SIZE && (subtype == 1 || subtype == 2)
    ensures var out := Emitted(Relayed(ReadMessage(src.bytes, subtype)));
            && out != []
            && Word(Presented(stale, out[0]), 2) == CHAT_TYPE && Word(Presented(stale, out[0]), 4) == subtype
            && (ReadMessage(Presented(stale, out[0]), subtype) == ReadMessage(src.bytes, subtype)
                <==> TextEnds(src, subtype))
  {
    hide FieldIs, Tail, Relayed, Emitted, Presented, CString, End;
    var im := Relayed(ReadMessage(src.bytes, subtype));
    NumberedRecord(src, subtype);
    RecordArrives(im, stale);
    var b := Presented(stale, Emitted(im)[0]);
    SameMiddle(b, im.bytes, 104);
    FieldArrives(im, b, src.bytes, 6, NAME);
    FieldArrives(im, b, src.bytes, 22, TEXT);
    assert forall i :: 100 <= i < 104 ==>
                         im.bytes[i] == im.bytes[100..104][i - 100] == src.bytes[100..104][i - 100] == src.bytes[i];
    NumberedString(src, b, 6);
    NumberedString(src, b, 22);
    EarlierEnd(src, 6, 22);
    assert b[100..104] == src.bytes[100..104];
  }

  lemma NumberedString(src: Image, b: seq<Byte>, o: nat)
    requires Sound(src) && |b| == BUFFER_SIZE && o in {6, 22} && b[104] == 0
    requires FieldIs(b, src.bytes, 6, NAME) && FieldIs(b, src.bytes, 22, TEXT)
    requires forall i :: 100 <= i < 104 ==> b[i] == src.bytes[i]
    ensures CString(b[o..]) == CString(src.bytes[o..]) <==> End(src.bytes, o) <= 104
  {
    EndIs(src, o);
    var end := End(src.bytes, o);
    if o <= 6 { StringInField(b, src.bytes, o, 6, NAME, end); }
    StringInField(b, src.bytes, o, 22, TEXT, end);
    StringSurvives(src, b, o, 104);
  }

  /**
   * The relay preserves the meaning of a message, for all three kinds and whatever the receiver's
   * buffer held, exactly when the text is NUL-terminated in the record or right behind it. Names
   * that run over their fields do no harm.
   */
  lemma RelayPreservesMessageIff(src: Image, subtype: nat, stale: seq<Byte>)
    requires Sound(src) && |stale| == BUFFER_SIZE && subtype < 3
    ensures var out := Emitted(Relayed(ReadMessage(src.bytes, subtype)));
            && |out| == 1
            && Word(Presented(stale, out[0]), 2) == CHAT_TYPE && Word(Presented(stale, out[0]), 4) == subtype
            && (ReadMessage(Presented(stale, out[0]), subtype) == ReadMessage(src.bytes, subtype)
                <==> TextEnds(src, subtype))
  {
    hide Relayed, Presented, ReadMessage, TextEnds;
    if subtype == 0 {
      OfflineArrives(src, stale);
    } else {
      NumberedArrives(src, subtype, stale);
    }
  }

  /** A relayed message reaches any number of slots below 4032 without the padding loop sticking. */
  lemma RelayReachesEveryone(src: Image, subtype: nat, k: nat)
    requires Sound(src) && subtype < 3 && 0 < k < 4032
    ensures var im := Relayed(ReadMessage(src.bytes, subtype));
            && Sendable(im.size) && SendsTerminate(im, k)
            && forall i :: 0 <= i < k ==> FramesSent(im, k)[i] == FrameOf(im)
  {
    hide Relayed, ReadMessage, SendsTerminate, FramesSent, FrameOf;
    RelaySize(src, subtype);
    BroadcastIsIdempotent(Relayed(ReadMessage(src.bytes, subtype)), k);
  }

  /** What the receivers of `f` decode is what the server decoded, exactly if the text ends in time. */
  ghost predicate Carries(f: seq<Byte>, src: Image, subtype: nat) {
    && Sound(src) && subtype < 3
    && forall stale: seq<Byte> :: |stale| == BUFFER_SIZE ==>
         && Word(Presented(stale, f), 2) == CHAT_TYPE && Word(Presented(stale, f), 4) == subtype
         && (ReadMessage(Presented(stale, f), subtype) == ReadMessage(src.bytes, subtype) <==> TextEnds(src, subtype))
  }

  lemma RelaySize(src: Image, subtype: nat)
    requires Sound(src) && subtype < 3
    ensures var im := Relayed(ReadMessage(src.bytes, subtype));
            im.off == im.size && im.size in {117, 104}
  {
    hide Relayed, ReadMessage, FieldIs;
    if subtype == 0 { OfflineRecord(src); } else { NumberedRecord(src, subtype); }
  }

  /** The relayed packet is one small frame that carries the message and leaves room for many sends. */
  lemma RelayCarries(src: Image, subtype: nat)
    requires Sound(src) && subtype < 3
    ensures var im := Relayed(ReadMessage(src.bytes, subtype));
            && im.off == im.size && Sendable(im.size) && PadTo(im.size - 2) <= 128
            && |Emitted(im)| == 1 && Carries(Emitted(im)[0], src, subtype)
  {
    hide Relayed, Presented, ReadMessage, TextEnds, Emitted, Word;
    var im := Relayed(ReadMessage(src.bytes, subtype));
    RelaySize(src, subtype);
    RelayPreservesMessageIff(src, subtype, Zeros(BUFFER_SIZE));
    forall stale: seq<Byte> | |stale| == BUFFER_SIZE
      ensures && Word(Presented(stale, Emitted(im)[0]), 2) == CHAT_TYPE
              && Word(Presented(stale, Emitted(im)[0]), 4) == subtype
              && (ReadMessage(Presented(stale, Emitted(im)[0]), subtype) == ReadMessage(src.bytes, subtype)
                  <==> TextEnds(src, subtype))
    {
      RelayPreservesMessageIff(src, subtype, stale);
    }
  }

  /** An offline message without names, whose text is 79 times the letter A, as a frame. */
  function LongMessage(): (f: seq<Byte>)
    ensures |f| == 130
  {
    WordBytes(128) + WordBytes(CHAT_TYPE) + Zeros(35) + seq(79, _ => 65) + Zeros(12)
  }

  lemma LongMessageIsChat(held: Image)
    requires Sound(held)
    ensures var b := Presented(held.bytes, LongMessage());
            && Whole(LongMessage()) && Sound(held.(bytes := b))
            && Word(b, 0) == 128 && Word(b, 2) == CHAT_TYPE && Word(b, 4) == 0
            && (forall i :: 39 <= i < 118 ==> b[i] == 65) && b[118] == 0
  {
  }

  /**
   * A text that runs on behind the record is cut: the gate hands this message of an authenticated
   * client to the handler, but its 79 characters do not survive the relay.
   */
  lemma LongTextIsCut(held: Image, stale: seq<Byte>, s: Session)
    requires Sound(held) && |stale| == BUFFER_SIZE && s.auth && !s.todc
    ensures var b := Presented(held.bytes, LongMessage());
            && Whole(LongMessage()) && Judge(b, s) == Run(CHAT_TYPE) && Word(b, 4) == 0
            && var out := Emitted(Relayed(ReadMessage(b, 0)));
            && out != [] && ReadMessage(Presented(stale, out[0]), 0) != ReadMessage(b, 0)
  {
    hide LongMessage, Presented, Relayed, Emitted;
    LongMessageIsChat(held);
    var src := held.(bytes := Presented(held.bytes, LongMessage()));
    CStringIs(src.bytes, 39, 79);
    RelayPreservesMessageIff(src, 0, stale);
  }
}
