/**
 * The Save packet: the longest record of the protocol. `ReadSave` is what the handler decodes
 * from the packet buffer, `BuildSave` is the same record put together with the append calls.
 */
module SaveRecord {
  import opened Bytes
  import opened Packet
  import opened Framing
  import opened Outgoing
  import opened Servers

  const SAVE_TYPE: nat := 2
  const SAVE_SUBTYPE: nat := 0
  const HANDLE_WIDTH: nat := 0x10
  const RIVALS_SIZE: nat := 1200     // 100 rivals of 12 bytes
  const CAR_DATA_SIZE: nat := 187    // 96 bytes of mods and 91 of owned parts
  const CAR_SIZE: nat := 203
  const SIGN_SIZE: nat := 54
  const PROFILE_SIZE: nat := 1256    // the fields of fixed width together

  /** KMs is a float the handler only passes on: its four bytes. */
  datatype Car = Car(carID: nat, kms: nat, data: seq<Byte>, condition: nat, bay: nat)

  /** teamId is the bit pattern of an `int32_t`, cp that of an `int64_t`. */
  datatype Save = Save(
    license: nat, handle: seq<Byte>, cp: nat, level: nat, points: nat,
    playerWin: nat, playerLose: nat, rivalWin: nat, rivalLose: nat,
    rivals: seq<Byte>, activeCar: nat, privileges: nat, notBeginner: nat, teamId: nat,
    garages: seq<nat>, cars: seq<Car>, items: seq<nat>, sign: seq<Byte>)

  // ---------------------------------------------------------------- decoding

  /** A list of `n` integers: the loop pushing into a vector. */
  function ReadMany(b: seq<Byte>, off: nat, width: nat, n: nat): (r: (seq<nat>, nat))
    requires |b| == BUFFER_SIZE
    ensures |r.0| == n
    decreases n
  {
    if n == 0 then ([], off)
    else
      var (xs, o) := ReadMany(b, off, width, n - 1);
      var (x, o') := ReadLE(b, o, width);
      (xs + [x], o')
  }

  function ReadCar(b: seq<Byte>, off: nat): (r: (Car, nat))
    requires |b| == BUFFER_SIZE
  {
    var (carID, o1) := ReadLE(b, off, 4);
    var (kms, o2) := ReadLE(b, o1, 4);
    var (data, o3) := ReadArray(b, o2, Zeros(CAR_DATA_SIZE));
    var (condition, o4) := ReadLE(b, o3, 4);
    var (bay, o5) := ReadLE(b, o4, 4);
    (Car(carID, kms, data, condition, bay), o5)
  }

  function ReadCars(b: seq<Byte>, off: nat, n: nat): (r: (seq<Car>, nat))
    requires |b| == BUFFER_SIZE
    ensures |r.0| == n
    decreases n
  {
    if n == 0 then ([], off)
    else
      var (xs, o) := ReadCars(b, off, n - 1);
      var (x, o') := ReadCar(b, o);
      (xs + [x], o')
  }

  /** The fields of fixed width. */
  datatype Profile = Profile(
    license: nat, handle: seq<Byte>, cp: nat, level: nat, points: nat,
    playerWin: nat, playerLose: nat, rivalWin: nat, rivalLose: nat,
    rivals: seq<Byte>, activeCar: nat, privileges: nat, notBeginner: nat, teamId: nat)

  /** `garbage` is what the uninitialised arrays on the stack hold. */
  function ReadProfile(b: seq<Byte>, off: nat, garbage: seq<Byte>): (r: (Profile, nat))
    requires |b| == BUFFER_SIZE && |garbage| == RIVALS_SIZE
  {
    var (license, o1) := ReadLE(b, off, 4);
    var (handle, o2) := ReadString(b, o1, HANDLE_WIDTH);
    var (cp, o3) := ReadLE(b, o2, 8);
    var (level, o4) := ReadLE(b, o3, 1);
    var (points, o5) := ReadLE(b, o4, 4);
    var (playerWin, o6) := ReadLE(b, o5, 4);
    var (playerLose, o7) := ReadLE(b, o6, 4);
    var (rivalWin, o8) := ReadLE(b, o7, 4);
    var (rivalLose, o9) := ReadLE(b, o8, 4);
    var (rivals, o10) := ReadArray(b, o9, garbage);
    var (activeCar, o11) := ReadLE(b, o10, 1);
    var (privileges, o12) := ReadLE(b, o11, 1);
    var (notBeginner, o13) := ReadLE(b, o12, 1);
    var (teamId, o14) := ReadLE(b, o13, 4);
    (Profile(license, handle, cp, level, points, playerWin, playerLose, rivalWin, rivalLose,
             rivals, activeCar, privileges, notBeginner, teamId), o14)
  }

  function ReadSave(b: seq<Byte>, garbage: seq<Byte>, signGarbage: seq<Byte>): (r: (Save, nat))
    requires |b| == BUFFER_SIZE && |garbage| == RIVALS_SIZE && |signGarbage| == SIGN_SIZE
  {
    var (p, o1) := ReadProfile(b, 6, garbage);
    var (garageCount, o2) := ReadLE(b, o1, 1);
    var (garages, o3) := ReadMany(b, o2, 1, garageCount);
    var (carCount, o4) := ReadLE(b, o3, 1);
    var (cars, o5) := ReadCars(b, o4, carCount);
    var (itemCount, o6) := ReadLE(b, o5, 4);
    var (items, o7) := ReadMany(b, o6, 2, itemCount);
    var (sign, o8) := ReadArray(b, o7, signGarbage);
    (MakeSave(p, garages, cars, items, sign), o8)
  }

  function MakeSave(p: Profile, garages: seq<nat>, cars: seq<Car>, items: seq<nat>, sign: seq<Byte>): Save {
    Save(p.license, p.handle, p.cp, p.level, p.points, p.playerWin, p.playerLose, p.rivalWin, p.rivalLose,
         p.rivals, p.activeCar, p.privileges, p.notBeginner, p.teamId, garages, cars, items, sign)
  }

  function ProfileOf(s: Save): Profile {
    Profile(s.license, s.handle, s.cp, s.level, s.points, s.playerWin, s.playerLose, s.rivalWin, s.rivalLose,
            s.rivals, s.activeCar, s.privileges, s.notBeginner, s.teamId)
  }

  /** The decoding part of the Save handler. */
  method DecodeSave(inbuf: ServerPacket, garbage: seq<Byte>, signGarbage: seq<Byte>) returns (s: Save)
    requires inbuf.Valid() && |garbage| == RIVALS_SIZE && |signGarbage| == SIGN_SIZE
    modifies inbuf
    ensures inbuf.Valid() && inbuf.buffer[..] == old(inbuf.buffer[..])
    ensures (s, inbuf.pOffset) == ReadSave(inbuf.buffer[..], garbage, signGarbage)
  {
    inbuf.pOffset := 6;
    var p := DecodeProfile(inbuf, garbage);
    var garageCount := inbuf.Get(1);
    var garages := DecodeMany(inbuf, 1, garageCount);
    var carsInGarage := inbuf.Get(1);
    var cars := DecodeCars(inbuf, carsInGarage);
    var itemCount := inbuf.Get(4);
    var items := DecodeMany(inbuf, 2, itemCount);
    var sign := inbuf.GetArray(signGarbage);
    s := MakeSave(p, garages, cars, items, sign);
  }

  method DecodeProfile(inbuf: ServerPacket, garbage: seq<Byte>) returns (p: Profile)
    requires inbuf.Valid() && |garbage| == RIVALS_SIZE
    modifies inbuf
    ensures inbuf.Valid() && inbuf.buffer[..] == old(inbuf.buffer[..])
    ensures (p, inbuf.pOffset) == ReadProfile(inbuf.buffer[..], old(inbuf.pOffset), garbage)
  {
    var license := inbuf.Get(4);
    var handle := inbuf.GetStringA(HANDLE_WIDTH);
    var cp := inbuf.Get(8);
    var level := inbuf.Get(1);
    var points := inbuf.Get(4);
    var playerWin := inbuf.Get(4);
    var playerLose := inbuf.Get(4);
    var rivalWin := inbuf.Get(4);
    var rivalLose := inbuf.Get(4);
    var rivals := inbuf.GetArray(garbage);
    var activeCar := inbuf.Get(1);
    var privileges := inbuf.Get(1);
    var notBeginner := inbuf.Get(1);
    var teamId := inbuf.Get(4);
    p := Profile(license, handle, cp, level, points, playerWin, playerLose, rivalWin, rivalLose,
                 rivals, activeCar, privileges, notBeginner, teamId);
  }

  method DecodeMany(inbuf: ServerPacket, width: nat, n: nat) returns (xs: seq<nat>)
    requires inbuf.Valid()
    modifies inbuf
    ensures inbuf.Valid() && inbuf.buffer[..] == old(inbuf.buffer[..])
    ensures (xs, inbuf.pOffset) == ReadMany(inbuf.buffer[..], old(inbuf.pOffset), width, n)
  {
    xs := [];
    for i := 0 to n
      invariant inbuf.Valid() && inbuf.buffer[..] == old(inbuf.buffer[..])
      invariant (xs, inbuf.pOffset) == ReadMany(inbuf.buffer[..], old(inbuf.pOffset), width, i)
    {
      var x := inbuf.Get(width);
      xs := xs + [x];
    }
  }

  method DecodeCars(inbuf: ServerPacket, n: nat) returns (cars: seq<Car>)
    requires inbuf.Valid()
    modifies inbuf
    ensures inbuf.Valid() && inbuf.buffer[..] == old(inbuf.buffer[..])
    ensures (cars, inbuf.pOffset) == ReadCars(inbuf.buffer[..], old(inbuf.pOffset), n)
  {
    cars := [];
    for i := 0 to n
      invariant inbuf.Valid() && inbuf.buffer[..] == old(inbuf.buffer[..])
      invariant (cars, inbuf.pOffset) == ReadCars(inbuf.buffer[..], old(inbuf.pOffset), i)
    {
      var carID := inbuf.Get(4);
      var kms := inbuf.Get(4);
      var data := inbuf.GetArray(Zeros(CAR_DATA_SIZE));
      var condition := inbuf.Get(4);
      var bay := inbuf.Get(4);
      cars := cars + [Car(carID, kms, data, condition, bay)];
    }
  }

  // ---------------------------------------------------------------- the layout in plain numbers

  /** Where the fields of fixed width stand in a packet. */
  lemma ProfileLayout(b: seq<Byte>, garbage: seq<Byte>)
    requires |b| == BUFFER_SIZE && |garbage| == RIVALS_SIZE
    ensures var (p, off) := ReadProfile(b, 6, garbage);
            && off == 1262
            && p.license == Value(b[6..10]) && p.handle == CString(b[10..]) && p.cp == Value(b[26..34])
            && p.level == Value(b[34..35]) && p.points == Value(b[35..39])
            && p.playerWin == Value(b[39..43]) && p.playerLose == Value(b[43..47])
            && p.rivalWin == Value(b[47..51]) && p.rivalLose == Value(b[51..55])
            && p.rivals == b[55..1255]
            && p.activeCar == Value(b[1255..1256]) && p.privileges == Value(b[1256..1257])
            && p.notBeginner == Value(b[1257..1258]) && p.teamId == Value(b[1258..1262])
  {
    hide Value, CString;
  }

  /** Where the fields of one car stand. */
  lemma CarLayout(b: seq<Byte>, off: nat)
    requires |b| == BUFFER_SIZE && off + 203 <= BUFFER_SIZE
    ensures var (c, next) := ReadCar(b, off);
            && next == off + 203
            && c.carID == Value(b[off..off + 4]) && c.kms == Value(b[off + 4..off + 8])
            && c.data == b[off + 8..off + 195]
            && c.condition == Value(b[off + 195..off + 199]) && c.bay == Value(b[off + 199..off + 203])
  {
    hide Value;
  }

  /** Where the lists stand: one-byte bays, cars of 203 bytes, two-byte items, and the sign behind them. */
  lemma ListLayout(b: seq<Byte>, garbage: seq<Byte>, signGarbage: seq<Byte>)
    requires |b| == BUFFER_SIZE && |garbage| == RIVALS_SIZE && |signGarbage| == SIGN_SIZE
    ensures var s := ReadSave(b, garbage, signGarbage).0;
            var cars := 1264 + b[1262] as int;
            var items := cars + 203 * (b[cars - 1] as int) + 4;
            && s.garages == ReadMany(b, 1263, 1, b[1262] as int).0
            && s.cars == ReadCars(b, cars, b[cars - 1] as int).0
            && (items <= BUFFER_SIZE ==>
                  var n := Value(b[items - 4..items]);
                  && s.items == ReadMany(b, items, 2, n).0
                  && (items + 2 * n + 54 < BUFFER_SIZE ==> s.sign == b[items + 2 * n..items + 2 * n + 54]))
  {
    hide Value, CString, ReadProfile, ReadCar, ReadMany, ReadCars;
    ProfileLayout(b, garbage);
    OneByteValue(b, 1262);
    ManyLayout(b, 1263, 1, b[1262] as int);
    var cars := 1264 + b[1262] as int;
    OneByteValue(b, cars - 1);
    var items := cars + 203 * (b[cars - 1] as int) + 4;
    if items <= BUFFER_SIZE {
      CarsLayout(b, cars, b[cars - 1] as int);
      var n := Value(b[items - 4..items]);
      if items + 2 * n + 54 < BUFFER_SIZE {
        ManyLayout(b, items, 2, n);
      }
    }
  }

  lemma OneByteValue(b: seq<Byte>, at: nat)
    requires at < |b|
    ensures Value(b[at..at + 1]) == b[at] as int
  {
    assert b[at..at + 1][1..] == [];
  }

  lemma {:induction false} ManyLayout(b: seq<Byte>, off: nat, width: nat, n: nat)
    requires |b| == BUFFER_SIZE && off + width * n <= BUFFER_SIZE
    ensures var (xs, next) := ReadMany(b, off, width, n);
            next == off + width * n &&
            forall i :: 0 <= i < n ==>
                          0 <= off + width * i <= off + width * i + width <= BUFFER_SIZE
                          && xs[i] == Value(b[off + width * i..off + width * i + width])
    decreases n
  {
    hide Value;
    if n > 0 {
      assert width * n == width * (n - 1) + width;
      ManyLayout(b, off, width, n - 1);
    }
  }

  lemma {:induction false} CarsLayout(b: seq<Byte>, off: nat, n: nat)
    requires |b| == BUFFER_SIZE && off + 203 * n <= BUFFER_SIZE
    ensures var (xs, next) := ReadCars(b, off, n);
            next == off + 203 * n && forall i :: 0 <= i < n ==> xs[i] == ReadCar(b, off + 203 * i).0
    decreases n
  {
    hide ReadCar;
    if n > 0 {
      CarsLayout(b, off, n - 1);
      CarLayout(b, off + 203 * (n - 1));
    }
  }

  // ---------------------------------------------------------------- encoding

  function EncodeMany(width: nat, xs: seq<nat>): (r: seq<Byte>)
    ensures |r| == width * |xs|
  {
    if xs == [] then [] else EncodeMany(width, xs[..|xs| - 1]) + LE(width, xs[|xs| - 1])
  }

  function EncodeCar(c: Car): seq<Byte> {
    LE(4, c.carID) + LE(4, c.kms) + c.data + LE(4, c.condition) + LE(4, c.bay)
  }

  function EncodeCars(cars: seq<Car>): seq<Byte> {
    if cars == [] then [] else EncodeCars(cars[..|cars| - 1]) + EncodeCar(cars[|cars| - 1])
  }

  function EncodeProfile(s: Save): seq<Byte>
    requires |s.handle| <= HANDLE_WIDTH
  {
    LE(4, s.license) + Field(s.handle, HANDLE_WIDTH) + LE(8, s.cp) + LE(1, s.level) + LE(4, s.points)
    + LE(4, s.playerWin) + LE(4, s.playerLose) + LE(4, s.rivalWin) + LE(4, s.rivalLose)
    + s.rivals + LE(1, s.activeCar) + LE(1, s.privileges) + LE(1, s.notBeginner) + LE(4, s.teamId)
  }

  function EncodeLists(s: Save): seq<Byte> {
    LE(1, |s.garages|) + EncodeMany(1, s.garages) + LE(1, |s.cars|) + EncodeCars(s.cars)
    + LE(4, |s.items|) + EncodeMany(2, s.items) + s.sign
  }

  predicate AllBelow(xs: seq<nat>, limit: nat) {
    forall i :: 0 <= i < |xs| ==> xs[i] < limit
  }

  predicate CarFits(c: Car) {
    c.carID < Pow256(4) && c.kms < Pow256(4) && |c.data| == CAR_DATA_SIZE
    && c.condition < Pow256(4) && c.bay < Pow256(4)
  }

  /** Every field fits its place in the packet. */
  predicate Encodable(s: Save) {
    && s.license < Pow256(4) && 0 !in s.handle && |s.handle| < HANDLE_WIDTH
    && s.cp < Pow256(8) && s.level < Pow256(1) && s.points < Pow256(4)
    && s.playerWin < Pow256(4) && s.playerLose < Pow256(4) && s.rivalWin < Pow256(4) && s.rivalLose < Pow256(4)
    && |s.rivals| == RIVALS_SIZE
    && s.activeCar < Pow256(1) && s.privileges < Pow256(1) && s.notBeginner < Pow256(1) && s.teamId < Pow256(4)
    && |s.garages| < Pow256(1) && AllBelow(s.garages, Pow256(1))
    && |s.cars| < Pow256(1) && (forall i :: 0 <= i < |s.cars| ==> CarFits(s.cars[i]))
    && |s.items| < Pow256(4) && AllBelow(s.items, Pow256(2))
    && |s.sign| == SIGN_SIZE
  }

  function Encode(s: Save): seq<Byte>
    requires |s.handle| <= HANDLE_WIDTH
  {
    EncodeProfile(s) + EncodeLists(s)
  }

  // ---------------------------------------------------------------- round trip

  lemma {:induction false} ReadManyAt(b: seq<Byte>, off: nat, width: nat, xs: seq<nat>)
    requires |b| == BUFFER_SIZE && AllBelow(xs, Pow256(width))
    requires At(b, off, EncodeMany(width, xs))
    ensures ReadMany(b, off, width, |xs|) == (xs, off + width * |xs|)
  {
    hide ReadLE, At, LE, Pow256;
    if xs != [] {
      var n := |xs| - 1;
      AtSplit(b, off, EncodeMany(width, xs[..n]), LE(width, xs[n]));
      ReadManyAt(b, off, width, xs[..n]);
      ReadLEAt(b, off + width * n, width, xs[n]);
      assert xs == xs[..n] + [xs[n]];
      OneMoreWidth(width, n);
    }
  }

  lemma OneMoreWidth(width: nat, n: nat)
    ensures width * n + width == width * (n + 1)
  {
  }

  lemma ReadArrayAt(b: seq<Byte>, off: nat, data: seq<Byte>, destination: seq<Byte>)
    requires |b| == BUFFER_SIZE && |destination| == |data| && off + |data| < BUFFER_SIZE
    requires At(b, off, data)
    ensures ReadArray(b, off, destination) == (data, off + |data|)
  {
  }

  lemma ReadCarAt(b: seq<Byte>, off: nat, c: Car)
    requires |b| == BUFFER_SIZE && CarFits(c) && At(b, off, EncodeCar(c)) && off + CAR_SIZE < BUFFER_SIZE
    ensures ReadCar(b, off) == (c, off + CAR_SIZE)
  {
    var d1, d2, d4, d5 := LE(4, c.carID), LE(4, c.kms), LE(4, c.condition), LE(4, c.bay);
    AtSplit(b, off, d1 + d2 + c.data + d4, d5);
    AtSplit(b, off, d1 + d2 + c.data, d4);
    AtSplit(b, off, d1 + d2, c.data);
    AtSplit(b, off, d1, d2);
    ReadLEAt(b, off, 4, c.carID);
    ReadLEAt(b, off + 4, 4, c.kms);
    ReadArrayAt(b, off + 8, c.data, Zeros(CAR_DATA_SIZE));
    ReadLEAt(b, off + 195, 4, c.condition);
    ReadLEAt(b, off + 199, 4, c.bay);
  }

  lemma EncodeCarLength(c: Car)
    requires |c.data| == CAR_DATA_SIZE
    ensures |EncodeCar(c)| == CAR_SIZE
  {
  }

  lemma {:induction false} ReadCarsAt(b: seq<Byte>, off: nat, cars: seq<Car>)
    requires |b| == BUFFER_SIZE && forall i :: 0 <= i < |cars| ==> CarFits(cars[i])
    requires At(b, off, EncodeCars(cars)) && off + |EncodeCars(cars)| < BUFFER_SIZE
    ensures |EncodeCars(cars)| == CAR_SIZE * |cars|
    ensures ReadCars(b, off, |cars|) == (cars, off + CAR_SIZE * |cars|)
  {
    hide ReadCar, EncodeCar, At, Pow256;
    if cars != [] {
      var n := |cars| - 1;
      EncodeCarLength(cars[n]);
      AtSplit(b, off, EncodeCars(cars[..n]), EncodeCar(cars[n]));
      ReadCarsAt(b, off, cars[..n]);
      ReadCarAt(b, off + CAR_SIZE * n, cars[n]);
      assert cars == cars[..n] + [cars[n]];
    }
  }

  lemma ReadProfileAt(b: seq<Byte>, s: Save, garbage: seq<Byte>)
    requires |b| == BUFFER_SIZE && Encodable(s) && |garbage| == RIVALS_SIZE
    requires At(b, 6, EncodeProfile(s))
    ensures |EncodeProfile(s)| == PROFILE_SIZE
    ensures ReadProfile(b, 6, garbage) == (ProfileOf(s), 6 + PROFILE_SIZE)
  {
    var e1 := LE(4, s.license);
    var e2 := e1 + Field(s.handle, HANDLE_WIDTH);
    var e3 := e2 + LE(8, s.cp);
    var e4 := e3 + LE(1, s.level);
    var e5 := e4 + LE(4, s.points);
    var e6 := e5 + LE(4, s.playerWin);
    var e7 := e6 + LE(4, s.playerLose);
    var e8 := e7 + LE(4, s.rivalWin);
    var e9 := e8 + LE(4, s.rivalLose);
    var e10 := e9 + s.rivals;
    var e11 := e10 + LE(1, s.activeCar);
    var e12 := e11 + LE(1, s.privileges);
    var e13 := e12 + LE(1, s.notBeginner);
    var e14 := e13 + LE(4, s.teamId);
    AtSplit(b, 6, e13, LE(4, s.teamId));
    AtSplit(b, 6, e12, LE(1, s.notBeginner));
    AtSplit(b, 6, e11, LE(1, s.privileges));
    AtSplit(b, 6, e10, LE(1, s.activeCar));
    AtSplit(b, 6, e9, s.rivals);
    AtSplit(b, 6, e8, LE(4, s.rivalLose));
    AtSplit(b, 6, e7, LE(4, s.rivalWin));
    AtSplit(b, 6, e6, LE(4, s.playerLose));
    AtSplit(b, 6, e5, LE(4, s.playerWin));
    AtSplit(b, 6, e4, LE(4, s.points));
    AtSplit(b, 6, e3, LE(1, s.level));
    AtSplit(b, 6, e2, LE(8, s.cp));
    AtSplit(b, 6, e1, Field(s.handle, HANDLE_WIDTH));
    ReadLEAt(b, 6, 4, s.license);
    ReadStringAt(b, 10, HANDLE_WIDTH, s.handle);
    ReadLEAt(b, 26, 8, s.cp);
    ReadLEAt(b, 34, 1, s.level);
    ReadLEAt(b, 35, 4, s.points);
    ReadLEAt(b, 39, 4, s.playerWin);
    ReadLEAt(b, 43, 4, s.playerLose);
    ReadLEAt(b, 47, 4, s.rivalWin);
    ReadLEAt(b, 51, 4, s.rivalLose);
    ReadArrayAt(b, 55, s.rivals, garbage);
    ReadLEAt(b, 1255, 1, s.activeCar);
    ReadLEAt(b, 1256, 1, s.privileges);
    ReadLEAt(b, 1257, 1, s.notBeginner);
    ReadLEAt(b, 1258, 4, s.teamId);
  }

  lemma ReadListsAt(b: seq<Byte>, off: nat, s: Save, signGarbage: seq<Byte>)
    requires |b| == BUFFER_SIZE && Encodable(s) && |signGarbage| == SIGN_SIZE
    requires At(b, off, EncodeLists(s)) && off + |EncodeLists(s)| < BUFFER_SIZE
    ensures var (garageCount, o2) := ReadLE(b, off, 1);
            var (garages, o3) := ReadMany(b, o2, 1, garageCount);
            var (carCount, o4) := ReadLE(b, o3, 1);
            var (cars, o5) := ReadCars(b, o4, carCount);
            var (itemCount, o6) := ReadLE(b, o5, 4);
            var (items, o7) := ReadMany(b, o6, 2, itemCount);
            var (sign, o8) := ReadArray(b, o7, signGarbage);
            garages == s.garages && cars == s.cars && items == s.items && sign == s.sign
            && o8 == off + |EncodeLists(s)|
  {
    hide ReadLE, ReadMany, ReadCars, ReadArray, EncodeMany, EncodeCars, LE, At, Pow256;
    var d1, d2, d3, d4 := LE(1, |s.garages|), EncodeMany(1, s.garages), LE(1, |s.cars|), EncodeCars(s.cars);
    var d5, d6 := LE(4, |s.items|), EncodeMany(2, s.items);
    var e2, e3, e4, e5, e6 := d1 + d2, d1 + d2 + d3, d1 + d2 + d3 + d4, d1 + d2 + d3 + d4 + d5,
                              d1 + d2 + d3 + d4 + d5 + d6;
    AtSplit(b, off, e6, s.sign);
    AtSplit(b, off, e5, d6);
    AtSplit(b, off, e4, d5);
    AtSplit(b, off, e3, d4);
    AtSplit(b, off, e2, d3);
    AtSplit(b, off, d1, d2);
    ReadLEAt(b, off, 1, |s.garages|);
    ReadManyAt(b, off + 1, 1, s.garages);
    ReadLEAt(b, off + |e2|, 1, |s.cars|);
    ReadCarsAt(b, off + |e3|, s.cars);
    ReadLEAt(b, off + |e4|, 4, |s.items|);
    ReadManyAt(b, off + |e5|, 2, s.items);
    ReadArrayAt(b, off + |e6|, s.sign, signGarbage);
  }

  /**
   * Any buffer that holds the encoded record behind the head decodes to the record, whatever
   * else is in the buffer and whatever the stack held.
   */
  lemma DecodeOfEncode(b: seq<Byte>, s: Save, garbage: seq<Byte>, signGarbage: seq<Byte>)
    requires |b| == BUFFER_SIZE && |garbage| == RIVALS_SIZE && |signGarbage| == SIGN_SIZE
    requires Encodable(s) && At(b, 6, Encode(s)) && 6 + |Encode(s)| < BUFFER_SIZE
    ensures ReadSave(b, garbage, signGarbage) == (s, 6 + |Encode(s)|)
  {
    hide ReadLE, ReadMany, ReadCars, ReadArray, ReadProfile, EncodeProfile, EncodeLists, At;
    AtSplit(b, 6, EncodeProfile(s), EncodeLists(s));
    ReadProfileAt(b, s, garbage);
    ReadListsAt(b, 6 + PROFILE_SIZE, s, signGarbage);
  }

  // ---------------------------------------------------------------- building the packet

  function BuildMany(im: Image, width: nat, xs: seq<nat>): (r: Image)
    requires Sound(im)
    ensures Sound(r)
  {
    if xs == [] then im else Appended(BuildMany(im, width, xs[..|xs| - 1]), LE(width, xs[|xs| - 1]))
  }

  function BuildCar(im: Image, c: Car): (r: Image)
    requires Sound(im)
    ensures Sound(r)
  {
    Appended(Appended(Appended(Appended(Appended(im, LE(4, c.carID)), LE(4, c.kms)), c.data),
                      LE(4, c.condition)), LE(4, c.bay))
  }

  function BuildCars(im: Image, cars: seq<Car>): (r: Image)
    requires Sound(im)
    ensures Sound(r)
  {
    if cars == [] then im else BuildCar(BuildCars(im, cars[..|cars| - 1]), cars[|cars| - 1])
  }

  function BuildProfile(im: Image, s: Save): (r: Image)
    requires Sound(im)
    ensures Sound(r)
  {
    var i1 := Appended(im, LE(4, s.license));
    var i2 := AppendedString(i1, s.handle, HANDLE_WIDTH);
    var i3 := Appended(i2, LE(8, s.cp));
    var i4 := Appended(i3, LE(1, s.level));
    var i5 := Appended(i4, LE(4, s.points));
    var i6 := Appended(i5, LE(4, s.playerWin));
    var i7 := Appended(i6, LE(4, s.playerLose));
    var i8 := Appended(i7, LE(4, s.rivalWin));
    var i9 := Appended(i8, LE(4, s.rivalLose));
    var i10 := Appended(i9, s.rivals);
    var i11 := Appended(i10, LE(1, s.activeCar));
    var i12 := Appended(i11, LE(1, s.privileges));
    var i13 := Appended(i12, LE(1, s.notBeginner));
    Appended(i13, LE(4, s.teamId))
  }

  /** The packet with the record's fields appended in Save's order. */
  function BuildSave(s: Save): (r: Image)
    ensures Sound(r)
  {
    var p := BuildProfile(Begun(SAVE_TYPE, SAVE_SUBTYPE), s);
    var g := BuildMany(Appended(p, LE(1, |s.garages|)), 1, s.garages);
    var c := BuildCars(Appended(g, LE(1, |s.cars|)), s.cars);
    var i := BuildMany(Appended(c, LE(4, |s.items|)), 2, s.items);
    Appended(i, s.sign)
  }

  lemma {:induction false} BuiltMany(im: Image, fields: seq<Byte>, width: nat, xs: seq<nat>)
    requires Built(im, fields) && im.off + width * |xs| < BUFFER_SIZE
    ensures Built(BuildMany(im, width, xs), fields + EncodeMany(width, xs))
  {
    if xs == [] {
      assert fields + [] == fields;
    } else {
      var n := |xs| - 1;
      assert width * n + width == width * |xs|;
      BuiltMany(im, fields, width, xs[..n]);
      BuiltAppended(BuildMany(im, width, xs[..n]), fields + EncodeMany(width, xs[..n]), LE(width, xs[n]));
      AppendAssoc(fields, EncodeMany(width, xs[..n]), LE(width, xs[n]));
    }
  }

  lemma BuiltCar(im: Image, fields: seq<Byte>, c: Car)
    requires Built(im, fields) && |c.data| == CAR_DATA_SIZE && im.off + CAR_SIZE < BUFFER_SIZE
    ensures Built(BuildCar(im, c), fields + EncodeCar(c))
  {
    hide LE, At, Splice, Wrap16;
    var d1, d2, d4, d5 := LE(4, c.carID), LE(4, c.kms), LE(4, c.condition), LE(4, c.bay);
    var i1 := Appended(im, d1);
    var i2 := Appended(i1, d2);
    var i3 := Appended(i2, c.data);
    var i4 := Appended(i3, d4);
    BuiltAppended(im, fields, d1);
    BuiltAppended(i1, fields + d1, d2);
    BuiltAppended(i2, fields + d1 + d2, c.data);
    BuiltAppended(i3, fields + d1 + d2 + c.data, d4);
    BuiltAppended(i4, fields + d1 + d2 + c.data + d4, d5);
    assert fields + d1 + d2 + c.data + d4 + d5 == fields + EncodeCar(c);
  }

  lemma {:induction false} BuiltCars(im: Image, fields: seq<Byte>, cars: seq<Car>)
    requires Built(im, fields) && im.off + CAR_SIZE * |cars| < BUFFER_SIZE
    requires forall i :: 0 <= i < |cars| ==> CarFits(cars[i])
    ensures Built(BuildCars(im, cars), fields + EncodeCars(cars))
    ensures |EncodeCars(cars)| == CAR_SIZE * |cars|
  {
    if cars == [] {
      assert fields + [] == fields;
    } else {
      var n := |cars| - 1;
      BuiltCars(im, fields, cars[..n]);
      BuiltCar(BuildCars(im, cars[..n]), fields + EncodeCars(cars[..n]), cars[n]);
      AppendAssoc(fields, EncodeCars(cars[..n]), EncodeCar(cars[n]));
    }
  }

  lemma BuiltProfile(im: Image, s: Save)
    requires Built(im, []) && Encodable(s)
    ensures Built(BuildProfile(im, s), EncodeProfile(s)) && |EncodeProfile(s)| == PROFILE_SIZE
  {
    BuiltAppended(im, [], LE(4, s.license));
    assert [] + LE(4, s.license) == LE(4, s.license);
    var e1, i1 := LE(4, s.license), Appended(im, LE(4, s.license));
    BuiltAppendedString(i1, e1, s.handle, HANDLE_WIDTH);
    var e2, i2 := e1 + Field(s.handle, HANDLE_WIDTH), AppendedString(i1, s.handle, HANDLE_WIDTH);
    BuiltAppended(i2, e2, LE(8, s.cp));
    var e3, i3 := e2 + LE(8, s.cp), Appended(i2, LE(8, s.cp));
    BuiltAppended(i3, e3, LE(1, s.level));
    var e4, i4 := e3 + LE(1, s.level), Appended(i3, LE(1, s.level));
    BuiltAppended(i4, e4, LE(4, s.points));
    var e5, i5 := e4 + LE(4, s.points), Appended(i4, LE(4, s.points));
    BuiltAppended(i5, e5, LE(4, s.playerWin));
    var e6, i6 := e5 + LE(4, s.playerWin), Appended(i5, LE(4, s.playerWin));
    BuiltAppended(i6, e6, LE(4, s.playerLose));
    var e7, i7 := e6 + LE(4, s.playerLose), Appended(i6, LE(4, s.playerLose));
    BuiltAppended(i7, e7, LE(4, s.rivalWin));
    var e8, i8 := e7 + LE(4, s.rivalWin), Appended(i7, LE(4, s.rivalWin));
    BuiltAppended(i8, e8, LE(4, s.rivalLose));
    var e9, i9 := e8 + LE(4, s.rivalLose), Appended(i8, LE(4, s.rivalLose));
    BuiltAppended(i9, e9, s.rivals);
    var e10, i10 := e9 + s.rivals, Appended(i9, s.rivals);
    BuiltAppended(i10, e10, LE(1, s.activeCar));
    var e11, i11 := e10 + LE(1, s.activeCar), Appended(i10, LE(1, s.activeCar));
    BuiltAppended(i11, e11, LE(1, s.privileges));
    var e12, i12 := e11 + LE(1, s.privileges), Appended(i11, LE(1, s.privileges));
    BuiltAppended(i12, e12, LE(1, s.notBeginner));
    var e13, i13 := e12 + LE(1, s.notBeginner), Appended(i12, LE(1, s.notBeginner));
    BuiltAppended(i13, e13, LE(4, s.teamId));
  }

  lemma BuiltSave(s: Save)
    requires Encodable(s) && 6 + |Encode(s)| < BUFFER_SIZE
    ensures Built(BuildSave(s), Encode(s))
  {
    hide BuildMany, BuildCars, BuildProfile, EncodeProfile, EncodeMany, EncodeCars, LE, Appended, Begun, Pow256, At;
    var start := Begun(SAVE_TYPE, SAVE_SUBTYPE);
    BegunIsBuilt(SAVE_TYPE, SAVE_SUBTYPE);
    BuiltProfile(start, s);
    var p, e := BuildProfile(start, s), EncodeProfile(s);
    var d1, d2, d3, d4 := LE(1, |s.garages|), EncodeMany(1, s.garages), LE(1, |s.cars|), EncodeCars(s.cars);
    var d5, d6 := LE(4, |s.items|), EncodeMany(2, s.items);
    EncodeCarsLength(s.cars);
    BuiltAppended(p, e, d1);
    BuiltMany(Appended(p, d1), e + d1, 1, s.garages);
    var g := BuildMany(Appended(p, d1), 1, s.garages);
    BuiltAppended(g, e + d1 + d2, d3);
    BuiltCars(Appended(g, d3), e + d1 + d2 + d3, s.cars);
    var c := BuildCars(Appended(g, d3), s.cars);
    BuiltAppended(c, e + d1 + d2 + d3 + d4, d5);
    BuiltMany(Appended(c, d5), e + d1 + d2 + d3 + d4 + d5, 2, s.items);
    var i := BuildMany(Appended(c, d5), 2, s.items);
    BuiltAppended(i, e + d1 + d2 + d3 + d4 + d5 + d6, s.sign);
    AppendAssoc(e, d1, d2);
    AppendAssoc(e, d1 + d2, d3);
    AppendAssoc(e, d1 + d2 + d3, d4);
    AppendAssoc(e, d1 + d2 + d3 + d4, d5);
    AppendAssoc(e, d1 + d2 + d3 + d4 + d5, d6);
    AppendAssoc(e, d1 + d2 + d3 + d4 + d5 + d6, s.sign);
  }

  lemma {:induction false} EncodeCarsLength(cars: seq<Car>)
    requires forall i :: 0 <= i < |cars| ==> CarFits(cars[i])
    ensures |EncodeCars(cars)| == CAR_SIZE * |cars|
  {
    if cars != [] {
      EncodeCarsLength(cars[..|cars| - 1]);
      assert CarFits(cars[|cars| - 1]);
    }
  }

  /**
   * Save round trip through the whole transport: the record is built with the append calls,
   * queued by `Send`, arrives as a frame in a packet buffer with any earlier contents, and is
   * decoded to the same record.
   */
  lemma SaveRoundTrip(s: Save, stale: seq<Byte>, garbage: seq<Byte>, signGarbage: seq<Byte>)
    requires Encodable(s) && 6 + |Encode(s)| <= MAX_PACKET
    requires |stale| == BUFFER_SIZE && |garbage| == RIVALS_SIZE && |signGarbage| == SIGN_SIZE
    ensures var im := BuildSave(s);
            && Emitted(im) != []
            && ReadSave(Presented(stale, Emitted(im)[0]), garbage, signGarbage) == (s, 6 + |Encode(s)|)
  {
    hide BuildSave, Encode, Encodable, ReadSave;
    BuiltSave(s);
    var im := BuildSave(s);
    FirstSend(im);
    var frame, b := FrameOf(im), Presented(stale, FrameOf(im));
    assert b[6..im.size] == im.bytes[6..im.size] by {
      assert forall i :: 6 <= i < im.size ==> b[i] == frame[i] == im.bytes[i];
    }
    DecodeOfEncode(b, s, garbage, signGarbage);
  }
}
