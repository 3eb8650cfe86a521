/**
 * The garage table and the handlers that change it. A row is a car in a bay; a car that is
 * impounded keeps its row. The table has no key, so rows are a sequence.
 */
module Garage {
  import opened Bytes
  import opened SaveRecord

  datatype Row = Row(license: nat, bay: nat, car: Payload, impounded: nat)

  /** The columns the handlers only copy. */
  datatype Payload = Payload(carID: nat, kms: nat, condition: nat, data: seq<Byte>)

  datatype Key = Key(license: nat, bay: nat)

  function PayloadOf(c: Car): Payload {
    Payload(c.carID, c.kms, c.condition, c.data)
  }

  // ---------------------------------------------------------------- statements

  /** Rows in a result set. */
  function Select(rows: seq<Row>, where: Row -> bool): (r: seq<Row>)
    ensures |r| <= |rows|
    ensures r == [] <==> forall i :: 0 <= i < |rows| ==> !where(rows[i])
  {
    if rows == [] then []
    else
      var n := |rows| - 1;
      Select(rows[..n], where) + (if where(rows[n]) then [rows[n]] else [])
  }

  function Update(rows: seq<Row>, where: Row -> bool, change: Row -> Row): (r: seq<Row>)
    ensures |r| == |rows|
    ensures forall i :: 0 <= i < |rows| ==> r[i] == if where(rows[i]) then change(rows[i]) else rows[i]
  {
    seq(|rows|, i requires 0 <= i < |rows| => if where(rows[i]) then change(rows[i]) else rows[i])
  }

  // ---------------------------------------------------------------- handlers on values

  /** One car of the Save handler: select, then update or insert. */
  function SaveOne(rows: seq<Row>, license: nat, c: Car): seq<Row> {
    if Select(rows, (r: Row) => r.license == license && r.bay == c.bay && r.impounded == 0) != [] then
      Update(rows, (r: Row) => r.license == license && r.bay == c.bay && r.impounded != 1,
             (r: Row) => r.(car := PayloadOf(c)))
    else
      rows + [Row(license, c.bay, PayloadOf(c), 0)]
  }

  function SaveCars(rows: seq<Row>, license: nat, cars: seq<Car>): seq<Row> {
    if cars == [] then rows else SaveOne(SaveCars(rows, license, cars[..|cars| - 1]), license, cars[|cars| - 1])
  }

  /** The swap statement renames two bays of a licence into each other. */
  function Swapped(bay: nat, a: nat, b: nat): nat {
    if bay == a then b else if bay == b then a else bay
  }

  function Swap(rows: seq<Row>, license: nat, a: nat, b: nat): seq<Row> {
    Update(rows, (r: Row) => (r.bay == a && r.license == license) || (r.bay == b && r.license == license),
           (r: Row) => r.(bay := Swapped(r.bay, a, b)))
  }

  function Move(rows: seq<Row>, license: nat, a: nat, b: nat): seq<Row> {
    Update(rows, (r: Row) => r.bay == a && r.license == license, (r: Row) => r.(bay := b))
  }

  function Remove(rows: seq<Row>, license: nat, bay: nat): seq<Row> {
    Select(rows, (r: Row) => !(r.bay == bay && r.license == license))
  }

  // ---------------------------------------------------------------- the object

  class GarageTable {
    var rows: seq<Row>

    ghost predicate Valid()
      reads this
    {
      GarageInv(rows)
    }

    constructor ()
      ensures Valid() && rows == []
    {
      rows := [];
    }

    /** The loop over the cars of a Save packet. */
    method SavePacketCars(license: nat, cars: seq<Car>)
      modifies this
      ensures rows == SaveCars(old(rows), license, cars) == Handle(old(rows), SaveRequest(license, cars))
      ensures old(Valid()) ==>
                Valid() && Live(rows) == Override(Live(old(rows)), license, cars)
                && Others(rows, license) == Others(old(rows), license)
      ensures old(Valid()) ==>
                forall j :: 0 <= j < |cars| && LastForBay(cars, j) ==> Shows(Live(rows), license, cars[j])
    {
      if GarageInv(rows) {
        SaveRefinesOverride(rows, license, cars);
        SavedCars(rows, license, cars);
      }
      for i := 0 to |cars|
        invariant rows == SaveCars(old(rows), license, cars[..i])
      {
        assert cars[..i + 1][..i] == cars[..i];
        var c := cars[i];
        var res := Select(rows, (r: Row) => r.license == license && r.bay == c.bay && r.impounded == 0);
        if |res| > 0 {
          rows := Update(rows, (r: Row) => r.license == license && r.bay == c.bay && r.impounded != 1,
                         (r: Row) => r.(car := PayloadOf(c)));
        } else {
          rows := rows + [Row(license, c.bay, PayloadOf(c), 0)];
        }
      }
      assert cars[..|cars|] == cars;
    }

    /** Every row keeps its place and its car; the invariant survives unless cars are stacked. */
    method SwapCars(license: nat, isSwapping: bool, fromBay: nat, toBay: nat)
      modifies this
      ensures rows == if isSwapping then Swap(old(rows), license, fromBay, toBay)
                      else Move(old(rows), license, fromBay, toBay)
      ensures rows == Handle(old(rows), if isSwapping then SwapRequest(license, fromBay, toBay)
                                        else MoveRequest(license, fromBay, toBay))
      ensures |rows| == |old(rows)|
      ensures forall i :: 0 <= i < |rows| ==>
                            && rows[i].(bay := old(rows)[i].bay) == old(rows)[i]
                            && rows[i].bay == if old(rows)[i].license != license then old(rows)[i].bay
                                              else if old(rows)[i].bay == fromBay then toBay
                                              else if isSwapping && old(rows)[i].bay == toBay then fromBay
                                              else old(rows)[i].bay
      ensures old(Valid()) ==>
                (Valid() <==> isSwapping || fromBay == toBay
                              || !Occupied(old(rows), license, fromBay) || !Occupied(old(rows), license, toBay))
    {
      if GarageInv(rows) {
        SwapKeepsInv(rows, license, fromBay, toBay);
        MoveKeepsUniqueIff(rows, license, fromBay, toBay);
      }
      if isSwapping {
        rows := Update(rows,
                       (r: Row) => (r.bay == fromBay && r.license == license)
                                   || (r.bay == toBay && r.license == license),
                       (r: Row) => r.(bay := if r.bay == fromBay then toBay else fromBay));
        assert rows == Swap(old(rows), license, fromBay, toBay);
      } else {
        rows := Update(rows, (r: Row) => r.bay == fromBay && r.license == license, (r: Row) => r.(bay := toBay));
      }
    }

    /**
     * The bay is one byte of the packet. All rows of the bay go, impounded ones included, the
     * others stay in order, and the garage that is shown loses exactly that bay.
     */
    method RemoveCar(license: nat, bay: nat)
      requires bay < 256
      modifies this
      ensures rows == Remove(old(rows), license, bay) == Handle(old(rows), RemoveRequest(license, bay))
      ensures forall r :: r in rows <==> r in old(rows) && KeyOf(r) != Key(license, bay)
      ensures Live(rows) == Live(old(rows)) - {Key(license, bay)}
      ensures old(Valid()) ==> Valid()
    {
      RemoveDeletes(rows, license, bay);
      RemoveRefines(rows, license, bay);
      if GarageInv(rows) {
        RemoveKeepsInv(rows, license, bay);
      }
      rows := Select(rows, (r: Row) => !(r.bay == bay && r.license == license));
    }
  }

  // ---------------------------------------------------------------- the abstract garage

  function KeyOf(r: Row): Key {
    Key(r.license, r.bay)
  }

  predicate FlagsOk(rows: seq<Row>) {
    forall i :: 0 <= i < |rows| ==> rows[i].impounded <= 1
  }

  /** At most one car that is not impounded per bay. */
  predicate Unique(rows: seq<Row>) {
    forall i, j :: 0 <= i < j < |rows| && rows[i].impounded == 0 && rows[j].impounded == 0 ==>
                     KeyOf(rows[i]) != KeyOf(rows[j])
  }

  predicate GarageInv(rows: seq<Row>) {
    FlagsOk(rows) && Unique(rows)
  }

  /** The cars that are not impounded, by bay. */
  function Live(rows: seq<Row>): map<Key, Payload> {
    if rows == [] then map[]
    else
      var last := rows[|rows| - 1];
      var before := Live(rows[..|rows| - 1]);
      if last.impounded == 0 then before[KeyOf(last) := last.car] else before
  }

  /** What a statement on one licence's garage must not touch. */
  function Others(rows: seq<Row>, license: nat): seq<Row> {
    Select(rows, (r: Row) => r.license != license || r.impounded != 0)
  }

  function Override(m: map<Key, Payload>, license: nat, cars: seq<Car>): map<Key, Payload> {
    if cars == [] then m
    else
      var c := cars[|cars| - 1];
      Override(m, license, cars[..|cars| - 1])[Key(license, c.bay) := PayloadOf(c)]
  }

  /** `Live` in plain words. */
  lemma {:induction false} LiveMeans(rows: seq<Row>)
    requires Unique(rows)
    ensures forall i :: 0 <= i < |rows| && rows[i].impounded == 0 ==>
                          KeyOf(rows[i]) in Live(rows) && Live(rows)[KeyOf(rows[i])] == rows[i].car
    ensures forall k :: k in Live(rows) ==>
                          exists i :: 0 <= i < |rows| && rows[i].impounded == 0 && KeyOf(rows[i]) == k
  {
    if rows != [] {
      var n := |rows| - 1;
      LiveMeans(rows[..n]);
      forall k | k in Live(rows)
        ensures exists i :: 0 <= i < |rows| && rows[i].impounded == 0 && KeyOf(rows[i]) == k
      {
        if k in Live(rows[..n]) {
          var i :| 0 <= i < n && rows[..n][i].impounded == 0 && KeyOf(rows[..n][i]) == k;
          assert KeyOf(rows[i]) == k;
        } else {
          assert KeyOf(rows[n]) == k;
        }
      }
      forall i | 0 <= i < |rows| && rows[i].impounded == 0
        ensures KeyOf(rows[i]) in Live(rows) && Live(rows)[KeyOf(rows[i])] == rows[i].car
      {
        if i < n {
          assert rows[..n][i] == rows[i];
        }
      }
    }
  }

  /** Two tables with the same live rows show the same garage. */
  lemma LiveDetermined(rows: seq<Row>, m: map<Key, Payload>)
    requires Unique(rows)
    requires forall i :: 0 <= i < |rows| && rows[i].impounded == 0 ==>
                           KeyOf(rows[i]) in m && m[KeyOf(rows[i])] == rows[i].car
    requires forall k :: k in m ==> exists i :: 0 <= i < |rows| && rows[i].impounded == 0 && KeyOf(rows[i]) == k
    ensures Live(rows) == m
  {
    LiveMeans(rows);
  }

  lemma {:induction false} SelectAfterUpdate(rows: seq<Row>, after: seq<Row>, where: Row -> bool)
    requires |after| == |rows|
    requires forall i :: 0 <= i < |rows| ==>
                           where(after[i]) == where(rows[i]) && (where(rows[i]) ==> after[i] == rows[i])
    ensures Select(after, where) == Select(rows, where)
  {
    if rows != [] {
      SelectAfterUpdate(rows[..|rows| - 1], after[..|rows| - 1], where);
    }
  }

  // ---------------------------------------------------------------- Save

  lemma SaveOneRefines(rows: seq<Row>, license: nat, c: Car)
    requires GarageInv(rows)
    ensures GarageInv(SaveOne(rows, license, c))
    ensures Live(SaveOne(rows, license, c)) == Live(rows)[Key(license, c.bay) := PayloadOf(c)]
    ensures Others(SaveOne(rows, license, c), license) == Others(rows, license)
  {
    hide Live, Others, GarageInv;
    if Select(rows, (r: Row) => r.license == license && r.bay == c.bay && r.impounded == 0) != [] {
      SaveUpdates(rows, license, c);
    } else {
      SaveInserts(rows, license, c);
    }
  }

  /** The bay holds a car that is not impounded: its row is updated. */
  lemma SaveUpdates(rows: seq<Row>, license: nat, c: Car)
    requires GarageInv(rows)
    requires Select(rows, (r: Row) => r.license == license && r.bay == c.bay && r.impounded == 0) != []
    ensures GarageInv(SaveOne(rows, license, c))
    ensures Live(SaveOne(rows, license, c)) == Live(rows)[Key(license, c.bay) := PayloadOf(c)]
    ensures Others(SaveOne(rows, license, c), license) == Others(rows, license)
  {
    hide Live;
    var k, after := Key(license, c.bay), SaveOne(rows, license, c);
    assert |after| == |rows|;
    SelectAfterUpdate(rows, after, (r: Row) => r.license != license || r.impounded != 0);
    assert exists i :: 0 <= i < |rows| && rows[i].impounded == 0 && KeyOf(rows[i]) == k;
    UpdatedLive(rows, after, k, PayloadOf(c));
  }

  /** It holds none: a row is inserted. */
  lemma SaveInserts(rows: seq<Row>, license: nat, c: Car)
    requires GarageInv(rows)
    requires Select(rows, (r: Row) => r.license == license && r.bay == c.bay && r.impounded == 0) == []
    ensures GarageInv(SaveOne(rows, license, c))
    ensures Live(SaveOne(rows, license, c)) == Live(rows)[Key(license, c.bay) := PayloadOf(c)]
    ensures Others(SaveOne(rows, license, c), license) == Others(rows, license)
  {
    var k, after := Key(license, c.bay), SaveOne(rows, license, c);
    assert after[..|rows|] == rows;
    forall i | 0 <= i < |rows| && rows[i].impounded == 0 ensures KeyOf(rows[i]) != k {
    }
  }

  lemma UpdatedLive(rows: seq<Row>, after: seq<Row>, k: Key, car: Payload)
    requires GarageInv(rows) && |after| == |rows|
    requires forall i :: 0 <= i < |rows| ==>
                           after[i] == if KeyOf(rows[i]) == k && rows[i].impounded == 0 then rows[i].(car := car)
                                       else rows[i]
    requires exists i :: 0 <= i < |rows| && rows[i].impounded == 0 && KeyOf(rows[i]) == k
    ensures GarageInv(after) && Live(after) == Live(rows)[k := car]
  {
    hide Live;
    LiveMeans(rows);
    var m := Live(rows)[k := car];
    forall key | key in m
      ensures exists i :: 0 <= i < |after| && after[i].impounded == 0 && KeyOf(after[i]) == key
    {
      var i :| 0 <= i < |rows| && rows[i].impounded == 0 && KeyOf(rows[i]) == key;
      assert KeyOf(after[i]) == key;
    }
    LiveDetermined(after, m);
  }

  /**
   * The Save loop refines overriding a map from left to right by the packet's cars; it touches
   * no other licence and no impounded row.
   */
  lemma {:induction false} SaveRefinesOverride(rows: seq<Row>, license: nat, cars: seq<Car>)
    requires GarageInv(rows)
    ensures GarageInv(SaveCars(rows, license, cars))
    ensures Live(SaveCars(rows, license, cars)) == Override(Live(rows), license, cars)
    ensures Others(SaveCars(rows, license, cars), license) == Others(rows, license)
  {
    if cars != [] {
      SaveRefinesOverride(rows, license, cars[..|cars| - 1]);
      SaveOneRefines(SaveCars(rows, license, cars[..|cars| - 1]), license, cars[|cars| - 1]);
    }
  }

  /** No later car of the packet goes into the same bay. */
  predicate LastForBay(cars: seq<Car>, j: nat)
    requires j < |cars|
  {
    forall k :: j < k < |cars| ==> cars[k].bay != cars[j].bay
  }

  /** The columns of the table, one by one, are the fields of the packet. */
  predicate Shows(m: map<Key, Payload>, license: nat, c: Car) {
    var key := Key(license, c.bay);
    && key in m
    && m[key].carID == c.carID && m[key].kms == c.kms
    && m[key].condition == c.condition && m[key].data == c.data
  }

  lemma {:induction false} OverrideShows(m: map<Key, Payload>, license: nat, cars: seq<Car>, j: nat)
    requires j < |cars| && LastForBay(cars, j)
    ensures Shows(Override(m, license, cars), license, cars[j])
    decreases |cars|
  {
    var n := |cars| - 1;
    if j < n {
      assert LastForBay(cars[..n], j) by { assert forall k :: j < k < n ==> cars[..n][k] == cars[k]; }
      OverrideShows(m, license, cars[..n], j);
    }
  }

  /** A bay that the packet does not name shows what it showed. */
  lemma {:induction false} OverrideKeeps(m: map<Key, Payload>, license: nat, cars: seq<Car>, k: Key)
    requires k.license != license || forall j :: 0 <= j < |cars| ==> cars[j].bay != k.bay
    ensures k in Override(m, license, cars) <==> k in m
    ensures k in m ==> Override(m, license, cars)[k] == m[k]
  {
    if cars != [] {
      OverrideKeeps(m, license, cars[..|cars| - 1], k);
    }
  }

  /**
   * After a Save every bay it names shows the last car for it, column by column, whether its row was
   * updated or inserted, and every other bay shows what it showed.
   */
  lemma SavedCars(rows: seq<Row>, license: nat, cars: seq<Car>)
    requires GarageInv(rows)
    ensures forall j :: 0 <= j < |cars| && LastForBay(cars, j) ==>
                          Shows(Live(SaveCars(rows, license, cars)), license, cars[j])
    ensures forall k: Key :: (k.license != license || forall j :: 0 <= j < |cars| ==> cars[j].bay != k.bay) ==>
                          && (k in Live(SaveCars(rows, license, cars)) <==> k in Live(rows))
                          && (k in Live(rows) ==> Live(SaveCars(rows, license, cars))[k] == Live(rows)[k])
  {
    hide Live, Shows, SaveCars, Override;
    SaveRefinesOverride(rows, license, cars);
    forall j | 0 <= j < |cars| && LastForBay(cars, j)
      ensures Shows(Live(SaveCars(rows, license, cars)), license, cars[j])
    {
      OverrideShows(Live(rows), license, cars, j);
    }
    forall k: Key | k.license != license || forall j :: 0 <= j < |cars| ==> cars[j].bay != k.bay
      ensures k in Live(SaveCars(rows, license, cars)) <==> k in Live(rows)
      ensures k in Live(rows) ==> Live(SaveCars(rows, license, cars))[k] == Live(rows)[k]
    {
      OverrideKeeps(Live(rows), license, cars, k);
    }
  }

  /** Rows stay where they are with licence, bay and flag; new ones are the licence's own and not impounded. */
  predicate KeepsRows(rows: seq<Row>, after: seq<Row>, license: nat) {
    && |rows| <= |after|
    && (forall i :: 0 <= i < |rows| ==> after[i].(car := rows[i].car) == rows[i])
    && (forall i :: 0 <= i < |rows| && (rows[i].license != license || rows[i].impounded == 1) ==> after[i] == rows[i])
    && (forall i :: |rows| <= i < |after| ==> after[i].license == license && after[i].impounded == 0)
  }

  lemma SaveOneKeepsRows(rows: seq<Row>, license: nat, c: Car)
    ensures KeepsRows(rows, SaveOne(rows, license, c), license)
    ensures |SaveOne(rows, license, c)| <= |rows| + 1
  {
    hide PayloadOf;
  }

  lemma KeptTwice(a: seq<Row>, b: seq<Row>, c: seq<Row>, license: nat)
    requires KeepsRows(a, b, license) && KeepsRows(b, c, license)
    ensures KeepsRows(a, c, license)
  {
    assert forall i :: 0 <= i < |a| ==> c[i].(car := b[i].car) == b[i] && b[i].(car := a[i].car) == a[i];
  }

  /** The whole of Save. */
  lemma {:induction false} SaveKeepsRows(rows: seq<Row>, license: nat, cars: seq<Car>)
    ensures KeepsRows(rows, SaveCars(rows, license, cars), license)
    ensures |SaveCars(rows, license, cars)| <= |rows| + |cars|
  {
    hide KeepsRows, SaveOne;
    if cars == [] {
      KeptAtFirst(rows, license);
    } else {
      var before := SaveCars(rows, license, cars[..|cars| - 1]);
      SaveKeepsRows(rows, license, cars[..|cars| - 1]);
      SaveOneKeepsRows(before, license, cars[|cars| - 1]);
      KeptTwice(rows, before, SaveCars(rows, license, cars), license);
    }
  }

  lemma KeptAtFirst(rows: seq<Row>, license: nat)
    ensures KeepsRows(rows, rows, license)
  {
  }

  // ---------------------------------------------------------------- swap, move, remove

  /** Swapping twice restores the table. */
  lemma SwapIsInvolution(rows: seq<Row>, license: nat, a: nat, b: nat)
    ensures |Swap(rows, license, a, b)| == |rows|
    ensures Swap(Swap(rows, license, a, b), license, a, b) == rows
  {
  }

  lemma SwapKeepsInv(rows: seq<Row>, license: nat, a: nat, b: nat)
    requires GarageInv(rows)
    ensures GarageInv(Swap(rows, license, a, b))
    ensures forall i :: 0 <= i < |rows| ==>
                          Swap(rows, license, a, b)[i].(bay := rows[i].bay) == rows[i]
                          && KeyOf(Swap(rows, license, a, b)[i]) == SwappedKey(KeyOf(rows[i]), license, a, b)
  {
  }

  lemma SwapEntry(rows: seq<Row>, license: nat, a: nat, b: nat, k: Key)
    requires GarageInv(rows) && k in Live(rows)
    ensures SwappedKey(k, license, a, b) in Live(Swap(rows, license, a, b))
    ensures Live(Swap(rows, license, a, b))[SwappedKey(k, license, a, b)] == Live(rows)[k]
  {
    var after := Swap(rows, license, a, b);
    SwapKeepsInv(rows, license, a, b);
    LiveMeans(rows);
    LiveMeans(after);
    var i :| 0 <= i < |rows| && rows[i].impounded == 0 && KeyOf(rows[i]) == k;
    assert after[i].impounded == 0 && after[i].car == rows[i].car;
  }

  /** A swap keeps the invariant and exchanges what the two bays show; every row stays where it was. */
  lemma SwapRefines(rows: seq<Row>, license: nat, a: nat, b: nat)
    requires GarageInv(rows)
    ensures var after := Swap(rows, license, a, b);
            && GarageInv(after) && |after| == |rows|
            && (forall k :: k in Live(rows) <==> SwappedKey(k, license, a, b) in Live(after))
            && (forall k :: k in Live(rows) ==> Live(after)[SwappedKey(k, license, a, b)] == Live(rows)[k])
  {
    hide GarageInv, Live, Swap;
    var after := Swap(rows, license, a, b);
    SwapKeepsInv(rows, license, a, b);
    SwapIsInvolution(rows, license, a, b);
    forall k | k in Live(rows)
      ensures SwappedKey(k, license, a, b) in Live(after)
      ensures Live(after)[SwappedKey(k, license, a, b)] == Live(rows)[k]
    {
      SwapEntry(rows, license, a, b, k);
    }
    forall k | SwappedKey(k, license, a, b) in Live(after) ensures k in Live(rows) {
      SwapEntry(after, license, a, b, SwappedKey(k, license, a, b));
      assert SwappedKey(SwappedKey(k, license, a, b), license, a, b) == k;
    }
  }

  function SwappedKey(k: Key, license: nat, a: nat, b: nat): Key {
    if k.license == license then Key(license, Swapped(k.bay, a, b)) else k
  }

  /** A bay of the licence holds a car that is not impounded. */
  predicate Occupied(rows: seq<Row>, license: nat, bay: nat) {
    exists i :: 0 <= i < |rows| && rows[i].impounded == 0 && KeyOf(rows[i]) == Key(license, bay)
  }

  /** A move keeps uniqueness exactly when it does not put a car into a bay that has one. */
  lemma MoveKeepsUniqueIff(rows: seq<Row>, license: nat, a: nat, b: nat)
    requires GarageInv(rows)
    ensures Unique(Move(rows, license, a, b)) <==>
            a == b || !Occupied(rows, license, a) || !Occupied(rows, license, b)
    ensures |Move(rows, license, a, b)| == |rows| && FlagsOk(Move(rows, license, a, b))
    ensures forall i :: 0 <= i < |rows| ==> Move(rows, license, a, b)[i].(bay := rows[i].bay) == rows[i]
  {
  }

  /** A safe move carries the car over and empties its bay. */
  lemma MoveRefines(rows: seq<Row>, license: nat, a: nat, b: nat)
    requires GarageInv(rows) && a != b && Occupied(rows, license, a) && !Occupied(rows, license, b)
    ensures var ka, kb := Key(license, a), Key(license, b);
            ka in Live(rows) && Live(Move(rows, license, a, b)) == (Live(rows) - {ka})[kb := Live(rows)[ka]]
  {
    hide Live;
    var ka, kb, after := Key(license, a), Key(license, b), Move(rows, license, a, b);
    MoveKeepsUniqueIff(rows, license, a, b);
    LiveMeans(rows);
    var m := (Live(rows) - {ka})[kb := Live(rows)[ka]];
    forall k | k in m
      ensures exists i :: 0 <= i < |after| && after[i].impounded == 0 && KeyOf(after[i]) == k
    {
      var i :| 0 <= i < |rows| && rows[i].impounded == 0 && KeyOf(rows[i]) == if k == kb then ka else k;
      assert KeyOf(after[i]) == k;
    }
    LiveDetermined(after, m);
  }

  /** Removing a bay empties it in the garage that is shown. */
  lemma {:induction false} RemoveRefines(rows: seq<Row>, license: nat, bay: nat)
    ensures Live(Remove(rows, license, bay)) == Live(rows) - {Key(license, bay)}
  {
    if rows != [] {
      var n := |rows| - 1;
      RemoveRefines(rows[..n], license, bay);
      var before := Remove(rows[..n], license, bay);
      if KeyOf(rows[n]) == Key(license, bay) {
        assert Remove(rows, license, bay) == before + [] == before;
      } else {
        assert (before + [rows[n]])[..|before|] == before;
      }
    }
  }

  lemma {:induction false} SelectAppend(a: seq<Row>, b: seq<Row>, where: Row -> bool)
    ensures Select(a + b, where) == Select(a, where) + Select(b, where)
    decreases |b|
  {
    if b == [] {
      assert a + b == a && Select(a, where) + [] == Select(a, where);
    } else {
      var n := |b| - 1;
      SelectAppend(a, b[..n], where);
      assert (a + b)[..|a| + n] == a + b[..n];
      AppendAssoc(Select(a, where), Select(b[..n], where), if where(b[n]) then [b[n]] else []);
    }
  }

  lemma SelectOne(r: Row, where: Row -> bool)
    ensures Select([r], where) == if where(r) then [r] else []
  {
    assert [r][..0] == [] && [] + [r] == [r];
  }

  /** Removing works row by row, so the rows that stay keep their order and number. */
  lemma RemoveRowByRow(a: seq<Row>, r: Row, b: seq<Row>, license: nat, bay: nat)
    ensures Remove(a + [r] + b, license, bay) ==
            Remove(a, license, bay) + (if r.license == license && r.bay == bay then [] else [r]) + Remove(b, license, bay)
  {
    hide Select;
    SelectAppend(a + [r], b, (x: Row) => !(x.bay == bay && x.license == license));
    SelectAppend(a, [r], (x: Row) => !(x.bay == bay && x.license == license));
    SelectOne(r, (x: Row) => !(x.bay == bay && x.license == license));
  }

  /** It deletes every row of the bay, impounded ones included, and no other row. */
  lemma {:induction false} RemoveDeletes(rows: seq<Row>, license: nat, bay: nat)
    ensures forall r :: r in Remove(rows, license, bay) <==> r in rows && KeyOf(r) != Key(license, bay)
  {
    if rows != [] {
      var n := |rows| - 1;
      RemoveDeletes(rows[..n], license, bay);
      assert rows == rows[..n] + [rows[n]];
    }
  }

  lemma {:induction false} RemoveKeepsInv(rows: seq<Row>, license: nat, bay: nat)
    requires GarageInv(rows)
    ensures GarageInv(Remove(rows, license, bay))
  {
    if rows != [] {
      var n := |rows| - 1;
      RemoveKeepsInv(rows[..n], license, bay);
      RemoveDeletes(rows[..n], license, bay);
      var before := Remove(rows[..n], license, bay);
      if KeyOf(rows[n]) == Key(license, bay) {
        assert Remove(rows, license, bay) == before + [] == before;
      } else {
        AppendKeepsInv(rows, before);
      }
    }
  }

  lemma AppendKeepsInv(rows: seq<Row>, before: seq<Row>)
    requires rows != [] && GarageInv(rows) && GarageInv(before)
    requires forall r :: r in before ==> r in rows[..|rows| - 1]
    ensures GarageInv(before + [rows[|rows| - 1]])
  {
    var n := |rows| - 1;
    forall i | 0 <= i < |before| && before[i].impounded == 0 && rows[n].impounded == 0
      ensures KeyOf(before[i]) != KeyOf(rows[n])
    {
      assert before[i] in before;
      assert before[i] in rows[..n];
      var j :| 0 <= j < n && rows[..n][j] == before[i];
      assert rows[j] == before[i];
    }
  }

  // ---------------------------------------------------------------- runs

  datatype Request =
    | SaveRequest(license: nat, cars: seq<Car>)
    | SwapRequest(license: nat, a: nat, b: nat)
    | MoveRequest(license: nat, a: nat, b: nat)
    | RemoveRequest(license: nat, bay: nat)

  function Handle(rows: seq<Row>, q: Request): seq<Row> {
    match q
    case SaveRequest(license, cars) => SaveCars(rows, license, cars)
    case SwapRequest(license, a, b) => Swap(rows, license, a, b)
    case MoveRequest(license, a, b) => Move(rows, license, a, b)
    case RemoveRequest(license, bay) => Remove(rows, license, bay)
  }

  function HandleAll(rows: seq<Row>, qs: seq<Request>): seq<Row> {
    if qs == [] then rows else Handle(HandleAll(rows, qs[..|qs| - 1]), qs[|qs| - 1])
  }

  /** No request of the run moves a car onto another one. */
  predicate MovesAreSafe(rows: seq<Row>, qs: seq<Request>) {
    qs == [] ||
    (var before, q := HandleAll(rows, qs[..|qs| - 1]), qs[|qs| - 1];
     && MovesAreSafe(rows, qs[..|qs| - 1])
     && (q.MoveRequest? ==> q.a == q.b || !Occupied(before, q.license, q.a) || !Occupied(before, q.license, q.b)))
  }

  /** The invariant holds before, during and after the run. */
  predicate AlwaysInv(rows: seq<Row>, qs: seq<Request>) {
    GarageInv(HandleAll(rows, qs)) && (qs != [] ==> AlwaysInv(rows, qs[..|qs| - 1]))
  }

  /**
   * Over every run from a sound garage: there is one car per bay all the way exactly when no
   * request of the run moves a car onto another one.
   */
  lemma {:induction false} RunsKeepGarageIff(rows: seq<Row>, qs: seq<Request>)
    requires GarageInv(rows)
    ensures AlwaysInv(rows, qs) <==> MovesAreSafe(rows, qs)
  {
    if qs != [] {
      var before, q := HandleAll(rows, qs[..|qs| - 1]), qs[|qs| - 1];
      RunsKeepGarageIff(rows, qs[..|qs| - 1]);
      if AlwaysInv(rows, qs[..|qs| - 1]) {
        match q
        case SaveRequest(license, cars) => SaveRefinesOverride(before, license, cars);
        case SwapRequest(license, a, b) => SwapRefines(before, license, a, b);
        case MoveRequest(license, a, b) => MoveKeepsUniqueIff(before, license, a, b);
        case RemoveRequest(license, bay) => RemoveKeepsInv(before, license, bay);
      }
    }
  }

  /**
   * A run that stacks two cars: a Save parks one car in bay 0 and another in bay 1, and the first
   * is moved to bay 1. Both rows then stand in one bay, and only one of the cars is still shown.
   */
  lemma MoveCanStackCars(blue: Car, red: Car)
    requires blue.bay == 0 && red.bay == 1
    ensures var run := [SaveRequest(7, [blue, red]), MoveRequest(7, 0, 1)];
            var key := Key(7, 1);
            && HandleAll([], run) == [Row(7, 1, PayloadOf(blue), 0), Row(7, 1, PayloadOf(red), 0)]
            && !GarageInv(HandleAll([], run)) && !MovesAreSafe([], run)
            && Live(HandleAll([], run)) == map[key := PayloadOf(red)]
  {
    var run := [SaveRequest(7, [blue, red]), MoveRequest(7, 0, 1)];
    assert run[..1][..0] == [] && [blue, red][..1] == [blue] && [blue][..0] == [];
    var before, after := HandleAll([], run[..1]), HandleAll([], run);
    assert before == Handle(HandleAll([], []), run[0]) == SaveCars([], 7, [blue, red]);
    assert SaveCars([], 7, [blue]) == [Row(7, 0, PayloadOf(blue), 0)];
    assert before == [Row(7, 0, PayloadOf(blue), 0), Row(7, 1, PayloadOf(red), 0)];
    assert after == [Row(7, 1, PayloadOf(blue), 0), Row(7, 1, PayloadOf(red), 0)];
    assert KeyOf(after[0]) == KeyOf(after[1]) == Key(7, 1);
    assert KeyOf(before[0]) == Key(7, 0) && KeyOf(before[1]) == Key(7, 1);
    assert after[..1] == [after[0]] && after[..1][..0] == [];
    assert Live([]) == map[] && Live(after[..1]) == map[Key(7, 1) := PayloadOf(blue)];
  }
}
