/**
 * A trip record and the per-row operations of the trip form: the distance
 * delta, building the row for a submission, picking one driver's rows out
 * of the loaded table, dropping rows by serial number and renumbering.
 */
module Trips {
  import opened TimeOptions

  /** The fixed set of drivers the form offers. */
  datatype Driver = Prem | Ajith | Wilson

  /** The drivers in the order the form lists them (and exports them). */
  const Drivers: seq<Driver> := [Prem, Ajith, Wilson]

  /** A calendar date, carried through unchanged. */
  datatype Date = Date(year: int, month: int, day: int)

  /** Everything a row holds besides its serial number ("S.No."). */
  datatype Trip = Trip(
    driver: Driver,
    dispDate: Date,
    invoiceNo: string,
    customer: string,
    destination: string,
    invoiceDate: Date,
    vehicle: string,
    outTime: string,
    inTime: string,
    outKm: nat,
    inKm: nat,
    diffKm: nat)

  /** One row of a driver's sheet: a serial number and the trip it numbers. */
  datatype Row = Row(sNo: int, trip: Trip)

  /** The field values of one form submission. */
  datatype Submission = Submission(
    driver: Driver,
    dispDate: Date,
    invoiceNo: string,
    customer: string,
    destination: string,
    invoiceDate: Date,
    vehicle: string,
    outTime: string,
    inTime: string,
    outKm: nat,
    inKm: nat)

  /**
   * The distance covered: in-reading minus out-reading, or 0 when the
   * in-reading is the smaller one. Both readings come from inputs whose
   * minimum is 0.
   */
  function DiffKm(outKm: nat, inKm: nat): (d: nat)
    ensures d <= inKm
    ensures inKm >= outKm ==> outKm + d == inKm
    ensures inKm < outKm ==> d == 0
  {
    if inKm >= outKm then inKm - outKm else 0
  }

  /** The trip a submission records, with its distance delta filled in. */
  function TripOf(s: Submission): (t: Trip)
    ensures t.driver == s.driver
    ensures t.dispDate == s.dispDate && t.invoiceDate == s.invoiceDate
    ensures t.invoiceNo == s.invoiceNo && t.customer == s.customer
    ensures t.destination == s.destination && t.vehicle == s.vehicle
    ensures t.outTime == s.outTime && t.inTime == s.inTime
    ensures t.outKm == s.outKm && t.inKm == s.inKm
    ensures t.diffKm == DiffKm(s.outKm, s.inKm)
  {
    Trip(s.driver, s.dispDate, s.invoiceNo, s.customer, s.destination, s.invoiceDate,
         s.vehicle, s.outTime, s.inTime, s.outKm, s.inKm, DiffKm(s.outKm, s.inKm))
  }

  /** The trips of a row sequence, serial numbers left aside. */
  function TripsOf(rows: seq<Row>): (ts: seq<Trip>)
    ensures |ts| == |rows|
  {
    seq(|rows|, i requires 0 <= i < |rows| => rows[i].trip)
  }

  lemma TripsOfAppend(a: seq<Row>, b: seq<Row>)
    ensures TripsOf(a + b) == TripsOf(a) + TripsOf(b)
  {
    assert forall i :: 0 <= i < |a + b| ==> TripsOf(a + b)[i] == (TripsOf(a) + TripsOf(b))[i];
  }

  /** Serial numbers run 1, 2, ... in row order. */
  ghost predicate Numbered(rows: seq<Row>) {
    NumberedFrom(rows, 1)
  }

  /** Serial numbers run first, first + 1, ... in row order. */
  ghost predicate NumberedFrom(rows: seq<Row>, first: int) {
    forall i :: 0 <= i < |rows| ==> rows[i].sNo == first + i
  }

  /** Both times of every row are entries of the time dropdown. */
  ghost predicate TimesFromOptions(rows: seq<Row>) {
    forall x :: x in rows ==> IsTimeOption(x.trip.outTime) && IsTimeOption(x.trip.inTime)
  }

  /** Every row belongs to driver d. */
  ghost predicate AllOf(rows: seq<Row>, d: Driver) {
    forall x :: x in rows ==> x.trip.driver == d
  }

  /** The rows whose Driver column is d, in their original order. */
  function ByDriver(rows: seq<Row>, d: Driver): (r: seq<Row>)
    ensures |r| <= |rows|
    ensures forall x :: x in r <==> x in rows && x.trip.driver == d
  {
    if rows == [] then []
    else if rows[0].trip.driver == d then [rows[0]] + ByDriver(rows[1..], d)
    else ByDriver(rows[1..], d)
  }

  /** The rows whose serial number differs from k, in their original order. */
  function DropSNo(rows: seq<Row>, k: int): (r: seq<Row>)
    ensures |r| <= |rows|
  {
    if rows == [] then []
    else if rows[0].sNo != k then [rows[0]] + DropSNo(rows[1..], k)
    else DropSNo(rows[1..], k)
  }

  /** Dropping serial number k keeps exactly the rows numbered otherwise. */
  lemma {:induction false} DropSNoMembers(rows: seq<Row>, k: int)
    ensures forall x :: x in DropSNo(rows, k) <==> x in rows && x.sNo != k
  {
    if rows != [] {
      DropSNoMembers(rows[1..], k);
      assert rows == [rows[0]] + rows[1..];
    }
  }

  /** The same trips, in the same order, numbered 1..N. */
  function Renumber(rows: seq<Row>): (r: seq<Row>)
    ensures Numbered(r)
    ensures TripsOf(r) == TripsOf(rows)
  {
    seq(|rows|, i requires 0 <= i < |rows| => Row(i + 1, rows[i].trip))
  }

  /** Selecting a driver from a concatenation selects from each part. */
  lemma {:induction false} ByDriverAppend(a: seq<Row>, b: seq<Row>, d: Driver)
    ensures ByDriver(a + b, d) == ByDriver(a, d) + ByDriver(b, d)
  {
    if a != [] {
      assert (a + b)[1..] == a[1..] + b;
      ByDriverAppend(a[1..], b, d);
    } else {
      assert a + b == b;
    }
  }

  /** Selecting the driver every row already belongs to keeps all rows. */
  lemma {:induction false} ByDriverOwn(rows: seq<Row>, d: Driver)
    requires AllOf(rows, d)
    ensures ByDriver(rows, d) == rows
  {
    if rows != [] {
      assert rows[0] in rows;
      assert AllOf(rows[1..], d) by {
        forall x | x in rows[1..] ensures x.trip.driver == d { assert x in rows; }
      }
      ByDriverOwn(rows[1..], d);
      assert [rows[0]] + rows[1..] == rows;
    }
  }

  /** Selecting a driver none of the rows belongs to keeps nothing. */
  lemma ByDriverForeign(rows: seq<Row>, d: Driver, e: Driver)
    requires AllOf(rows, e) && d != e
    ensures ByDriver(rows, d) == []
  {
  }

  /**
   * In rows numbered first, first + 1, ..., dropping a serial number that
   * occurs removes exactly the row at that position and keeps the others
   * in order.
   */
  lemma {:induction false} DropNumbered(rows: seq<Row>, first: int, k: int)
    requires NumberedFrom(rows, first)
    requires first <= k < first + |rows|
    ensures DropSNo(rows, k) == rows[..k - first] + rows[k - first + 1..]
  {
    var tail := rows[1..];
    assert rows == [rows[0]] + tail;
    assert NumberedFrom(tail, first + 1) by {
      forall i | 0 <= i < |tail| ensures tail[i].sNo == first + 1 + i {
        assert tail[i] == rows[i + 1];
      }
    }
    if k == first {
      assert rows[0].sNo == k;
      assert DropSNo(rows, k) == DropSNo(tail, k);
      DropAbsent(tail, k);
      assert rows[..0] + rows[1..] == tail;
    } else {
      assert rows[0].sNo != k;
      assert DropSNo(rows, k) == [rows[0]] + DropSNo(tail, k);
      var j := k - first;
      DropNumbered(tail, first + 1, k);
      assert DropSNo(tail, k) == tail[..j - 1] + tail[j..];
      assert tail[..j - 1] == rows[1..j];
      assert tail[j..] == rows[j + 1..];
      assert [rows[0]] + rows[1..j] == rows[..j];
    }
  }

  /** Dropping a serial number no row carries changes nothing. */
  lemma {:induction false} DropAbsent(rows: seq<Row>, k: int)
    requires forall i :: 0 <= i < |rows| ==> rows[i].sNo != k
    ensures DropSNo(rows, k) == rows
  {
    if rows != [] {
      DropAbsent(rows[1..], k);
      assert [rows[0]] + rows[1..] == rows;
    }
  }

  /**
   * Deleting serial number k from numbered rows and renumbering: when k is
   * one of 1..N the k-th trip is gone, the others keep their order and the
   * result is numbered 1..N-1; otherwise the trips are unchanged.
   */
  lemma DeleteAndRenumber(rows: seq<Row>, k: int)
    requires Numbered(rows)
    ensures Numbered(Renumber(DropSNo(rows, k)))
    ensures 1 <= k <= |rows| ==>
              TripsOf(Renumber(DropSNo(rows, k))) == TripsOf(rows[..k - 1]) + TripsOf(rows[k..])
    ensures 1 <= k <= |rows| ==> |Renumber(DropSNo(rows, k))| == |rows| - 1
    ensures !(1 <= k <= |rows|) ==> TripsOf(Renumber(DropSNo(rows, k))) == TripsOf(rows)
  {
    if 1 <= k <= |rows| {
      DropNumbered(rows, 1, k);
      TripsOfAppend(rows[..k - 1], rows[k..]);
    } else {
      DropAbsent(rows, k);
    }
  }

  /** Appending the row numbered N + 1 to rows numbered 1..N keeps them numbered. */
  lemma AppendNumbered(rows: seq<Row>, row: Row)
    requires Numbered(rows) && row.sNo == |rows| + 1
    ensures Numbered(rows + [row])
  {
  }
}
