/**
 * The trip workbook: one sheet per driver, each a table of that driver's
 * rows. Sheets are kept in workbook order, because loading concatenates
 * them in that order and saving a driver's sheet deletes it and writes it
 * anew at the end of the workbook. A workbook file that does not exist yet
 * behaves as a workbook with no sheets.
 */
module Ledger {
  import opened TimeOptions
  import opened Trips

  /** One sheet of the workbook, named after its driver. */
  datatype Sheet = Sheet(name: Driver, rows: seq<Row>)

  /** All rows of all sheets, sheet after sheet. */
  function Concat(sheets: seq<Sheet>): (all: seq<Row>)
    ensures forall i, x :: 0 <= i < |sheets| && x in sheets[i].rows ==> x in all
    ensures forall x :: x in all ==> exists i :: 0 <= i < |sheets| && x in sheets[i].rows
  {
    if sheets == [] then []
    else Concat(sheets[..|sheets| - 1]) + sheets[|sheets| - 1].rows
  }

  /** The rows of the sheet named d, or no rows when there is no such sheet. */
  function SheetRows(sheets: seq<Sheet>, d: Driver): seq<Row> {
    if sheets == [] then []
    else if sheets[|sheets| - 1].name == d then sheets[|sheets| - 1].rows
    else SheetRows(sheets[..|sheets| - 1], d)
  }

  /** The workbook with the sheet named d deleted. */
  function WithoutSheet(sheets: seq<Sheet>, d: Driver): (r: seq<Sheet>)
    ensures forall sh :: sh in r <==> sh in sheets && sh.name != d
  {
    if sheets == [] then []
    else
      var last := sheets[|sheets| - 1];
      WithoutSheet(sheets[..|sheets| - 1], d) + (if last.name == d then [] else [last])
  }

  /** No two sheets share a name. */
  ghost predicate DistinctNames(sheets: seq<Sheet>) {
    forall i, j :: 0 <= i < j < |sheets| ==> sheets[i].name != sheets[j].name
  }

  /**
   * A sheet as the form writes it: only its own driver's rows, numbered
   * 1..N, with both times taken from the dropdown.
   */
  ghost predicate SheetOk(sh: Sheet) {
    AllOf(sh.rows, sh.name) && Numbered(sh.rows) && TimesFromOptions(sh.rows)
  }

  /** Distinct sheet names, and every sheet as the form writes it. */
  ghost predicate WellFormed(sheets: seq<Sheet>) {
    DistinctNames(sheets) && forall i :: 0 <= i < |sheets| ==> SheetOk(sheets[i])
  }

  /** In a well-formed workbook, every driver's rows are as the form writes them. */
  lemma {:induction false} SheetRowsOk(sheets: seq<Sheet>, d: Driver)
    requires WellFormed(sheets)
    ensures SheetOk(Sheet(d, SheetRows(sheets, d)))
  {
    if sheets != [] {
      var front, last := sheets[..|sheets| - 1], sheets[|sheets| - 1];
      assert WellFormed(front);
      SheetRowsOk(front, d);
      assert SheetOk(last);
    }
  }

  /** Without a sheet named d, d has no rows. */
  lemma {:induction false} SheetRowsAbsent(sheets: seq<Sheet>, d: Driver)
    requires forall i :: 0 <= i < |sheets| ==> sheets[i].name != d
    ensures SheetRows(sheets, d) == []
  {
    if sheets != [] {
      SheetRowsAbsent(sheets[..|sheets| - 1], d);
    }
  }

  /**
   * In a workbook with distinct sheet names whose sheets each hold only
   * their own driver's rows, picking driver d's rows out of the loaded
   * table gives exactly the rows of d's sheet, in sheet order.
   */
  lemma {:induction false} LoadedByDriver(sheets: seq<Sheet>, d: Driver)
    requires DistinctNames(sheets)
    requires forall i :: 0 <= i < |sheets| ==> AllOf(sheets[i].rows, sheets[i].name)
    ensures ByDriver(Concat(sheets), d) == SheetRows(sheets, d)
  {
    if sheets != [] {
      var front, last := sheets[..|sheets| - 1], sheets[|sheets| - 1];
      assert forall i :: 0 <= i < |front| ==> front[i] == sheets[i];
      assert AllOf(last.rows, last.name);
      LoadedByDriver(front, d);
      ByDriverAppend(Concat(front), last.rows, d);
      if last.name == d {
        ByDriverOwn(last.rows, d);
        SheetRowsAbsent(front, d);
      } else {
        ByDriverForeign(last.rows, d, last.name);
      }
    }
  }

  /** Deleting the sheet named d leaves every other driver's rows as they were. */
  lemma {:induction false} WithoutSheetRows(sheets: seq<Sheet>, d: Driver, e: Driver)
    requires e != d
    ensures SheetRows(WithoutSheet(sheets, d), e) == SheetRows(sheets, e)
  {
    if sheets != [] {
      var front, last := sheets[..|sheets| - 1], sheets[|sheets| - 1];
      WithoutSheetRows(front, d, e);
      var rf := WithoutSheet(front, d);
      if last.name == d {
        assert WithoutSheet(sheets, d) == rf;
        assert SheetRows(sheets, e) == SheetRows(front, e);
      } else {
        var r := rf + [last];
        assert WithoutSheet(sheets, d) == r;
        assert r[..|r| - 1] == rf;
        assert r[|r| - 1] == last;
      }
    }
  }

  /** Deleting a sheet keeps the workbook well-formed and removes the name. */
  lemma {:induction false} WithoutSheetWellFormed(sheets: seq<Sheet>, d: Driver)
    requires WellFormed(sheets)
    ensures WellFormed(WithoutSheet(sheets, d))
    ensures forall i :: 0 <= i < |WithoutSheet(sheets, d)| ==> WithoutSheet(sheets, d)[i].name != d
  {
    if sheets != [] {
      var front, last := sheets[..|sheets| - 1], sheets[|sheets| - 1];
      assert WellFormed(front);
      WithoutSheetWellFormed(front, d);
      var r := WithoutSheet(sheets, d);
      var rf := WithoutSheet(front, d);
      if last.name != d {
        assert r == rf + [last];
        forall i | 0 <= i < |rf| ensures rf[i].name != last.name {
          assert rf[i] in rf;
          assert rf[i] in front;
          var k :| 0 <= k < |front| && front[k] == rf[i];
          assert sheets[k] == rf[i];
        }
        forall i | 0 <= i < |r| ensures SheetOk(r[i]) {
          if i < |rf| {
            assert r[i] == rf[i];
          } else {
            assert r[i] == sheets[|sheets| - 1];
          }
        }
      }
    }
  }

  /** Why writing the workbook back failed. */
  datatype SaveError = NoVisibleSheet

  /** The sheets after a save, or the failure that stopped it. */
  datatype SaveOutcome = Saved(sheets: seq<Sheet>) | Failed(error: SaveError)

  /**
   * Saving driver d's sheet as the code does it, step by step. Without a
   * data file the writer creates a workbook holding the new sheet. With a
   * data file, d's sheet is deleted and the workbook is written back
   * before the new sheet is appended; the spreadsheet library refuses to
   * write a workbook without a visible sheet, so that intermediate write
   * fails when d's sheet was the only one.
   */
  function SaveAsWritten(sheets: seq<Sheet>, d: Driver, rows: seq<Row>): (r: SaveOutcome)
    ensures r.Failed? ==> sheets != [] && forall sh :: sh in sheets ==> sh.name == d
    ensures r.Saved? ==> SheetRows(r.sheets, d) == rows
    ensures r.Saved? ==> forall sh :: sh in sheets && sh.name != d ==> sh in r.sheets
  {
    if sheets == [] then Saved([Sheet(d, rows)])
    else
      var book := WithoutSheet(sheets, d);
      if book == [] then Failed(NoVisibleSheet)
      else Saved(book + [Sheet(d, rows)])
  }

  /**
   * The save as written fails exactly when the workbook holds one sheet and
   * it is d's; in every other case it gives the intended replacement.
   */
  lemma SaveAsWrittenFailsIff(sheets: seq<Sheet>, d: Driver, rows: seq<Row>)
    requires WellFormed(sheets)
    ensures SaveAsWritten(sheets, d, rows).Failed? <==> |sheets| == 1 && sheets[0].name == d
    ensures SaveAsWritten(sheets, d, rows).Saved? ==>
              SaveAsWritten(sheets, d, rows).sheets == WithoutSheet(sheets, d) + [Sheet(d, rows)]
  {
    var book := WithoutSheet(sheets, d);
    if sheets != [] && book == [] {
      forall i | 0 <= i < |sheets| ensures sheets[i].name == d {
        assert sheets[i] in sheets;
      }
    }
    if |sheets| == 1 && sheets[0].name == d {
      assert sheets[..|sheets| - 1] == [];
      assert book == WithoutSheet([], d) + [];
    }
  }

  /**
   * The first trip saved for a driver creates the data file with that
   * driver's sheet alone; saving that driver's sheet again, for a second
   * trip or a delete, then fails as the code is written.
   */
  lemma LoneSheetSaveFails(d: Driver, first: seq<Row>, next: seq<Row>)
    ensures SaveAsWritten([], d, first) == Saved([Sheet(d, first)])
    ensures SaveAsWritten([Sheet(d, first)], d, next).Failed?
  {
    assert WithoutSheet([Sheet(d, first)], d) == WithoutSheet([], d) + [];
  }

  /** The position of a driver in the form's driver list. */
  function Rank(d: Driver): (n: nat)
    ensures n < |Drivers| && Drivers[n] == d
  {
    match d
    case Prem => 0
    case Ajith => 1
    case Wilson => 2
  }

  /** The sheet names of a workbook, in workbook order. */
  function NamesOf(book: seq<Sheet>): (names: seq<Driver>)
    ensures |names| == |book|
    ensures forall i :: 0 <= i < |book| ==> names[i] == book[i].name
  {
    seq(|book|, i requires 0 <= i < |book| => book[i].name)
  }

  /** The trip workbook held in the data file. */
  class Workbook {
    var sheets: seq<Sheet>

    ghost predicate Valid()
      reads this
    {
      WellFormed(sheets)
    }

    /** The rows on driver d's sheet. */
    function RowsOf(d: Driver): seq<Row>
      reads this
    {
      SheetRows(sheets, d)
    }

    /** The data file before anything was saved: no sheets. */
    constructor ()
      ensures Valid() && sheets == []
    {
      sheets := [];
    }

    /**
     * Reads every sheet in workbook order and concatenates their rows into
     * one table. Selecting a driver from that table gives the driver's sheet.
     */
    method LoadData() returns (all: seq<Row>)
      ensures all == Concat(sheets)
      ensures Valid() ==> forall d :: ByDriver(all, d) == RowsOf(d)
    {
      all := [];
      for i := 0 to |sheets|
        invariant all == Concat(sheets[..i])
      {
        assert sheets[..i + 1][..i] == sheets[..i];
        all := all + sheets[i].rows;
      }
      assert sheets[..|sheets|] == sheets;
      if Valid() {
        forall d {
          LoadedByDriver(sheets, d);
        }
      }
    }

    /**
     * Replaces driver d's sheet wholesale: any existing sheet named d is
     * deleted and a new one holding rows is written at the end.
     */
    method SaveToDriverSheet(d: Driver, rows: seq<Row>)
      requires Valid() && SheetOk(Sheet(d, rows))
      modifies this
      ensures sheets == WithoutSheet(old(sheets), d) + [Sheet(d, rows)]
      ensures Valid()
      ensures RowsOf(d) == rows
      ensures forall e :: e != d ==> RowsOf(e) == old(RowsOf(e))
    {
      WithoutSheetWellFormed(sheets, d);
      forall e | e != d ensures SheetRows(WithoutSheet(sheets, d), e) == SheetRows(sheets, e) {
        WithoutSheetRows(sheets, d, e);
      }
      sheets := WithoutSheet(sheets, d) + [Sheet(d, rows)];
      assert sheets[..|sheets| - 1] == WithoutSheet(old(sheets), d);
    }

    /**
     * Records one form submission: takes the submitting driver's rows from
     * the loaded table, appends a row numbered one past their count and
     * saves the driver's sheet.
     */
    method AddTrip(s: Submission)
      requires Valid()
      requires IsTimeOption(s.outTime) && IsTimeOption(s.inTime)
      modifies this
      ensures Valid()
      ensures RowsOf(s.driver) == old(RowsOf(s.driver)) + [Row(|old(RowsOf(s.driver))| + 1, TripOf(s))]
      ensures forall e :: e != s.driver ==> RowsOf(e) == old(RowsOf(e))
      ensures Numbered(RowsOf(s.driver))
      ensures sheets == WithoutSheet(old(sheets), s.driver) + [Sheet(s.driver, RowsOf(s.driver))]
    {
      SheetRowsOk(sheets, s.driver);
      var df := LoadData();
      var driverDf := ByDriver(df, s.driver);
      var newRow := Row(|driverDf| + 1, TripOf(s));
      driverDf := driverDf + [newRow];
      SaveToDriverSheet(s.driver, driverDf);
    }

    /**
     * Deletes the rows of driver d whose serial number is k, renumbers the
     * rest 1..N and saves the driver's sheet. When d has no rows nothing is
     * offered for deletion and the workbook is left alone.
     */
    method DeleteTrip(d: Driver, k: int)
      requires Valid() && k >= 1
      modifies this
      ensures Valid()
      ensures old(RowsOf(d)) == [] ==> sheets == old(sheets)
      ensures old(RowsOf(d)) != [] ==> RowsOf(d) == Renumber(DropSNo(old(RowsOf(d)), k))
      ensures 1 <= k <= |old(RowsOf(d))| ==>
                |RowsOf(d)| == |old(RowsOf(d))| - 1 &&
                TripsOf(RowsOf(d)) == TripsOf(old(RowsOf(d))[..k - 1]) + TripsOf(old(RowsOf(d))[k..])
      ensures k > |old(RowsOf(d))| ==> TripsOf(RowsOf(d)) == TripsOf(old(RowsOf(d)))
      ensures Numbered(RowsOf(d))
      ensures forall e :: e != d ==> RowsOf(e) == old(RowsOf(e))
      ensures old(RowsOf(d)) != [] ==> sheets == WithoutSheet(old(sheets), d) + [Sheet(d, RowsOf(d))]
    {
      SheetRowsOk(sheets, d);
      DeleteAndRenumber(RowsOf(d), k);
      var df := LoadData();
      var filteredDf := ByDriver(df, d);
      if filteredDf != [] {
        var kept := DropSNo(filteredDf, k);
        DropSNoMembers(filteredDf, k);
        filteredDf := Renumber(kept);
        forall x | x in filteredDf
          ensures x.trip.driver == d && IsTimeOption(x.trip.outTime) && IsTimeOption(x.trip.inTime)
        {
          var i :| 0 <= i < |filteredDf| && filteredDf[i] == x;
          assert TripsOf(filteredDf)[i] == TripsOf(kept)[i];
          assert kept[i] in kept;
        }
        SaveToDriverSheet(d, filteredDf);
      }
    }

    /**
     * Builds the download from the loaded table: one sheet per driver with
     * rows, in the form's driver order; in a valid workbook each sheet is
     * exactly the driver's stored sheet. An empty table gives no sheets,
     * and then no file is written.
     */
    method Export() returns (book: seq<Sheet>)
      ensures forall i :: 0 <= i < |book| ==>
                book[i].rows != [] && book[i].rows == ByDriver(Concat(sheets), book[i].name)
      ensures forall d :: d in NamesOf(book) <==> ByDriver(Concat(sheets), d) != []
      ensures forall i, j :: 0 <= i < j < |book| ==> Rank(book[i].name) < Rank(book[j].name)
      ensures Valid() ==> forall i :: 0 <= i < |book| ==> book[i].rows == RowsOf(book[i].name)
      ensures book == [] <==> Concat(sheets) == []
    {
      var df := LoadData();
      book := ExportSheets(df);
      ExportEmptyIff(df, book);
    }

    /**
     * The export as the code does it: the writer is opened and closed even
     * when no driver has a row, and closing a workbook without a sheet
     * fails. It fails exactly when the loaded table is empty, which in a
     * valid workbook means that no driver has a row.
     */
    method ExportAsWritten() returns (r: ExportOutcome)
      ensures r.Refused? <==> Concat(sheets) == []
      ensures Valid() ==> (r.Refused? <==> forall d :: RowsOf(d) == [])
      ensures r.Written? ==> forall i :: 0 <= i < |r.book| ==>
                r.book[i].rows != [] && r.book[i].rows == ByDriver(Concat(sheets), r.book[i].name)
      ensures r.Written? ==> forall d :: d in NamesOf(r.book) <==> ByDriver(Concat(sheets), d) != []
      ensures r.Written? ==> forall i, j :: 0 <= i < j < |r.book| ==> Rank(r.book[i].name) < Rank(r.book[j].name)
    {
      var df := LoadData();
      var book := ExportSheets(df);
      ExportEmptyIff(df, book);
      if book == [] {
        r := Refused(NoVisibleSheet);
      } else {
        r := Written(book);
      }
      if Valid() {
        NoDriverRowsIffEmpty(df);
        assert forall d :: ByDriver(df, d) == RowsOf(d);
        assert (forall d :: RowsOf(d) == []) <==> (forall d :: ByDriver(df, d) == []);
      }
    }
  }

  /** The file the export writes, or the failure that stopped it. */
  datatype ExportOutcome = Written(book: seq<Sheet>) | Refused(error: SaveError)

  /** A table has no row of any driver exactly when it is empty. */
  lemma NoDriverRowsIffEmpty(df: seq<Row>)
    ensures (forall d :: ByDriver(df, d) == []) <==> df == []
  {
    if df != [] {
      assert df[0] in ByDriver(df, df[0].trip.driver);
    }
  }

  /** The exported book is empty exactly when the table it is built from is. */
  lemma ExportEmptyIff(df: seq<Row>, book: seq<Sheet>)
    requires forall d :: d in NamesOf(book) <==> ByDriver(df, d) != []
    ensures book == [] <==> df == []
  {
    NoDriverRowsIffEmpty(df);
    if book != [] {
      assert book[0].name in NamesOf(book);
    }
  }

  /**
   * Writes one sheet per driver, in the form's driver order, holding
   * exactly the rows of the table that belong to that driver; a driver
   * without rows gets no sheet.
   */
  method ExportSheets(df: seq<Row>) returns (book: seq<Sheet>)
    ensures forall i :: 0 <= i < |book| ==> book[i].rows != [] && book[i].rows == ByDriver(df, book[i].name)
    ensures forall d :: d in NamesOf(book) <==> ByDriver(df, d) != []
    ensures forall i, j :: 0 <= i < j < |book| ==> Rank(book[i].name) < Rank(book[j].name)
  {
    book := [];
    for n := 0 to |Drivers|
      invariant forall i :: 0 <= i < |book| ==>
                  book[i].rows != [] && book[i].rows == ByDriver(df, book[i].name) && Rank(book[i].name) < n
      invariant forall i, j :: 0 <= i < j < |book| ==> Rank(book[i].name) < Rank(book[j].name)
      invariant forall d :: Rank(d) < n && ByDriver(df, d) != [] ==> d in NamesOf(book)
    {
      var drv := Drivers[n];
      var tempDf := ByDriver(df, drv);
      assert Rank(drv) == n;
      if tempDf != [] {
        ghost var before := book;
        book := book + [Sheet(drv, tempDf)];
        assert NamesOf(book) == NamesOf(before) + [drv];
      }
    }
  }

  /**
   * A fresh workbook, one trip for Ajith whose in-reading is below the
   * out-reading, then a delete of a serial number Ajith does not have.
   */
  method AjithScenario(when: Date)
  {
    var wb := new Workbook();
    var s := Submission(Ajith, when, "INV-1", "", "", when, "", "08:00", "09:15", 120, 95);
    assert TimeOption(32) == "08:00" && TimeOption(37) == "09:15";
    wb.AddTrip(s);
    assert wb.RowsOf(Ajith) == [Row(1, TripOf(s))];
    assert wb.RowsOf(Ajith)[0].trip.diffKm == 0;
    assert wb.RowsOf(Prem) == [];
    wb.DeleteTrip(Ajith, 2);
    DropAbsent([Row(1, TripOf(s))], 2);
    assert TripsOf(wb.RowsOf(Ajith)) == [TripOf(s)];
    wb.DeleteTrip(Ajith, 1);
    assert wb.RowsOf(Ajith) == [];
  }

  /**
   * The first trip recorded on a fresh workbook creates the data file with
   * the submitting driver's sheet alone, as the code as written does too.
   */
  method FirstTrip(s: Submission) returns (wb: Workbook)
    requires IsTimeOption(s.outTime) && IsTimeOption(s.inTime)
    ensures fresh(wb) && wb.Valid()
    ensures wb.sheets == [Sheet(s.driver, [Row(1, TripOf(s))])]
    ensures wb.RowsOf(s.driver) == [Row(1, TripOf(s))]
    ensures forall e :: e != s.driver ==> wb.RowsOf(e) == []
    ensures SaveAsWritten([], s.driver, [Row(1, TripOf(s))]) == Saved(wb.sheets)
  {
    wb := new Workbook();
    assert WithoutSheet([], s.driver) == [];
    wb.AddTrip(s);
    assert wb.RowsOf(s.driver) == [Row(1, TripOf(s))];
  }

  /**
   * On a fresh workbook Prem records a trip and then Ajith does. Both saves
   * succeed even as coded: the first creates the file, and the second finds
   * Prem's sheet beside Ajith's.
   */
  method RecordPremThenAjith(p: Submission, a: Submission) returns (wb: Workbook)
    requires p.driver == Prem && a.driver == Ajith
    requires IsTimeOption(p.outTime) && IsTimeOption(p.inTime)
    requires IsTimeOption(a.outTime) && IsTimeOption(a.inTime)
    ensures fresh(wb) && wb.Valid()
    ensures wb.RowsOf(Prem) == [Row(1, TripOf(p))] && wb.RowsOf(Ajith) == [Row(1, TripOf(a))]
    ensures wb.RowsOf(Wilson) == []
    ensures wb.sheets != [] && wb.sheets[|wb.sheets| - 1].name == Ajith
    ensures SaveAsWritten([Sheet(Prem, [Row(1, TripOf(p))])], Ajith, [Row(1, TripOf(a))]) == Saved(wb.sheets)
  {
    wb := FirstTrip(p);
    ghost var s1 := wb.sheets;
    assert s1[0] in WithoutSheet(s1, Ajith);
    wb.AddTrip(a);
    assert SaveAsWritten(s1, Ajith, wb.RowsOf(Ajith)) == Saved(wb.sheets) by {
      SaveAsWrittenFailsIff(s1, Ajith, wb.RowsOf(Ajith));
    }
  }

  /**
   * Driver d deletes serial number 1, its only trip, while the last sheet
   * of the file is another driver's. The save succeeds even as coded, and
   * afterwards d has no rows and its sheet is the last one.
   */
  method DeleteOnlyTrip(wb: Workbook, d: Driver)
    requires wb.Valid() && |wb.RowsOf(d)| == 1
    requires wb.sheets != [] && wb.sheets[|wb.sheets| - 1].name != d
    modifies wb
    ensures wb.Valid() && wb.RowsOf(d) == []
    ensures forall e :: e != d ==> wb.RowsOf(e) == old(wb.RowsOf(e))
    ensures wb.sheets != [] && wb.sheets[|wb.sheets| - 1].name == d
    ensures SaveAsWritten(old(wb.sheets), d, []) == Saved(wb.sheets)
  {
    ghost var before := wb.sheets;
    assert before[|before| - 1] in WithoutSheet(before, d);
    wb.DeleteTrip(d, 1);
    SaveAsWrittenFailsIff(before, d, []);
  }

  /**
   * Prem deletes trip 1 and then Ajith does, each the only trip of its
   * driver. Both saves succeed even as coded, because the other driver's
   * sheet is always present; afterwards no driver has a row.
   */
  method DeletePremThenAjith(wb: Workbook)
    requires wb.Valid() && |wb.RowsOf(Prem)| == 1 && |wb.RowsOf(Ajith)| == 1 && wb.RowsOf(Wilson) == []
    requires wb.sheets != [] && wb.sheets[|wb.sheets| - 1].name == Ajith
    modifies wb
    ensures wb.Valid() && wb.RowsOf(Prem) == [] && wb.RowsOf(Ajith) == [] && wb.RowsOf(Wilson) == []
    ensures SaveAsWritten(old(wb.sheets), Prem, []).Saved?
    ensures SaveAsWritten(SaveAsWritten(old(wb.sheets), Prem, []).sheets, Ajith, []) == Saved(wb.sheets)
  {
    DeleteOnlyTrip(wb, Prem);
    DeleteOnlyTrip(wb, Ajith);
  }

  /**
   * Prem and Ajith each record a trip and then each delete it. Every save
   * on the way succeeds even as coded, yet the export that follows finds an
   * empty table and fails.
   */
  method EmptiedLedgerExportFails(p: Submission, a: Submission) returns (r: ExportOutcome)
    requires p.driver == Prem && a.driver == Ajith
    requires IsTimeOption(p.outTime) && IsTimeOption(p.inTime)
    requires IsTimeOption(a.outTime) && IsTimeOption(a.inTime)
    ensures r.Refused?
  {
    var wb := RecordPremThenAjith(p, a);
    DeletePremThenAjith(wb);
    forall d ensures wb.RowsOf(d) == [] {
      assert d == Prem || d == Ajith || d == Wilson;
    }
    r := wb.ExportAsWritten();
  }
}
