# Trip ledger model

A Dafny model of the trip-logging form in `trip_form.py`. A driver picks one
of three names, fills in a trip (dates, invoice, customer, destination,
vehicle, out and in times from a quarter-hour dropdown, out and in odometer
readings), and the form stores the trip as a row on that driver's sheet of a
workbook, numbered by a serial number ("S.No."). Rows can be deleted by
serial number, after which the driver's rows are renumbered, and the whole
workbook can be exported with one sheet per driver.

The model has three modules:

- `TimeOptions` (`time_options.dfy`): the dropdown list of times. A time is
  a number of minutes since midnight; `Format` renders it as zero-padded
  `HH:MM`, and `GenerateTimeOptions` is the quarter-hour stepping loop.
- `Trips` (`trips.dfy`): the row record (`Row` = serial number + `Trip`), the
  clamped distance delta `DiffKm`, and the pure row operations: selecting a
  driver's rows (`ByDriver`), dropping a serial number (`DropSNo`) and
  renumbering (`Renumber`), with lemmas on what deletion does to numbered rows.
- `Ledger` (`ledger.dfy`): the workbook as an ordered list of sheets and the
  class `Workbook` whose methods load, save a sheet, add a trip, delete a
  trip and export. Sheet order matters because loading concatenates the sheets
  in workbook order, and saving deletes a driver's sheet and writes it again
  at the end. `SaveAsWritten` and `Workbook.ExportAsWritten` model the save
  and the export as coded, including the failures listed under Findings, and
  a few client methods replay form sessions that reach them.

The invariant `Workbook.Valid()` says sheet names are distinct and every sheet
is as the form writes it: only its own driver's rows, serial numbers 1..N, and
both times taken from the dropdown (`IsTimeOption`). Under it, selecting a driver from the loaded
table returns exactly that driver's sheet (`LoadedByDriver`). This is what
makes the add and delete paths correct, since both filter the concatenated
table rather than read the driver's sheet directly.

Behaviour of the code that the model keeps as it is:

- A new row's serial number is the driver's row count plus one
  (trip_form.py:80), not the largest existing serial number plus one.
- Deleting a serial number that no row has is not an error
  (trip_form.py:109-111). The rows stay as they are and are only renumbered.
- Times come only from the closed dropdown (trip_form.py:67-68); `AddTrip`
  requires both times to be dropdown entries. The code parses no time text.
- The export writes the loaded rows as they are (trip_form.py:119-121).
  Times are the stored `HH:MM` text.

## Model

| member | source | states |
|---|---|---|
| `TimeOptions.Format` | trip_form.py:45 | the text is `DD:DD`; its first two digits read back as the hour, its last two as the minute, and together they give the time it renders |
| `TimeOptions.FormatInjective` | trip_form.py:45 | two times have the same rendering exactly when they are equal |
| `TimeOptions.GenerateTimeOptions` | trip_form.py:39-47 | the loop yields exactly 96 entries, and entry i is the rendering of 15·i minutes |
| `TimeOptions.TimeOptionShape` | trip_form.py:44-46 | every option is `HH:MM` text with hour 0..23 and minute in {0, 15, 30, 45}, and shows 15·i minutes |
| `TimeOptions.ConsecutiveOptions` | trip_form.py:44-46 | consecutive options are exactly 15 minutes apart, so the list strictly increases |
| `TimeOptions.OptionsDistinct` | trip_form.py:39-47 | no time appears twice in the list |
| `TimeOptions.FirstAndLastOption` | trip_form.py:42-43 | the first option is "00:00" and the last is "23:45" |
| `Trips.DiffKm` | trip_form.py:72 | the delta is never negative and never exceeds the in-reading; it is in − out when in ≥ out, and 0 otherwise |
| `Trips.TripOf` | trip_form.py:79-93 | the recorded trip carries every submitted field unchanged (driver, both dates, invoice, customer, destination, vehicle, both times, both readings) and its delta is `DiffKm` of the two readings |
| `Trips.ByDriver` | trip_form.py:78 | the result is no longer than its input and holds exactly the input rows whose driver is d |
| `Trips.DropSNo` | trip_form.py:109 | the result is never longer than its input |
| `Trips.DropSNoMembers` | trip_form.py:109 | the rows kept are exactly the input rows whose serial number is not k |
| `Trips.Renumber` | trip_form.py:110-111 | the result holds the same trips in the same order, numbered 1..N |
| `Trips.ByDriverAppend` | trip_form.py:78 | selecting a driver from two tables joined together selects from each table in turn |
| `Trips.ByDriverOwn` | trip_form.py:78 | selecting d from rows that all belong to d keeps every row, in order |
| `Trips.DropNumbered` | trip_form.py:109 | in consecutively numbered rows, dropping a serial number that occurs removes exactly the row in that position and keeps the rest in order |
| `Trips.DropAbsent` | trip_form.py:109 | dropping a serial number that no row carries removes nothing |
| `Trips.DeleteAndRenumber` | trip_form.py:109-111 | deleting k from rows numbered 1..N and renumbering gives rows numbered 1..N′; for k in 1..N the k-th trip is removed, the others keep their order and N′ = N − 1; otherwise the trips are unchanged |
| `Trips.AppendNumbered` | trip_form.py:80 | appending row N+1 to rows numbered 1..N gives rows numbered 1..N+1 |
| `Ledger.Concat` | trip_form.py:22-24 | a row is in the loaded table exactly when it is on some sheet |
| `Ledger.WithoutSheet` | trip_form.py:32-33 | deleting the sheet named d keeps exactly the sheets with other names |
| `Ledger.SheetRowsAbsent` | trip_form.py:32-33 | a driver without a sheet has no rows |
| `Ledger.LoadedByDriver` | trip_form.py:18-27 | in a workbook with distinct sheet names where each sheet holds only its own driver's rows, selecting d from the loaded table gives exactly d's sheet |
| `Ledger.WithoutSheetRows` | trip_form.py:32-33 | deleting d's sheet leaves every other driver's rows unchanged |
| `Ledger.WithoutSheetWellFormed` | trip_form.py:32-33 | deleting a sheet keeps names distinct and every sheet as the form writes it, and no sheet named d remains |
| `Ledger.SheetRowsOk` | trip_form.py:78-95 | in a valid workbook every driver's rows belong to that driver, are numbered 1..N and hold dropdown times |
| `Ledger.SaveAsWritten` | trip_form.py:29-37 | the save as coded: it fails only when every sheet of an existing file is d's own; a successful save leaves d with exactly the given rows and keeps every sheet of another driver |
| `Ledger.SaveAsWrittenFailsIff` | trip_form.py:30-37 | the save as coded fails exactly when the workbook holds one sheet and it is the driver's own; otherwise it gives the intended replacement |
| `Ledger.LoneSheetSaveFails` | trip_form.py:30-37 | the first save for a driver creates the file with that sheet alone, and saving that driver's sheet again then fails as coded |
| `Ledger.Workbook.LoadData` | trip_form.py:18-27 | the loop returns all sheets' rows concatenated in workbook order; in a valid workbook, selecting any driver from that table gives that driver's sheet |
| `Ledger.Workbook.SaveToDriverSheet` | trip_form.py:29-37 | the intended save: the sheet named d is removed and a new sheet with the given rows goes at the end; d's rows are now exactly those rows; every other driver's rows are unchanged; validity is kept |
| `Ledger.Workbook.AddTrip` | trip_form.py:76-98 | given two dropdown times, d's rows gain exactly one row, placed last, holding the submitted trip and numbered one more than d's previous count; d's rows stay numbered 1..N+1; other drivers are unchanged; d's sheet is deleted and written again as the last sheet |
| `Ledger.Workbook.DeleteTrip` | trip_form.py:104-114 | with no rows for d nothing changes; otherwise d's rows become the survivors of dropping k, renumbered; for k in 1..N the k-th trip is gone, the others keep their order and N−1 remain; for k > N the trips are unchanged; d's rows are numbered 1..N′; other drivers are unchanged; when d had rows, d's sheet is deleted and written again as the last sheet |
| `Ledger.Workbook.Export` | trip_form.py:116-121 | one sheet per driver that has rows, in the form's driver order, holding exactly that driver's loaded rows; no sheet for a driver without rows; in a valid workbook each sheet equals the driver's stored sheet; the book is empty exactly when the loaded table is, and then no file is written |
| `Ledger.Workbook.ExportAsWritten` | trip_form.py:114-121 | the export as coded fails exactly when the loaded table is empty, which in a valid workbook means no driver has a row; otherwise it writes one non-empty sheet for each driver with loaded rows and for no other driver, in the form's driver order, each holding exactly that driver's loaded rows |
| `Ledger.NoDriverRowsIffEmpty` | trip_form.py:118-121 | a table has no row for any driver exactly when it is empty |
| `Ledger.ExportEmptyIff` | trip_form.py:118-121 | the book written from a table is empty exactly when the table is |
| `Ledger.ExportSheets` | trip_form.py:118-121 | the loop writes one sheet per driver whose rows in the table are not empty, in the form's driver order, each holding exactly that driver's rows |
| `Ledger.FirstTrip` | trip_form.py:29-37 | the first trip on a fresh workbook creates the file with the submitting driver's sheet alone, holding that trip as row 1, and the save as coded gives the same file |
| `Ledger.RecordPremThenAjith` | trip_form.py:76-98 | after Prem and then Ajith record one trip each, each has exactly that trip as row 1, Wilson has none, Ajith's sheet is last, and Ajith's save as coded gives the same file (Prem's save as coded is stated by `FirstTrip`) |
| `Ledger.DeleteOnlyTrip` | trip_form.py:104-114 | deleting a driver's only trip while another driver's sheet is last leaves the driver with no rows and its sheet last, leaves the others unchanged, and the save as coded succeeds with the same result |
| `Ledger.DeletePremThenAjith` | trip_form.py:104-114 | with one trip each for Prem and Ajith and Ajith's sheet last, deleting Prem's trip and then Ajith's leaves no driver with a row, and both saves as coded succeed and give the same file |
| `Ledger.EmptiedLedgerExportFails` | trip_form.py:114-121 | Prem and Ajith each record a trip and delete it again; the export as coded that follows is refused (that every save on the way succeeds as coded is stated by `FirstTrip`, `RecordPremThenAjith`, `DeleteOnlyTrip` and `DeletePremThenAjith`) |

## Left out

- The Streamlit page is not modelled: page setup, the form and its widgets, the columns, the buttons, the success and info messages, and the on-screen table. Values the widgets produce are parameters instead: a `Submission`, a driver, and a serial number of at least 1.
- Excel file I/O through pandas and openpyxl is not modelled. This covers `ExcelFile`, `read_excel`, `load_workbook`, `ExcelWriter`, `to_excel`, and the `os` calls. The workbook is an in-memory list of sheets, and a missing data file behaves as a workbook with no sheets. Type conversions made when reading the spreadsheet back are not modelled either.
- The in-memory download buffer and the download button are not modelled. `Export` returns the sheets it would write, and an empty result stands for no file being written.
- Dates and free-text fields (customer, invoice, destination, vehicle) are carried through as opaque values. `datetime` arithmetic is replaced by integer minutes.
- The page re-runs on every interaction, so the table shown to the user can be older than the table a delete acts on. That is runtime behaviour and is not modelled. `DeleteTrip` reloads the table itself.
- Ledger.Workbook.SaveToDriverSheet: its callers pass only rows that belong to the named driver, are numbered 1..N and hold dropdown times, and it requires this. The function in the source does not check it.
- Ledger.Workbook.SaveToDriverSheet: models the save as intended, which always succeeds. The save as coded fails when the driver's sheet is the only one in the file (see Findings). The model does not capture what that failed write leaves in the data file.
- Ledger.Workbook.Export: the source builds the export only when the driver currently viewed has rows. The model builds it on its own, from the loaded table.
- Ledger.Workbook.Export: models the export as intended, in which an empty loaded table writes no file. The export as coded fails on an empty table, for example after the last remaining trip is deleted (see Findings). The model of that failure is `ExportAsWritten`.
- Workbook files edited outside the form are not modelled. These could have sheets not named after a driver, or rows on the wrong sheet. The model starts from an empty workbook and keeps `Valid()`.

## Findings

| source | as written | input that shows it | evidently intended | confidence | as-written member | corrected member |
|---|---|---|---|---|---|---|
| trip_form.py:30-37 | when the data file exists, the driver's sheet is deleted and the workbook is written back (line 34) before the new sheet is appended (lines 36-37); the spreadsheet library will not write a workbook that has no visible sheet | a data file whose only sheet is Prem's, e.g. after the very first trip. A second trip for Prem, or a delete for Prem, deletes that sheet and the write-back fails; `Ledger.LoneSheetSaveFails` proves this | replace Prem's sheet with the new rows and keep the other sheets | medium, not executed; it rests on the library refusing to save a workbook without a visible sheet | `Ledger.SaveAsWritten` | `Ledger.Workbook.SaveToDriverSheet` |
| trip_form.py:114-121 | after a delete the table is reloaded (line 114) and the export writer is opened (line 117) even when the reload is empty; no sheet is then written (lines 118-121), and closing the writer saves a workbook with no visible sheet | Prem records a trip, Ajith records a trip, Prem deletes S.No. 1, Ajith deletes S.No. 1; every save succeeds, because another sheet is always present, and the export after the last delete fails; `Ledger.EmptiedLedgerExportFails` proves the refusal, and `Ledger.FirstTrip`, `Ledger.RecordPremThenAjith` and `Ledger.DeleteOnlyTrip` state that each save succeeds as coded | offer the download only when there is a row to export; an empty table writes no file | medium, not executed; it rests on the same library refusal | `Ledger.Workbook.ExportAsWritten` | `Ledger.Workbook.Export` |
