# Water bill record store, modelled in Dafny

The water bill app keeps one JSON file per customer in the directory
`data/bills`. The file is named after the customer's phone number. Each file
holds the customer's name, address ("bill to") and list of bills. A bill has
a month name, a year, units consumed, amount paid and a save timestamp. The
app has three operations on this store:

- `load_bill` reads the record of one phone, or gives `None` when the phone has no file.
- `save_bill` creates the record, or overwrites the name and address and merges the bill into it.
  Merging replaces the first bill of the same month and year, or appends the bill when there is none.
- `list_all_bills_for_month` reads every `.json` file of the directory.
  It emits one row per bill of the queried month and year.
  The phone column is recovered from the file name.

The model treats the directory as a map from phone to record (`Bills.Store`).
The operations are pure functions over that map:

- `text.dfy` holds suffix tests, substring search, and Python's `str.replace` (`Text.ReplaceAll`).
- `filenames.dfy` holds the phone ↔ file name mapping (`get_file_path` and `file.replace(".json", "")`).
- `bills.dfy` holds the bill and record datatypes, the store, and the shared first-match search `FindIndex`.
  Both `save_bill` and the edit form's pre-fill use that search.
- `record_store.dfy` holds load, save, the pre-fill and the properties of the merge rule.
- `month_scan.dfy` holds the month scan.
  The directory listing is a parameter in any order, related to the store by `IsListing`.
  The scan's exactness is stated through `ScanHits`: for each row, the stored phone and bill position it came from.

The model follows the code on these points:

- On a save for an existing month and year, the bill is replaced in place. It is not appended.
- Month and year are stored fields of the bill. They are not derived from the timestamp.
- A malformed file makes the scan raise an error. It is not skipped.
- A save has no failure result.

One edge case of the code is stated as a lemma rather than corrected. The phone column of the month scan is
`file.replace(".json", "")`, which removes every ".json" in the name and not just the suffix. So the scan
reports the saved phone exactly when that phone does not contain ".json" (`FileNames.PhoneOfFileNameRoundTrip`).
For example, a record saved under "1.json2" is listed as "12" (`FileNames.PhoneWithSuffixInside`).

## Model

| member | source | states |
|---|---|---|
| `Text.EndsWith` | water_bill_app.py:57 | Python's `s.endswith(suffix)`: the suffix fits in the string and equals its last characters |
| `Text.ReplaceAll` | water_bill_app.py:64 | Python's `str.replace`: a string without the pattern is returned unchanged; with an empty replacement the result is never longer, and is shorter by at least the pattern's length when the pattern occurs |
| `FileNames.FileName` | water_bill_app.py:14-15 | a phone's file name is the phone followed by ".json", so it always ends in ".json" |
| `FileNames.FilePath` | water_bill_app.py:14-15 | `get_file_path`: the path lies in the data directory "data/bills" and ends in ".json" |
| `FileNames.FilePathInjective` | water_bill_app.py:14-15 | two phones get the same file path if and only if they are the same phone, so the directory is a map keyed by phone |
| `FileNames.StoredPhoneInverse` | water_bill_app.py:14-15 | dropping the ".json" suffix recovers the phone from its file name, and every ".json" name is the file of that phone |
| `FileNames.PhoneOf` | water_bill_app.py:64 | `file.replace(".json", "")`: a name without ".json" is returned unchanged, and one containing it loses at least five characters; `PhoneOfFileNameRoundTrip` says when it gives back the saved phone |
| `FileNames.PhoneOfFileName` | water_bill_app.py:64 | replacing ".json" in a phone's file name acts as on the phone alone: no occurrence straddles the phone and the suffix |
| `FileNames.PhoneOfFileNameRoundTrip` | water_bill_app.py:64 | the phone the scan recovers from a file name equals the saved phone if and only if that phone does not contain ".json" |
| `FileNames.PhoneWithSuffixInside` | water_bill_app.py:64 | a record saved under "1.json2" lives in "1.json2.json" and is listed under phone "12" |
| `Bills.FindIndex` | water_bill_app.py:36-40 | the result is the position of a bill of the month and year with no such bill before it, and None exactly when no bill of the list has that month and year |
| `Bills.FindIndexFindsFirst` | water_bill_app.py:36-40 | the first bill of a month and year is the one the search finds |
| `RecordStore.LoadBill` | water_bill_app.py:18-23 | a record is returned exactly when the phone has one, and it is the stored record |
| `RecordStore.MergeBill` | water_bill_app.py:34-42 | the new bill ends up in the list; with a bill of its month and year the length is unchanged, the first such bill is replaced and every other position is kept; without one the earlier bills are kept and the new bill is last |
| `RecordStore.SaveBill` | water_bill_app.py:26-51 | the store afterwards has the old phones plus the saved one, every other phone's record is unchanged, the saved record carries the new name and address and contains the new bill, and a new phone's record holds just that bill |
| `RecordStore.ApplySaves` | water_bill_app.py:26-51 | after a sequence of saves the stored phones are the earlier ones plus every phone saved |
| `RecordStore.Prefill` | water_bill_app.py:97-104 | the edit form shows the units and amount of the first stored bill of the chosen month and year, and zero for both when the phone or such a bill is missing |
| `RecordStore.LoadUnsavedIsAbsent` | water_bill_app.py:18-23 | loading a phone that no save named, starting from an empty directory, gives None |
| `RecordStore.LoadAfterSave` | water_bill_app.py:26-51 | after a save, loading its phone gives the new name, address and a bill list containing the new bill, and loading any other phone gives what it gave before |
| `RecordStore.SaveReplacesFirstMatch` | water_bill_app.py:34-40 | when position i holds the first bill of the new bill's month and year, the save puts the new bill at i, keeps the length and keeps every other position |
| `RecordStore.SaveAppendsWhenNoMatch` | water_bill_app.py:41-42 | when no bill has the new bill's month and year, the save leaves the earlier bills as they were and adds the new bill at the end |
| `RecordStore.SavePreservesUniquePeriods` | water_bill_app.py:34-48 | if the record had at most one bill per month and year before the save, it still has afterwards |
| `RecordStore.SavePreservesWellFormed` | water_bill_app.py:26-51 | a save keeps every record of the store free of two bills for one month and year |
| `RecordStore.ApplySavesWellFormed` | water_bill_app.py:26-51 | every store built by saves from a well-formed one, in particular from an empty directory, has at most one bill per customer, month and year |
| `RecordStore.SavedBillIsFirstOfPeriod` | water_bill_app.py:34-48 | after a save, the first bill of the saved bill's month and year is the saved bill |
| `RecordStore.SaveIdempotent` | water_bill_app.py:26-51 | saving the same phone, name, address and bill twice gives the same store as saving once |
| `RecordStore.SaveLeavesOnlyNewBillInPeriod` | water_bill_app.py:34-42 | in a record with at most one bill per month and year, after a save every bill of that month and year is the saved bill |
| `RecordStore.SaveTwiceSamePeriod` | water_bill_app.py:30-42 | two saves for one month and year leave exactly one bill of that month and year, the later one, together with the later name and address |
| `RecordStore.PrefillAfterSave` | water_bill_app.py:97-104 | right after a save, the edit form for that phone, month and year shows the saved units and amount |
| `MonthScan.RowOf` | water_bill_app.py:63-70 | the row dict: the phone as listed, the record's name and address, and the bill's units, amount and timestamp; `RecordRowsFollowHits` and `ListAllBillsForMonthExact` say which bill each row comes from |
| `MonthScan.RecordRows` | water_bill_app.py:61-70 | the loop over one record's bills: at most one row per bill, each carrying the listed phone and the record's name and address; `RecordRowsFollowHits` says exactly which bills give rows |
| `MonthScan.ListAllBillsForMonth` | water_bill_app.py:54-71 | `list_all_bills_for_month`: every row's phone is recovered from a listed ".json" file; `ScanRowsFollowHits` and `ListAllBillsForMonthExact` say it emits exactly one row per stored bill of the month and year |
| `MonthScan.FileRows` | water_bill_app.py:57 | a directory entry whose name does not end in ".json" contributes no rows |
| `MonthScan.RecordHits` | water_bill_app.py:61-62 | the bills a record contributes are exactly those of the queried month and year, each once, in list order |
| `MonthScan.RecordRowsFollowHits` | water_bill_app.py:61-70 | a record contributes one row per matching bill, carrying the record's name and address and that bill's units, amount and timestamp |
| `MonthScan.ScanRowsFollowHits` | water_bill_app.py:56-70 | row j of the scan is the row of the bill at origin j, listed under the phone recovered from its file name |
| `MonthScan.ScanHitsExact` | water_bill_app.py:56-62 | the origins of the scan are exactly the matching bills of the records whose files are listed, with no repeats |
| `MonthScan.ListAllBillsForMonthExact` | water_bill_app.py:54-71 | over a directory listing of the store, the scan emits exactly one row per stored bill of the queried month and year and no other row, each carrying its record's current name and address and the bill's units, amount and timestamp |
| `MonthScan.StoredBillListed` | water_bill_app.py:56-70 | every stored bill of the queried month and year appears in the scan as a row with its record's name and address and the bill's units, amount and timestamp |
| `MonthScan.SaveThenListShowsBill` | water_bill_app.py:26-71 | after a save, the month search for the saved bill's month and year lists it with the saved name and address, under the saved phone whenever that phone does not contain ".json" |

## Left out

- The Streamlit user interface is not modelled: page layout, widgets, messages, the required-field check and the timestamp-descending history sort. Only the pre-fill lookup is modelled.
- File-system I/O is not modelled: existence tests, opening, reading and writing files, JSON encoding and creating the directory. The directory is a map from phone to record.
- The order of `os.listdir` is not modelled. The listing is an arbitrary duplicate-free sequence, so the scan's row order is stated relative to it.
- `os.path.join` is modelled as plain concatenation with "/". A phone containing "/" or starting with "/" would name another directory or an absolute path. That is not modelled.
- Files that are malformed or unreadable make the source raise an exception. This is not modelled: every `.json` file in the listing holds a stored record.
- A `.json` file whose JSON object is empty would count as absent in `if data:`. This is not modelled: every stored record has its three fields.
- `units` and `amount` are floating-point numbers in the source. They are modelled as `real` values that are only copied, never computed on.
- The save timestamp comes from `datetime.now()`. It is a field of the bill passed in by the caller.
