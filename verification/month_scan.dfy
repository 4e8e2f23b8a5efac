/**
  `list_all_bills_for_month`: a scan of every `.json` file of the data
  directory that emits one row per bill of the queried month and year. The
  directory listing is a parameter, in whatever order the file system gives.
 */
module MonthScan {
  import opened Text
  import opened FileNames
  import opened Bills
  import opened RecordStore

  /** One row of the month search's result table. */
  datatype Row = Row(phone: string, name: string, billTo: string, units: real, amount: real, timestamp: string)

  /** The row reported for bill `b` of record `rec` found in the file listed as `phone`. */
  function RowOf(phone: string, rec: CustomerRecord, b: Bill): Row {
    Row(phone, rec.customerName, rec.billTo, b.units, b.amount, b.timestamp)
  }

  /** Where a row comes from: the stored phone key and the bill's position in that phone's record. */
  datatype Hit = Hit(phone: string, index: nat)

  /** No element appears twice. */
  predicate Distinct<T(==)>(s: seq<T>) {
    forall i, j :: 0 <= i < j < |s| ==> s[i] != s[j]
  }

  /** Every `.json` entry of the listing is the file of a stored phone, so reading it succeeds. */
  predicate Readable(store: Store, listing: seq<string>) {
    forall f :: f in listing && EndsWith(f, JsonSuffix) ==> StoredPhone(f) in store
  }

  /**
    `listing` is what `os.listdir` returns for the data directory of `store`:
    each entry once, the file of every stored phone, and no `.json` file that
    is not one; entries not ending in ".json" may be present.
   */
  predicate IsListing(store: Store, listing: seq<string>) {
    && Distinct(listing)
    && (forall phone :: phone in store ==> FileName(phone) in listing)
    && Readable(store, listing)
  }

  /** The rows for the bills of `rec` from position `from` on, in list order. */
  function RecordRows(phone: string, rec: CustomerRecord, month: string, year: int, from: nat): (r: seq<Row>)
    requires from <= |rec.bills|
    ensures |r| <= |rec.bills| - from
    ensures forall row :: row in r ==> row.phone == phone && row.name == rec.customerName && row.billTo == rec.billTo
    decreases |rec.bills| - from
  {
    if from == |rec.bills| then
      []
    else
      var b := rec.bills[from];
      (if InPeriod(b, month, year) then [RowOf(phone, rec, b)] else [])
      + RecordRows(phone, rec, month, year, from + 1)
  }

  /** The rows one directory entry contributes: none unless its name ends in ".json". */
  function FileRows(store: Store, file: string, month: string, year: int): (r: seq<Row>)
    requires Readable(store, [file])
    ensures !EndsWith(file, JsonSuffix) ==> r == []
  {
    if EndsWith(file, JsonSuffix) then
      RecordRows(PhoneOf(file), store[StoredPhone(file)], month, year, 0)
    else
      []
  }

  /** `list_all_bills_for_month`: the rows of every entry of the listing, in listing order. */
  function ListAllBillsForMonth(store: Store, listing: seq<string>, month: string, year: int): (r: seq<Row>)
    requires Readable(store, listing)
    ensures forall row :: row in r ==> exists f :: f in listing && EndsWith(f, JsonSuffix) && row.phone == PhoneOf(f)
  {
    if |listing| == 0 then
      []
    else
      FileRows(store, listing[0], month, year) + ListAllBillsForMonth(store, listing[1..], month, year)
  }

  /**
    The origin of each row RecordRows emits: every bill of the month and year
    from position `from` on, once each, in increasing position.
   */
  function RecordHits(phone: string, bills: seq<Bill>, month: string, year: int, from: nat): (r: seq<Hit>)
    requires from <= |bills|
    ensures forall h :: h in r ==> h.phone == phone && from <= h.index < |bills| && InPeriod(bills[h.index], month, year)
    ensures forall i :: from <= i < |bills| && InPeriod(bills[i], month, year) ==> Hit(phone, i) in r
    ensures forall a, b :: 0 <= a < b < |r| ==> r[a].index < r[b].index
    decreases |bills| - from
  {
    if from == |bills| then
      []
    else
      (if InPeriod(bills[from], month, year) then [Hit(phone, from)] else [])
      + RecordHits(phone, bills, month, year, from + 1)
  }

  /** The origin of each row one directory entry contributes. */
  function FileHits(store: Store, file: string, month: string, year: int): seq<Hit>
    requires Readable(store, [file])
  {
    if EndsWith(file, JsonSuffix) then
      var phone := StoredPhone(file);
      RecordHits(phone, store[phone].bills, month, year, 0)
    else
      []
  }

  /** The origin of each row of the month scan. */
  function ScanHits(store: Store, listing: seq<string>, month: string, year: int): seq<Hit>
    requires Readable(store, listing)
  {
    if |listing| == 0 then
      []
    else
      FileHits(store, listing[0], month, year) + ScanHits(store, listing[1..], month, year)
  }

  /** Row `j` of one record's rows is the row of the bill at origin `j`. */
  lemma {:induction false} RecordRowsFollowHits(phone: string, key: string, rec: CustomerRecord, month: string, year: int, from: nat)
    requires from <= |rec.bills|
    ensures var rows := RecordRows(phone, rec, month, year, from);
      var hits := RecordHits(key, rec.bills, month, year, from);
      |rows| == |hits| &&
      forall j :: 0 <= j < |rows| ==> rows[j] == RowOf(phone, rec, rec.bills[hits[j].index])
    decreases |rec.bills| - from
  {
    if from < |rec.bills| {
      RecordRowsFollowHits(phone, key, rec, month, year, from + 1);
    }
  }

  /** Row `j` of the scan is the row of the bill at origin `j`, labelled as the source labels it. */
  lemma {:induction false} ScanRowsFollowHits(store: Store, listing: seq<string>, month: string, year: int)
    requires Readable(store, listing)
    ensures var rows := ListAllBillsForMonth(store, listing, month, year);
      var hits := ScanHits(store, listing, month, year);
      |rows| == |hits| &&
      forall j :: 0 <= j < |rows| ==>
        hits[j].phone in store && hits[j].index < |store[hits[j].phone].bills| &&
        rows[j] == RowOf(PhoneOf(FileName(hits[j].phone)), store[hits[j].phone], store[hits[j].phone].bills[hits[j].index])
    decreases |listing|
  {
    if |listing| > 0 {
      var f := listing[0];
      assert Readable(store, listing[1..]);
      ScanRowsFollowHits(store, listing[1..], month, year);
      if EndsWith(f, JsonSuffix) {
        var key := StoredPhone(f);
        StoredPhoneInverse(key, f);
        RecordRowsFollowHits(PhoneOf(f), key, store[key], month, year, 0);
      }
    }
  }

  /** Concatenating two duplicate-free sequences with no element in common gives a duplicate-free sequence. */
  lemma DistinctConcat<T>(a: seq<T>, b: seq<T>)
    requires Distinct(a) && Distinct(b)
    requires forall x :: x in a ==> x !in b
    ensures Distinct(a + b)
  {
    forall i, j | 0 <= i < j < |a + b| ensures (a + b)[i] != (a + b)[j] {
      if j < |a| {
        assert (a + b)[i] == a[i] && (a + b)[j] == a[j];
      } else if i >= |a| {
        assert (a + b)[i] == b[i - |a|] && (a + b)[j] == b[j - |a|];
      } else {
        assert (a + b)[i] == a[i] && (a + b)[j] == b[j - |a|];
        assert a[i] in a && b[j - |a|] in b;
      }
    }
  }

  /**
    The origins of the scan are exactly the bills of the month and year in the
    records whose files are listed, each once.
   */
  lemma {:induction false} ScanHitsExact(store: Store, listing: seq<string>, month: string, year: int)
    requires Readable(store, listing) && Distinct(listing)
    ensures var hits := ScanHits(store, listing, month, year);
      && (forall h :: h in hits ==>
            h.phone in store && FileName(h.phone) in listing &&
            h.index < |store[h.phone].bills| && InPeriod(store[h.phone].bills[h.index], month, year))
      && (forall phone, i ::
            (phone in store && FileName(phone) in listing &&
             0 <= i < |store[phone].bills| && InPeriod(store[phone].bills[i], month, year)) ==> Hit(phone, i) in hits)
      && Distinct(hits)
    decreases |listing|
  {
    if |listing| > 0 {
      var f := listing[0];
      var rest := listing[1..];
      assert Readable(store, rest);
      assert Distinct(rest);
      ScanHitsExact(store, rest, month, year);
      var head := FileHits(store, f, month, year);
      var tail := ScanHits(store, rest, month, year);
      forall h | h in head ensures h.phone in store && FileName(h.phone) == f {
        StoredPhoneInverse(h.phone, f);
      }
      forall h | h in head ensures h !in tail {
      }
      forall phone, i | phone in store && FileName(phone) in listing &&
          0 <= i < |store[phone].bills| && InPeriod(store[phone].bills[i], month, year)
        ensures Hit(phone, i) in head + tail
      {
        if FileName(phone) == f {
          StoredPhoneInverse(phone, f);
          assert Hit(phone, i) in head;
        } else {
          assert FileName(phone) in rest;
        }
      }
      DistinctConcat(head, tail);
    }
  }

  /**
    The month scan of a store's directory emits exactly one row for each bill
    of the queried month and year in the store, and no other row. Row `j`
    comes from bill `hits[j]` and carries its record's current name and
    address and the bill's units, amount and timestamp.
   */
  lemma ListAllBillsForMonthExact(store: Store, listing: seq<string>, month: string, year: int)
    requires IsListing(store, listing)
    ensures var rows := ListAllBillsForMonth(store, listing, month, year);
      var hits := ScanHits(store, listing, month, year);
      && |rows| == |hits|
      && Distinct(hits)
      && (forall phone, i ::
            (phone in store && 0 <= i < |store[phone].bills| &&
             InPeriod(store[phone].bills[i], month, year)) ==> Hit(phone, i) in hits)
      && (forall j :: 0 <= j < |hits| ==>
            && hits[j].phone in store
            && hits[j].index < |store[hits[j].phone].bills|
            && InPeriod(store[hits[j].phone].bills[hits[j].index], month, year)
            && rows[j] == RowOf(PhoneOf(FileName(hits[j].phone)), store[hits[j].phone],
                                store[hits[j].phone].bills[hits[j].index]))
  {
    ScanRowsFollowHits(store, listing, month, year);
    ScanHitsExact(store, listing, month, year);
    var hits := ScanHits(store, listing, month, year);
    forall j | 0 <= j < |hits|
      ensures InPeriod(store[hits[j].phone].bills[hits[j].index], month, year)
    {
      assert hits[j] in hits;
    }
  }

  /** Every stored bill of the queried month and year appears among the scan's rows. */
  lemma StoredBillListed(store: Store, listing: seq<string>, phone: string, k: nat, month: string, year: int)
    requires IsListing(store, listing)
    requires phone in store && k < |store[phone].bills| && InPeriod(store[phone].bills[k], month, year)
    ensures RowOf(PhoneOf(FileName(phone)), store[phone], store[phone].bills[k])
         in ListAllBillsForMonth(store, listing, month, year)
  {
    ListAllBillsForMonthExact(store, listing, month, year);
    var hits := ScanHits(store, listing, month, year);
    assert Hit(phone, k) in hits;
    var j :| 0 <= j < |hits| && hits[j] == Hit(phone, k);
    assert ListAllBillsForMonth(store, listing, month, year)[j]
        == RowOf(PhoneOf(FileName(phone)), store[phone], store[phone].bills[k]);
  }

  /**
    A saved bill shows up in the month search for its month and year, with the
    name and address just saved; it is listed under the phone it was saved
    under whenever that phone does not contain ".json".
   */
  lemma SaveThenListShowsBill(store: Store, phone: string, customerName: string, billTo: string, newBill: Bill,
                              listing: seq<string>)
    requires IsListing(SaveBill(store, phone, customerName, billTo, newBill), listing)
    ensures var rows := ListAllBillsForMonth(SaveBill(store, phone, customerName, billTo, newBill), listing,
                                             newBill.month, newBill.year);
      && Row(PhoneOf(FileName(phone)), customerName, billTo, newBill.units, newBill.amount, newBill.timestamp) in rows
      && (!Contains(phone, JsonSuffix) ==>
            Row(phone, customerName, billTo, newBill.units, newBill.amount, newBill.timestamp) in rows)
  {
    var saved := SaveBill(store, phone, customerName, billTo, newBill);
    var bills := saved[phone].bills;
    var k :| 0 <= k < |bills| && bills[k] == newBill;
    StoredBillListed(saved, listing, phone, k, newBill.month, newBill.year);
    PhoneOfFileNameRoundTrip(phone);
  }
}
