/**
  `load_bill` and `save_bill` over the store, and the edit form's pre-fill,
  with the properties the merge rule promises: a save creates or overwrites
  only its own key, replaces the first bill of the same month and year or
  appends, keeps at most one bill per month and year, and is idempotent.
 */
module RecordStore {
  import opened Wrappers
  import opened Bills

  /** `load_bill`: the record stored under `phone`, or None when it has no file. */
  function LoadBill(store: Store, phone: string): (r: Option<CustomerRecord>)
    ensures r.Some? <==> phone in store
    ensures r.Some? ==> r.value == store[phone]
  {
    if phone in store then Some(store[phone]) else None
  }

  /**
    The merge rule of `save_bill` for a record that already exists: the first
    bill for the new bill's month and year is replaced by it, and when there
    is none the new bill is appended.
   */
  function MergeBill(bills: seq<Bill>, newBill: Bill): (r: seq<Bill>)
    ensures newBill in r
    ensures FindIndex(bills, newBill.month, newBill.year).Some? ==>
      var i := FindIndex(bills, newBill.month, newBill.year).value;
      |r| == |bills| && r[i] == newBill &&
      forall j :: 0 <= j < |bills| && j != i ==> r[j] == bills[j]
    ensures FindIndex(bills, newBill.month, newBill.year).None? ==>
      |r| == |bills| + 1 && r[..|bills|] == bills && r[|bills|] == newBill
  {
    match FindIndex(bills, newBill.month, newBill.year)
    case Some(i) =>
      var r := bills[i := newBill];
      assert r[i] == newBill;
      r
    case None => bills + [newBill]
  }

  /**
    `save_bill`: a phone with no record gets a fresh one holding just the new
    bill; otherwise the name and address are overwritten and the bill merged.
    No other phone's record changes.
   */
  function SaveBill(store: Store, phone: string, customerName: string, billTo: string, newBill: Bill): (r: Store)
    ensures r.Keys == store.Keys + {phone}
    ensures forall other :: other in store && other != phone ==> r[other] == store[other]
    ensures r[phone].customerName == customerName && r[phone].billTo == billTo
    ensures newBill in r[phone].bills
    ensures phone !in store ==> r[phone].bills == [newBill]
  {
    match LoadBill(store, phone)
    case Some(data) =>
      store[phone := CustomerRecord(customerName, billTo, MergeBill(data.bills, newBill))]
    case None =>
      store[phone := CustomerRecord(customerName, billTo, [newBill])]
  }

  /** One press of the form's save button: the arguments of one `save_bill` call. */
  datatype SaveRequest = SaveRequest(phone: string, customerName: string, billTo: string, bill: Bill)

  /** The store after the saves, in order. */
  function ApplySaves(store: Store, saves: seq<SaveRequest>): (r: Store)
    ensures r.Keys == store.Keys + set i | 0 <= i < |saves| :: saves[i].phone
    decreases |saves|
  {
    if |saves| == 0 then
      store
    else
      var s := saves[0];
      var r := ApplySaves(SaveBill(store, s.phone, s.customerName, s.billTo, s.bill), saves[1..]);
      assert (set i | 0 <= i < |saves| :: saves[i].phone)
          == {s.phone} + set i | 0 <= i < |saves[1..]| :: saves[1..][i].phone by {
        forall i | 0 <= i < |saves[1..]| ensures saves[1..][i].phone == saves[i + 1].phone { }
        forall i | 0 <= i < |saves| && i > 0
          ensures saves[i].phone in set i | 0 <= i < |saves[1..]| :: saves[1..][i].phone
        {
          assert saves[i] == saves[1..][i - 1];
        }
      }
      r
  }

  /**
    The edit form's pre-fill: the units and amount of the first stored bill for
    the chosen month and year, or zero for both when there is none.
   */
  function Prefill(store: Store, phone: string, month: string, year: int): (r: (real, real))
    ensures phone in store && FindIndex(store[phone].bills, month, year).Some? ==>
      var b := store[phone].bills[FindIndex(store[phone].bills, month, year).value];
      InPeriod(b, month, year) && r == (b.units, b.amount)
    ensures (phone !in store || forall j :: 0 <= j < |store[phone].bills| ==> !InPeriod(store[phone].bills[j], month, year))
      ==> r == (0.0, 0.0)
  {
    match LoadBill(store, phone)
    case None => (0.0, 0.0)
    case Some(data) =>
      match FindIndex(data.bills, month, year)
      case None => (0.0, 0.0)
      case Some(i) => (data.bills[i].units, data.bills[i].amount)
  }

  /** Loading a phone that no save ever named finds nothing. */
  lemma LoadUnsavedIsAbsent(saves: seq<SaveRequest>, phone: string)
    requires forall i :: 0 <= i < |saves| ==> saves[i].phone != phone
    ensures LoadBill(ApplySaves(map[], saves), phone) == None
  {
  }

  /** After a save, loading its phone yields the saved name, address and bill; loading any other phone yields what it did before. */
  lemma LoadAfterSave(store: Store, phone: string, customerName: string, billTo: string, newBill: Bill)
    ensures var r := LoadBill(SaveBill(store, phone, customerName, billTo, newBill), phone);
      r.Some? && r.value.customerName == customerName && r.value.billTo == billTo && newBill in r.value.bills
    ensures forall other :: other != phone ==>
      LoadBill(SaveBill(store, phone, customerName, billTo, newBill), other) == LoadBill(store, other)
  {
  }

  /** A save whose bill's month and year match an existing bill replaces only the first such bill. */
  lemma SaveReplacesFirstMatch(store: Store, phone: string, customerName: string, billTo: string, newBill: Bill, i: nat)
    requires phone in store
    requires i < |store[phone].bills| && SamePeriod(store[phone].bills[i], newBill)
    requires forall j :: 0 <= j < i ==> !SamePeriod(store[phone].bills[j], newBill)
    ensures var bills := SaveBill(store, phone, customerName, billTo, newBill)[phone].bills;
      |bills| == |store[phone].bills| && bills[i] == newBill &&
      forall j :: 0 <= j < |bills| && j != i ==> bills[j] == store[phone].bills[j]
  {
    var found := FindIndex(store[phone].bills, newBill.month, newBill.year);
    assert found.Some? && found.value == i;
  }

  /** A save whose bill's month and year match no existing bill appends it, leaving the earlier bills as they were. */
  lemma SaveAppendsWhenNoMatch(store: Store, phone: string, customerName: string, billTo: string, newBill: Bill)
    requires phone in store
    requires forall j :: 0 <= j < |store[phone].bills| ==> !SamePeriod(store[phone].bills[j], newBill)
    ensures SaveBill(store, phone, customerName, billTo, newBill)[phone].bills == store[phone].bills + [newBill]
  {
    var bills := store[phone].bills;
    var r := SaveBill(store, phone, customerName, billTo, newBill)[phone].bills;
    assert FindIndex(bills, newBill.month, newBill.year).None?;
    assert r == bills + [newBill];
  }

  /** A save keeps the at-most-one-bill-per-month-and-year property of the record it touches. */
  lemma SavePreservesUniquePeriods(store: Store, phone: string, customerName: string, billTo: string, newBill: Bill)
    requires phone in store ==> UniquePeriods(store[phone].bills)
    ensures UniquePeriods(SaveBill(store, phone, customerName, billTo, newBill)[phone].bills)
  {
    if phone in store {
      var bills := store[phone].bills;
      var r := SaveBill(store, phone, customerName, billTo, newBill)[phone].bills;
      match FindIndex(bills, newBill.month, newBill.year)
      case Some(k) =>
        forall i, j | 0 <= i < j < |r| ensures !SamePeriod(r[i], r[j]) {
          if i == k {
            assert !SamePeriod(bills[k], bills[j]);
          } else if j == k {
            assert !SamePeriod(bills[i], bills[k]);
          } else {
            assert !SamePeriod(bills[i], bills[j]);
          }
        }
      case None =>
        forall i, j | 0 <= i < j < |r| ensures !SamePeriod(r[i], r[j]) {
          if j == |bills| {
            assert r[i] == bills[i];
          } else {
            assert r[i] == bills[i] && r[j] == bills[j];
          }
        }
    }
  }

  /** A save keeps every record of the store free of two bills for one month and year. */
  lemma SavePreservesWellFormed(store: Store, phone: string, customerName: string, billTo: string, newBill: Bill)
    requires WellFormed(store)
    ensures WellFormed(SaveBill(store, phone, customerName, billTo, newBill))
  {
    SavePreservesUniquePeriods(store, phone, customerName, billTo, newBill);
  }

  /** Every store built by saves alone holds at most one bill per customer, month and year. */
  lemma {:induction false} ApplySavesWellFormed(store: Store, saves: seq<SaveRequest>)
    requires WellFormed(store)
    ensures WellFormed(ApplySaves(store, saves))
    decreases |saves|
  {
    if |saves| > 0 {
      var s := saves[0];
      SavePreservesWellFormed(store, s.phone, s.customerName, s.billTo, s.bill);
      ApplySavesWellFormed(SaveBill(store, s.phone, s.customerName, s.billTo, s.bill), saves[1..]);
    }
  }

  /**
    After a save, the first bill for the saved bill's month and year is the
    saved bill, so a later save or pre-fill for that month and year finds it.
   */
  lemma SavedBillIsFirstOfPeriod(store: Store, phone: string, customerName: string, billTo: string, newBill: Bill)
    ensures var bills := SaveBill(store, phone, customerName, billTo, newBill)[phone].bills;
      var found := FindIndex(bills, newBill.month, newBill.year);
      found.Some? && bills[found.value] == newBill
  {
    var r := SaveBill(store, phone, customerName, billTo, newBill)[phone].bills;
    if phone !in store {
      FindIndexFindsFirst(r, newBill.month, newBill.year, 0);
    } else {
      var bills := store[phone].bills;
      match FindIndex(bills, newBill.month, newBill.year)
      case Some(i) =>
        forall j | 0 <= j < i ensures !InPeriod(r[j], newBill.month, newBill.year) {
          assert r[j] == bills[j];
        }
        FindIndexFindsFirst(r, newBill.month, newBill.year, i);
      case None =>
        forall j | 0 <= j < |bills| ensures !InPeriod(r[j], newBill.month, newBill.year) {
          assert r[j] == bills[j];
        }
        FindIndexFindsFirst(r, newBill.month, newBill.year, |bills|);
    }
  }

  /** Saving the same name, address and bill twice leaves the store as saving it once. */
  lemma SaveIdempotent(store: Store, phone: string, customerName: string, billTo: string, newBill: Bill)
    ensures var once := SaveBill(store, phone, customerName, billTo, newBill);
      SaveBill(once, phone, customerName, billTo, newBill) == once
  {
    var once := SaveBill(store, phone, customerName, billTo, newBill);
    SavedBillIsFirstOfPeriod(store, phone, customerName, billTo, newBill);
    var k := FindIndex(once[phone].bills, newBill.month, newBill.year).value;
    assert once[phone].bills[k := newBill] == once[phone].bills;
  }


  /**
    In a record with at most one bill per month and year, after a save the
    only bill for the saved bill's month and year is the saved bill.
   */
  lemma SaveLeavesOnlyNewBillInPeriod(store: Store, phone: string, customerName: string, billTo: string, newBill: Bill)
    requires phone in store ==> UniquePeriods(store[phone].bills)
    ensures var bills := SaveBill(store, phone, customerName, billTo, newBill)[phone].bills;
      forall j :: 0 <= j < |bills| && SamePeriod(bills[j], newBill) ==> bills[j] == newBill
  {
  }

  /**
    Two saves for one month and year under one phone leave exactly one bill
    for that month and year, the later one, and the later name and address.
   */
  lemma SaveTwiceSamePeriod(store: Store, phone: string, name1: string, billTo1: string, first: Bill,
                            name2: string, billTo2: string, second: Bill)
    requires phone in store ==> UniquePeriods(store[phone].bills)
    requires SamePeriod(first, second)
    ensures var rec := SaveBill(SaveBill(store, phone, name1, billTo1, first), phone, name2, billTo2, second)[phone];
      && rec.customerName == name2 && rec.billTo == billTo2
      && second in rec.bills
      && (forall j :: 0 <= j < |rec.bills| && SamePeriod(rec.bills[j], second) ==> rec.bills[j] == second)
      && (forall i, j ::
            (0 <= i < |rec.bills| && 0 <= j < |rec.bills| &&
             SamePeriod(rec.bills[i], second) && SamePeriod(rec.bills[j], second)) ==> i == j)
  {
    var mid := SaveBill(store, phone, name1, billTo1, first);
    SavePreservesUniquePeriods(store, phone, name1, billTo1, first);
    SavePreservesUniquePeriods(mid, phone, name2, billTo2, second);
    SaveLeavesOnlyNewBillInPeriod(mid, phone, name2, billTo2, second);
  }

  /** Right after a save, opening the edit form for the same phone, month and year pre-fills the saved units and amount. */
  lemma PrefillAfterSave(store: Store, phone: string, customerName: string, billTo: string, newBill: Bill)
    ensures Prefill(SaveBill(store, phone, customerName, billTo, newBill), phone, newBill.month, newBill.year)
         == (newBill.units, newBill.amount)
  {
    SavedBillIsFirstOfPeriod(store, phone, customerName, billTo, newBill);
  }
}
