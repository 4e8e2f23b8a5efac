/**
  The data held by the record store: one record per phone key, each with the
  customer's name and address and the list of that customer's bills.
 */
module Bills {
  import opened Wrappers

  /**
    One bill entry. `units` and `amount` are the form's number inputs; the
    store only copies them. `timestamp` is the ISO-8601 text of the save time.
   */
  datatype Bill = Bill(month: string, year: int, units: real, amount: real, timestamp: string)

  /** The JSON object stored for one phone key. */
  datatype CustomerRecord = CustomerRecord(customerName: string, billTo: string, bills: seq<Bill>)

  /** The whole store: the data directory, viewed as a map from phone key to record. */
  type Store = map<string, CustomerRecord>

  /** The bill is the one for `month` of `year`. */
  predicate InPeriod(b: Bill, month: string, year: int) {
    b.month == month && b.year == year
  }

  /** The two bills are for the same month of the same year. */
  predicate SamePeriod(a: Bill, b: Bill) {
    InPeriod(a, b.month, b.year)
  }

  /**
    The position of the first bill for `month` of `year`, or None when there
    is none: the search that both saving and the edit form's pre-fill perform.
   */
  function FindIndex(bills: seq<Bill>, month: string, year: int): (r: Option<nat>)
    ensures r.Some? ==> r.value < |bills| && InPeriod(bills[r.value], month, year)
    ensures r.Some? ==> forall j :: 0 <= j < r.value ==> !InPeriod(bills[j], month, year)
    ensures r.None? <==> forall j :: 0 <= j < |bills| ==> !InPeriod(bills[j], month, year)
  {
    if |bills| == 0 then
      None
    else if InPeriod(bills[0], month, year) then
      Some(0)
    else
      match FindIndex(bills[1..], month, year)
      case None => None
      case Some(i) => Some(i + 1)
  }

  /** The first bill for `month` of `year` is the one FindIndex finds. */
  lemma FindIndexFindsFirst(bills: seq<Bill>, month: string, year: int, k: nat)
    requires k < |bills| && InPeriod(bills[k], month, year)
    requires forall j :: 0 <= j < k ==> !InPeriod(bills[j], month, year)
    ensures FindIndex(bills, month, year) == Some(k)
  {
    var found := FindIndex(bills, month, year);
    assert found.Some?;
    assert !(found.value < k);
    assert !(k < found.value);
  }

  /** No two bills of the list are for the same month of the same year. */
  predicate UniquePeriods(bills: seq<Bill>) {
    forall i, j :: 0 <= i < j < |bills| ==> !SamePeriod(bills[i], bills[j])
  }

  /** Every record of the store keeps at most one bill per month and year. */
  predicate WellFormed(store: Store) {
    forall phone :: phone in store ==> UniquePeriods(store[phone].bills)
  }
}
