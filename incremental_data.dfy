/**
 * The records scripts/fetch_bills_incremental.py works on, its two constants, and the
 * prefix-to-chamber rule it applies when it builds a bill.
 *
 * JSON objects are read with `.get(field, "")` throughout the script, so a field that
 * is absent and a field holding "" behave alike; both are "" here.
 */
module IncrementalData {
  import opened Wrappers
  import opened Text
  import opened Collections

  /** Bills in these states rarely change and are not refreshed. */
  const TerminalStatuses: set<string> := {"enacted", "vetoed", "failed", "partial_veto"}

  /** The most bills one incremental run fetches. */
  const MaxIncrementalBatch: nat := 400

  /** One hearing as the hearings fetch attaches it to a bill. */
  datatype Hearing = Hearing(committee: string, other: map<string, string>)

  /**
   * A bill of `bills.json`: the fields this script reads or writes, and the rest of
   * the object, which it carries along untouched.
   */
  datatype BillRecord = BillRecord(
    id: string,
    status: string,
    historyLine: string,
    introducedDate: string,
    sponsor: string,
    committee: string,
    hearings: seq<Hearing>,
    other: map<string, string>)

  /** One entry of the manifest's `bills` object. */
  datatype ManifestEntry = ManifestEntry(status: string, contentHash: string, lastFetched: string)

  /** What `get_legislation_details` returns: the bill's `bill_id` and the rest of its fields. */
  datatype Details = Details(billId: string, fields: map<string, string>)

  /**
   * `compute_content_hash(status, historyLine, introducedDate, sponsor)` of a bill; the
   * digest itself is outside the model and enters as `hash`.
   */
  function ContentHash(b: BillRecord, hash: (string, string, string, string) -> string): string
  {
    hash(b.status, b.historyLine, b.introducedDate, b.sponsor)
  }

  /** `[b.get("id", "") for b in bills]` */
  function BillIds(bills: seq<BillRecord>): (ids: seq<string>)
    ensures |ids| == |bills|
    ensures forall i :: 0 <= i < |bills| ==> ids[i] == bills[i].id
  {
    Ids(bills, IdOf)
  }

  /** `b.get("id", "")` */
  function IdOf(b: BillRecord): string
  {
    b.id
  }

  predicate HouseSuffix(prefix: string)
  {
    EndsWith(prefix, "HB") || EndsWith(prefix, "HJR") || EndsWith(prefix, "HJM") || EndsWith(prefix, "HCR")
  }

  predicate SenateSuffix(prefix: string)
  {
    EndsWith(prefix, "SB") || EndsWith(prefix, "SJR") || EndsWith(prefix, "SJM") || EndsWith(prefix, "SCR")
  }

  /** No prefix ends with both a House and a Senate bill type. */
  lemma ChamberSuffixesDisjoint(prefix: string)
    ensures !(HouseSuffix(prefix) && SenateSuffix(prefix))
  {
    var n := |prefix|;
    assert EndsWith(prefix, "HB") ==> prefix[n - 2] == 'H' && prefix[n - 1] == 'B';
    assert EndsWith(prefix, "HJR") ==> prefix[n - 3] == 'H' && prefix[n - 2] == 'J' && prefix[n - 1] == 'R';
    assert EndsWith(prefix, "HJM") ==> prefix[n - 3] == 'H' && prefix[n - 1] == 'M';
    assert EndsWith(prefix, "HCR") ==> prefix[n - 3] == 'H' && prefix[n - 2] == 'C' && prefix[n - 1] == 'R';
    assert EndsWith(prefix, "SB") ==> prefix[n - 2] == 'S' && prefix[n - 1] == 'B';
    assert EndsWith(prefix, "SJR") ==> prefix[n - 3] == 'S' && prefix[n - 2] == 'J' && prefix[n - 1] == 'R';
    assert EndsWith(prefix, "SJM") ==> prefix[n - 3] == 'S' && prefix[n - 1] == 'M';
    assert EndsWith(prefix, "SCR") ==> prefix[n - 3] == 'S' && prefix[n - 2] == 'C' && prefix[n - 1] == 'R';
  }

  /**
   * The originating chamber of a bill from its type prefix: House bill types (possibly
   * with a substitute/engrossed prefix such as "ESHB") give "House", Senate types give
   * "Senate", anything else is kept as it is. Since no prefix has both kinds of ending,
   * the order of the two tests does not matter.
   */
  function OriginalAgency(prefix: string): (agency: string)
    ensures HouseSuffix(prefix) ==> agency == "House"
    ensures SenateSuffix(prefix) ==> agency == "Senate"
    ensures !HouseSuffix(prefix) && !SenateSuffix(prefix) ==> agency == prefix
  {
    ChamberSuffixesDisjoint(prefix);
    if HouseSuffix(prefix) then "House"
    else if SenateSuffix(prefix) then "Senate"
    else prefix
  }

  /**
   * `fetch_bill_by_id`: `extract` splits a manifest id into its type prefix and number
   * (0 when it has none), `lookup` is the details call for a number, `build` turns
   * details and the chamber into a bill. No number, no details or details without a
   * `bill_id` give `None`.
   */
  function FetchBillById(
    billId: string,
    extract: string -> (string, int),
    lookup: int -> Option<Details>,
    build: (Details, string) -> BillRecord): (r: Option<BillRecord>)
    ensures extract(billId).1 == 0 ==> r == None
    ensures r.Some? <==> extract(billId).1 != 0 && lookup(extract(billId).1).Some?
                         && lookup(extract(billId).1).value.billId != ""
    ensures r.Some? ==> r.value == build(lookup(extract(billId).1).value, OriginalAgency(extract(billId).0))
  {
    var (prefix, num) := extract(billId);
    if num == 0 then None
    else
      match lookup(num)
      case None => None
      case Some(details) =>
        if details.billId == "" then None
        else Some(build(details, OriginalAgency(prefix)))
  }
}
