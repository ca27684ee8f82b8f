/**
 * The in-memory bookkeeping of `run_incremental`, as functions on values: what Tier 1
 * collects, the budget left for Tier 2, what Tier 2 does to the manifest and to the
 * collected bills, the committee back-fill, and the manifest update at the end.
 * The mutating code that follows these definitions is in module IncrementalRun.
 */
module RunSteps {
  import opened Wrappers
  import opened Collections
  import opened Dicts
  import opened IncrementalData
  import opened Merge
  import opened Refresh

  // ---------------------------------------------------------------------------
  // Tier 1: fetch the new bills
  // ---------------------------------------------------------------------------

  /**
   * One Tier-1 iteration: the details of a roster number, when they carry a
   * `bill_id`, become a bill of the chamber given by the prefix of that id.
   */
  function FetchNewBill(
    number: string,
    lookupNumber: string -> Option<Details>,
    extract: string -> (string, int),
    build: (Details, string) -> BillRecord): (r: Option<BillRecord>)
    ensures r.Some? <==> lookupNumber(number).Some? && lookupNumber(number).value.billId != ""
  {
    match lookupNumber(number)
    case None => None
    case Some(details) =>
      if details.billId == "" then None
      else Some(build(details, OriginalAgency(extract(details.billId).0)))
  }

  /** `updated_bills[bill["id"]] = bill` */
  function FileBill(updated: Dict<BillRecord>, b: BillRecord): Dict<BillRecord>
  {
    updated.Put(b.id, b)
  }

  /** The `updated_bills` dict after Tier 1 has gone through `numbers`. */
  function Tier1Bills(
    numbers: seq<string>,
    lookupNumber: string -> Option<Details>,
    extract: string -> (string, int),
    build: (Details, string) -> BillRecord): Dict<BillRecord>
  {
    if numbers == [] then EmptyDict()
    else
      var before := Tier1Bills(numbers[..|numbers| - 1], lookupNumber, extract, build);
      match FetchNewBill(numbers[|numbers| - 1], lookupNumber, extract, build)
      case None => before
      case Some(b) => FileBill(before, b)
  }

  /** The Tier-1 loop (the abort after 50 failures is not modelled). */
  method FetchNewBills(
    numbers: seq<string>,
    lookupNumber: string -> Option<Details>,
    extract: string -> (string, int),
    build: (Details, string) -> BillRecord) returns (updated: Dict<BillRecord>)
    ensures updated == Tier1Bills(numbers, lookupNumber, extract, build)
  {
    updated := EmptyDict();
    var i := 0;
    while i < |numbers|
      invariant 0 <= i <= |numbers|
      invariant updated == Tier1Bills(numbers[..i], lookupNumber, extract, build)
    {
      assert numbers[..i + 1][..i] == numbers[..i];
      var details := lookupNumber(numbers[i]);
      if details.Some? && details.value.billId != "" {
        var prefix := extract(details.value.billId).0;
        var agency := OriginalAgency(prefix);
        var bill := build(details.value, agency);
        updated := updated.Put(bill.id, bill);
      }
      i := i + 1;
    }
    assert numbers[..|numbers|] == numbers;
  }

  /**
   * Tier 1 files every bill it fetched under the bill's own id, and holds nothing
   * else: each entry is a bill fetched for one of the numbers.
   */
  lemma {:induction false} Tier1BillsExact(
    numbers: seq<string>,
    lookupNumber: string -> Option<Details>,
    extract: string -> (string, int),
    build: (Details, string) -> BillRecord)
    ensures Tier1Bills(numbers, lookupNumber, extract, build).Valid()
    ensures KeyedById(Tier1Bills(numbers, lookupNumber, extract, build))
    ensures forall i :: 0 <= i < |numbers| && FetchNewBill(numbers[i], lookupNumber, extract, build).Some? ==>
      FetchNewBill(numbers[i], lookupNumber, extract, build).value.id in Tier1Bills(numbers, lookupNumber, extract, build).values
    ensures forall k :: k in Tier1Bills(numbers, lookupNumber, extract, build).values ==>
      exists i :: 0 <= i < |numbers|
        && FetchNewBill(numbers[i], lookupNumber, extract, build) == Some(Tier1Bills(numbers, lookupNumber, extract, build).values[k])
  {
    if numbers != [] {
      var init := numbers[..|numbers| - 1];
      Tier1BillsExact(init, lookupNumber, extract, build);
      assert forall i :: 0 <= i < |init| ==> init[i] == numbers[i];
    }
  }

  // ---------------------------------------------------------------------------
  // Tier 2: refresh stale bills
  // ---------------------------------------------------------------------------

  /** `max(0, MAX_INCREMENTAL_BATCH - len(updated_bills))`: what Tier 1 leaves of the batch. */
  function RemainingBudget(fetched: nat): (budget: nat)
    ensures budget <= MaxIncrementalBatch
    ensures fetched + budget == if fetched < MaxIncrementalBatch then MaxIncrementalBatch else fetched
  {
    if MaxIncrementalBatch - fetched > 0 then MaxIncrementalBatch - fetched else 0
  }

  /** What Tier 2 works on: the manifest's `bills` and the `updated_bills` dict. */
  datatype Tier2State = Tier2State(manifest: Dict<ManifestEntry>, updated: Dict<BillRecord>)

  /** `manifest.get("bills", {}).get(bill_id, {}).get("contentHash", "")` */
  function StoredHash(manifest: Dict<ManifestEntry>, billId: string): string
  {
    if billId in manifest.values then manifest.values[billId].contentHash else ""
  }

  /**
   * One Tier-2 iteration, the `i`-th stale id: a bill whose content hash differs
   * from the stored one is filed for update; otherwise only its manifest entry's
   * `lastFetched` is set to the clock reading `clock(i)`. A failed fetch changes nothing.
   */
  function Tier2Step(
    st: Tier2State, billId: string, i: nat,
    fetch: string -> Option<BillRecord>,
    hash: (string, string, string, string) -> string,
    clock: nat -> string): Tier2State
  {
    match fetch(billId)
    case None => st
    case Some(b) =>
      if ContentHash(b, hash) != StoredHash(st.manifest, billId) then
        st.(updated := FileBill(st.updated, b))
      else if billId in st.manifest.values then
        st.(manifest := st.manifest.Put(billId, st.manifest.values[billId].(lastFetched := clock(i))))
      else st
  }

  /** Tier 2 after the stale ids `ids`, in order, the `i`-th reading the clock as `clock(i)`. */
  function Tier2Run(
    st: Tier2State, ids: seq<string>,
    fetch: string -> Option<BillRecord>,
    hash: (string, string, string, string) -> string,
    clock: nat -> string): Tier2State
  {
    if ids == [] then st
    else Tier2Step(Tier2Run(st, ids[..|ids| - 1], fetch, hash, clock), ids[|ids| - 1], |ids| - 1, fetch, hash, clock)
  }

  /** What a run may fetch: Tier 1's bills plus a Tier-2 batch of at most what is left of the 400. */
  lemma BudgetBound(manifest: Dict<ManifestEntry>, fetched: nat)
    requires manifest.Valid()
    ensures fetched + |Selection(manifest, RemainingBudget(fetched))|
      <= if fetched < MaxIncrementalBatch then MaxIncrementalBatch else fetched
  {
    SelectionSize(manifest, RemainingBudget(fetched));
  }

  /**
   * Tier 2 keeps the manifest's keys and every entry's `status` and `contentHash`;
   * only the `lastFetched` of a refreshed id can change. Bills already collected stay
   * collected, and every collected bill stays filed under its id.
   */
  lemma {:induction false} Tier2Preserves(
    st: Tier2State, ids: seq<string>,
    fetch: string -> Option<BillRecord>,
    hash: (string, string, string, string) -> string,
    clock: nat -> string)
    requires st.manifest.Valid() && st.updated.Valid() && KeyedById(st.updated)
    ensures Tier2Run(st, ids, fetch, hash, clock).manifest.Valid()
    ensures Tier2Run(st, ids, fetch, hash, clock).updated.Valid()
    ensures KeyedById(Tier2Run(st, ids, fetch, hash, clock).updated)
    ensures Tier2Run(st, ids, fetch, hash, clock).manifest.keys == st.manifest.keys
    ensures Tier2Run(st, ids, fetch, hash, clock).manifest.values.Keys == st.manifest.values.Keys
    ensures forall k :: k in st.manifest.values ==>
      && Tier2Run(st, ids, fetch, hash, clock).manifest.values[k].status == st.manifest.values[k].status
      && Tier2Run(st, ids, fetch, hash, clock).manifest.values[k].contentHash == st.manifest.values[k].contentHash
    ensures forall k :: k in st.manifest.values && k !in ids ==>
      Tier2Run(st, ids, fetch, hash, clock).manifest.values[k] == st.manifest.values[k]
    ensures forall k :: k in st.updated.values ==> k in Tier2Run(st, ids, fetch, hash, clock).updated.values
  {
    if ids != [] {
      var init := ids[..|ids| - 1];
      Tier2Preserves(st, init, fetch, hash, clock);
    }
  }

  /**
   * A refetched bill whose content hash differs from the one the manifest stored is
   * collected under its id; every collected bill was there before or is such a bill.
   */
  lemma {:induction false} Tier2Collects(
    st: Tier2State, ids: seq<string>,
    fetch: string -> Option<BillRecord>,
    hash: (string, string, string, string) -> string,
    clock: nat -> string)
    requires st.manifest.Valid() && st.updated.Valid() && KeyedById(st.updated)
    ensures forall i ::
      (0 <= i < |ids| && fetch(ids[i]).Some? && ContentHash(fetch(ids[i]).value, hash) != StoredHash(st.manifest, ids[i]))
      ==> fetch(ids[i]).value.id in Tier2Run(st, ids, fetch, hash, clock).updated.values
    ensures forall k :: k in Tier2Run(st, ids, fetch, hash, clock).updated.values ==>
      || (k in st.updated.values && Tier2Run(st, ids, fetch, hash, clock).updated.values[k] == st.updated.values[k])
      || exists i :: 0 <= i < |ids| && fetch(ids[i]) == Some(Tier2Run(st, ids, fetch, hash, clock).updated.values[k])
           && ContentHash(fetch(ids[i]).value, hash) != StoredHash(st.manifest, ids[i])
  {
    if ids != [] {
      var init, id, n := ids[..|ids| - 1], ids[|ids| - 1], |ids| - 1;
      Tier2Collects(st, init, fetch, hash, clock);
      Tier2Preserves(st, init, fetch, hash, clock);
      Tier2Preserves(st, ids, fetch, hash, clock);
      var mid := Tier2Run(st, init, fetch, hash, clock);
      assert StoredHash(mid.manifest, id) == StoredHash(st.manifest, id);
      assert forall i :: 0 <= i < n ==> init[i] == ids[i];
    }
  }

  /**
   * A refetched bill whose content hash equals the stored one is not collected; its
   * manifest entry, if any, gets the clock reading of its turn as `lastFetched` and
   * keeps everything else. (Stale ids are distinct.)
   */
  lemma {:induction false} Tier2Touches(
    st: Tier2State, ids: seq<string>,
    fetch: string -> Option<BillRecord>,
    hash: (string, string, string, string) -> string,
    clock: nat -> string)
    requires st.manifest.Valid() && st.updated.Valid() && KeyedById(st.updated)
    requires Distinct(ids)
    ensures forall i ::
      (&& 0 <= i < |ids| && fetch(ids[i]).Some? && ids[i] in st.manifest.values
       && ContentHash(fetch(ids[i]).value, hash) == StoredHash(st.manifest, ids[i]))
      ==> (&& ids[i] in Tier2Run(st, ids, fetch, hash, clock).manifest.values
           && Tier2Run(st, ids, fetch, hash, clock).manifest.values[ids[i]] == st.manifest.values[ids[i]].(lastFetched := clock(i)))
  {
    Tier2Preserves(st, ids, fetch, hash, clock);
    if ids != [] {
      var init, id, n := ids[..|ids| - 1], ids[|ids| - 1], |ids| - 1;
      assert Distinct(init) by {
        forall i, j | 0 <= i < j < |init| ensures init[i] != init[j] {
          assert init[i] == ids[i] && init[j] == ids[j];
        }
      }
      Tier2Touches(st, init, fetch, hash, clock);
      Tier2Preserves(st, init, fetch, hash, clock);
      var mid := Tier2Run(st, init, fetch, hash, clock);
      assert StoredHash(mid.manifest, id) == StoredHash(st.manifest, id);
      forall i |
        && 0 <= i < |ids| && fetch(ids[i]).Some? && ids[i] in st.manifest.values
        && ContentHash(fetch(ids[i]).value, hash) == StoredHash(st.manifest, ids[i])
        ensures ids[i] in Tier2Run(st, ids, fetch, hash, clock).manifest.values
        ensures Tier2Run(st, ids, fetch, hash, clock).manifest.values[ids[i]] == st.manifest.values[ids[i]].(lastFetched := clock(i))
      {
        if i < n {
          assert init[i] == ids[i] && ids[i] != id;
        } else {
          assert !(id in init);
          assert mid.manifest.values[id] == st.manifest.values[id];
        }
      }
    }
  }

  // ---------------------------------------------------------------------------
  // Tier 3: committees from hearings
  // ---------------------------------------------------------------------------

  /**
   * A bill without a committee that has hearings takes the committee of its last
   * hearing; every other bill, and every other field, is left as it is.
   */
  function Backfilled(b: BillRecord): (r: BillRecord)
    ensures r.(committee := b.committee) == b
    ensures b.committee != "" || b.hearings == [] ==> r == b
    ensures b.committee == "" && b.hearings != [] ==> r.committee == b.hearings[|b.hearings| - 1].committee
  {
    if b.committee == "" && b.hearings != [] then b.(committee := b.hearings[|b.hearings| - 1].committee)
    else b
  }

  /** Back-filling twice is back-filling once. */
  lemma BackfilledIdempotent(b: BillRecord)
    ensures Backfilled(Backfilled(b)) == Backfilled(b)
  {
  }

  /**
   * Tier 3 on the merged bills: each bill's hearings are replaced by what the hearings
   * fetch found for it (none when the fetch raised), then its committee is back-filled.
   * No bill moves or changes id, and only `hearings` and `committee` can change.
   */
  function Refreshed(merged: seq<BillRecord>, hearingsFetch: Attempt<nat -> seq<Hearing>>): (r: seq<BillRecord>)
    ensures |r| == |merged|
    ensures forall i :: 0 <= i < |merged| ==>
      r[i].(hearings := merged[i].hearings, committee := merged[i].committee) == merged[i]
    ensures forall i :: 0 <= i < |merged| && merged[i].committee != "" ==> r[i].committee == merged[i].committee
    ensures hearingsFetch.Raised? ==> forall i :: 0 <= i < |merged| ==> r[i].hearings == []
    ensures hearingsFetch.Returned? ==> forall i :: 0 <= i < |merged| ==> r[i].hearings == hearingsFetch.value(i)
    ensures forall i :: 0 <= i < |merged| ==>
      r[i].committee
        == if merged[i].committee == "" && r[i].hearings != [] then r[i].hearings[|r[i].hearings| - 1].committee
           else merged[i].committee
  {
    var r := seq(|merged|, i requires 0 <= i < |merged| =>
      Backfilled(merged[i].(hearings := if hearingsFetch.Returned? then hearingsFetch.value(i) else [])));
    assert forall i :: 0 <= i < |merged| ==>
      r[i] == Backfilled(merged[i].(hearings := if hearingsFetch.Returned? then hearingsFetch.value(i) else []));
    r
  }

  // ---------------------------------------------------------------------------
  // Manifest update
  // ---------------------------------------------------------------------------

  /** `{"status": ..., "contentHash": ..., "lastFetched": now}` for a bill. */
  function EntryFor(b: BillRecord, hash: (string, string, string, string) -> string, now: string): ManifestEntry
  {
    ManifestEntry(b.status, ContentHash(b, hash), now)
  }

  /**
   * The manifest's `bills` after the update loop over `merged`: a bill collected in
   * this run, or one the manifest does not list yet, gets a fresh entry.
   */
  function Recorded(
    bills: Dict<ManifestEntry>, merged: seq<BillRecord>, updatedIds: set<string>,
    hash: (string, string, string, string) -> string, now: string): Dict<ManifestEntry>
  {
    if merged == [] then bills
    else
      var before := Recorded(bills, merged[..|merged| - 1], updatedIds, hash, now);
      var b := merged[|merged| - 1];
      if b.id in updatedIds || b.id !in before.values then before.Put(b.id, EntryFor(b, hash, now))
      else before
  }

  /**
   * The update keeps the manifest's ids in their order and appends only ids of merged
   * bills; it lists every merged id afterwards; and it leaves every entry alone whose
   * id was not collected in this run or is not among the merged bills.
   */
  lemma {:induction false} RecordedKeys(
    bills: Dict<ManifestEntry>, merged: seq<BillRecord>, updatedIds: set<string>,
    hash: (string, string, string, string) -> string, now: string)
    requires bills.Valid()
    ensures Recorded(bills, merged, updatedIds, hash, now).Valid()
    ensures |Recorded(bills, merged, updatedIds, hash, now).keys| >= |bills.keys|
    ensures Recorded(bills, merged, updatedIds, hash, now).keys[..|bills.keys|] == bills.keys
    ensures forall k :: k in Recorded(bills, merged, updatedIds, hash, now).values ==>
      k in bills.values || k in BillIds(merged)
    ensures forall k :: k in BillIds(merged) ==> k in Recorded(bills, merged, updatedIds, hash, now).values
    ensures forall k :: k in bills.values && (k !in updatedIds || k !in BillIds(merged)) ==>
      k in Recorded(bills, merged, updatedIds, hash, now).values
      && Recorded(bills, merged, updatedIds, hash, now).values[k] == bills.values[k]
  {
    if merged != [] {
      var init := merged[..|merged| - 1];
      RecordedKeys(bills, init, updatedIds, hash, now);
      assert BillIds(merged) == BillIds(init) + [merged[|merged| - 1].id];
    }
  }

  /** `RecordedUpdated` for one index. */
  lemma {:induction false} RecordedUpdatedAt(
    bills: Dict<ManifestEntry>, merged: seq<BillRecord>, updatedIds: set<string>,
    hash: (string, string, string, string) -> string, now: string, i: nat)
    requires bills.Valid()
    requires i < |merged| && merged[i].id in updatedIds
    requires forall j :: i < j < |merged| ==> merged[j].id != merged[i].id
    ensures merged[i].id in Recorded(bills, merged, updatedIds, hash, now).values
    ensures Recorded(bills, merged, updatedIds, hash, now).values[merged[i].id] == EntryFor(merged[i], hash, now)
  {
    var init, n := merged[..|merged| - 1], |merged| - 1;
    if i < n {
      assert init[i] == merged[i];
      assert merged[n].id != merged[i].id;
      RecordedUpdatedAt(bills, init, updatedIds, hash, now, i);
    }
  }

  /** A merged bill collected in this run gets the entry of its last occurrence among the merged bills. */
  lemma RecordedUpdated(
    bills: Dict<ManifestEntry>, merged: seq<BillRecord>, updatedIds: set<string>,
    hash: (string, string, string, string) -> string, now: string)
    requires bills.Valid()
    ensures forall i ::
      (0 <= i < |merged| && merged[i].id in updatedIds && (forall j :: i < j < |merged| ==> merged[j].id != merged[i].id))
      ==> (&& merged[i].id in Recorded(bills, merged, updatedIds, hash, now).values
           && Recorded(bills, merged, updatedIds, hash, now).values[merged[i].id] == EntryFor(merged[i], hash, now))
  {
    forall i | 0 <= i < |merged| && merged[i].id in updatedIds && (forall j :: i < j < |merged| ==> merged[j].id != merged[i].id)
      ensures merged[i].id in Recorded(bills, merged, updatedIds, hash, now).values
      ensures Recorded(bills, merged, updatedIds, hash, now).values[merged[i].id] == EntryFor(merged[i], hash, now)
    {
      RecordedUpdatedAt(bills, merged, updatedIds, hash, now, i);
    }
  }

  /** `RecordedAdded` for one index. */
  lemma {:induction false} RecordedAddedAt(
    bills: Dict<ManifestEntry>, merged: seq<BillRecord>, updatedIds: set<string>,
    hash: (string, string, string, string) -> string, now: string, i: nat)
    requires bills.Valid()
    requires i < |merged| && merged[i].id !in updatedIds && merged[i].id !in bills.values
    requires forall j :: 0 <= j < i ==> merged[j].id != merged[i].id
    ensures merged[i].id in Recorded(bills, merged, updatedIds, hash, now).values
    ensures Recorded(bills, merged, updatedIds, hash, now).values[merged[i].id] == EntryFor(merged[i], hash, now)
  {
    var init, n := merged[..|merged| - 1], |merged| - 1;
    var before := Recorded(bills, init, updatedIds, hash, now);
    var id := merged[i].id;
    var b := merged[n];
    assert Recorded(bills, merged, updatedIds, hash, now)
      == if b.id in updatedIds || b.id !in before.values then before.Put(b.id, EntryFor(b, hash, now)) else before;
    RecordedKeys(bills, init, updatedIds, hash, now);
    if i < n {
      assert init[i] == merged[i];
      RecordedAddedAt(bills, init, updatedIds, hash, now, i);
      assert id in before.values && before.values[id] == EntryFor(merged[i], hash, now);
    } else {
      assert id !in BillIds(init) by {
        forall j | 0 <= j < |init| ensures BillIds(init)[j] != id {
          assert init[j] == merged[j];
        }
      }
      assert id !in before.values;
    }
  }

  /**
   * A merged bill that was not collected in this run and that the manifest did not
   * list gets the entry of its first occurrence among the merged bills.
   */
  lemma RecordedAdded(
    bills: Dict<ManifestEntry>, merged: seq<BillRecord>, updatedIds: set<string>,
    hash: (string, string, string, string) -> string, now: string)
    requires bills.Valid()
    ensures forall i ::
      (&& 0 <= i < |merged| && merged[i].id !in updatedIds && merged[i].id !in bills.values
       && (forall j :: 0 <= j < i ==> merged[j].id != merged[i].id))
      ==> (&& merged[i].id in Recorded(bills, merged, updatedIds, hash, now).values
           && Recorded(bills, merged, updatedIds, hash, now).values[merged[i].id] == EntryFor(merged[i], hash, now))
  {
    forall i |
      && 0 <= i < |merged| && merged[i].id !in updatedIds && merged[i].id !in bills.values
      && (forall j :: 0 <= j < i ==> merged[j].id != merged[i].id)
      ensures merged[i].id in Recorded(bills, merged, updatedIds, hash, now).values
      ensures Recorded(bills, merged, updatedIds, hash, now).values[merged[i].id] == EntryFor(merged[i], hash, now)
    {
      RecordedAddedAt(bills, merged, updatedIds, hash, now, i);
    }
  }
}
