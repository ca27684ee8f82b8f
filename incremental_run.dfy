/**
 * `run_incremental`, the in-memory part: the manifest dict and the merged bills are
 * updated in place. Loading and saving files, the roster and details calls, the
 * hearings fetch, the content digest and the clock enter as parameters.
 */
module IncrementalRun {
  import opened Wrappers
  import opened Collections
  import opened Dicts
  import opened IncrementalData
  import opened Roster
  import opened Refresh
  import opened Merge
  import opened RunSteps

  /** The manifest as loaded from `manifest.json`; a missing `bills` object reads as empty. */
  class Manifest {
    var bills: Dict<ManifestEntry>
    var billCount: Option<int>
    var lastIncrementalSync: Option<string>

    ghost predicate Valid()
      reads this
    {
      bills.Valid()
    }

    /** The ids the manifest knows: `set(manifest.get("bills", {}).keys())`. */
    function KnownIds(): (ids: set<string>)
      reads this
      requires Valid()
      ensures forall k :: k in ids <==> k in bills.keys
    {
      bills.values.Keys
    }
  }

  /**
   * The Tier-2 loop over the stale ids (the abort after 50 failures is not modelled):
   * it sets `lastFetched` in the manifest in place and files changed bills into the
   * `updated_bills` dict it is given.
   */
  method RefreshStale(
    manifest: Manifest, staleIds: seq<string>, updatedBefore: Dict<BillRecord>,
    fetch: string -> Option<BillRecord>,
    hash: (string, string, string, string) -> string,
    clock: nat -> string) returns (updated: Dict<BillRecord>)
    requires manifest.Valid()
    modifies manifest
    ensures Tier2State(manifest.bills, updated)
      == Tier2Run(Tier2State(old(manifest.bills), updatedBefore), staleIds, fetch, hash, clock)
    ensures manifest.billCount == old(manifest.billCount)
    ensures manifest.lastIncrementalSync == old(manifest.lastIncrementalSync)
  {
    updated := updatedBefore;
    ghost var start := Tier2State(manifest.bills, updatedBefore);
    var i := 0;
    while i < |staleIds|
      invariant 0 <= i <= |staleIds|
      invariant Tier2State(manifest.bills, updated) == Tier2Run(start, staleIds[..i], fetch, hash, clock)
      invariant manifest.billCount == old(manifest.billCount)
      invariant manifest.lastIncrementalSync == old(manifest.lastIncrementalSync)
    {
      var billId := staleIds[i];
      assert staleIds[..i + 1][..i] == staleIds[..i];
      var bill := fetch(billId);
      if bill.Some? {
        var newHash := ContentHash(bill.value, hash);
        var oldHash := if billId in manifest.bills.values then manifest.bills.values[billId].contentHash else "";
        if newHash != oldHash {
          updated := updated.Put(bill.value.id, bill.value);
        } else if billId in manifest.bills.values {
          manifest.bills := manifest.bills.Put(billId, manifest.bills.values[billId].(lastFetched := clock(i)));
        }
      }
      i := i + 1;
    }
    assert staleIds[..|staleIds|] == staleIds;
  }

  /** `bill["hearings"] = []` for every merged bill. */
  method ClearHearings(merged: array<BillRecord>)
    modifies merged
    ensures forall i :: 0 <= i < merged.Length ==> merged[i] == old(merged[i]).(hearings := [])
  {
    var i := 0;
    while i < merged.Length
      invariant 0 <= i <= merged.Length
      invariant forall j :: 0 <= j < i ==> merged[j] == old(merged[j]).(hearings := [])
      invariant forall j :: i <= j < merged.Length ==> merged[j] == old(merged[j])
    {
      merged[i] := merged[i].(hearings := []);
      i := i + 1;
    }
  }

  /**
   * What `fetch_hearings_for_bills` leaves behind when it returns: `found(i)` is the
   * list of hearings of the `i`-th merged bill.
   */
  method AttachHearings(merged: array<BillRecord>, found: nat -> seq<Hearing>)
    modifies merged
    ensures forall i :: 0 <= i < merged.Length ==> merged[i] == old(merged[i]).(hearings := found(i))
  {
    var i := 0;
    while i < merged.Length
      invariant 0 <= i <= merged.Length
      invariant forall j :: 0 <= j < i ==> merged[j] == old(merged[j]).(hearings := found(j))
      invariant forall j :: i <= j < merged.Length ==> merged[j] == old(merged[j])
    {
      merged[i] := merged[i].(hearings := found(i));
      i := i + 1;
    }
  }

  /** The committee back-fill loop. */
  method BackfillCommittees(merged: array<BillRecord>)
    modifies merged
    ensures forall i :: 0 <= i < merged.Length ==> merged[i] == Backfilled(old(merged[i]))
  {
    var i := 0;
    while i < merged.Length
      invariant 0 <= i <= merged.Length
      invariant forall j :: 0 <= j < i ==> merged[j] == Backfilled(old(merged[j]))
      invariant forall j :: i <= j < merged.Length ==> merged[j] == old(merged[j])
    {
      var bill := merged[i];
      if bill.committee == "" && bill.hearings != [] {
        merged[i] := bill.(committee := bill.hearings[|bill.hearings| - 1].committee);
      }
      i := i + 1;
    }
  }

  /** The manifest update at the end of the run (lines 344-367). */
  method RecordRun(
    manifest: Manifest, merged: seq<BillRecord>, updated: Dict<BillRecord>,
    hash: (string, string, string, string) -> string, now: string)
    requires manifest.Valid()
    modifies manifest
    ensures manifest.Valid()
    ensures manifest.lastIncrementalSync == Some(now)
    ensures manifest.billCount == Some(|merged|)
    ensures manifest.bills == Recorded(old(manifest.bills), merged, updated.values.Keys, hash, now)
  {
    manifest.lastIncrementalSync := Some(now);
    manifest.billCount := Some(|merged|);
    ghost var start := manifest.bills;
    var i := 0;
    while i < |merged|
      invariant 0 <= i <= |merged|
      invariant manifest.bills == Recorded(start, merged[..i], updated.values.Keys, hash, now)
      invariant manifest.lastIncrementalSync == Some(now) && manifest.billCount == Some(|merged|)
    {
      var bill := merged[i];
      assert merged[..i + 1][..i] == merged[..i];
      var contentHash := ContentHash(bill, hash);
      if bill.id in updated.values {
        manifest.bills := manifest.bills.Put(bill.id, ManifestEntry(bill.status, contentHash, now));
      } else if bill.id !in manifest.bills.values {
        manifest.bills := manifest.bills.Put(bill.id, ManifestEntry(bill.status, contentHash, now));
      }
      i := i + 1;
    }
    assert merged[..|merged|] == merged;
    RecordedKeys(start, merged, updated.values.Keys, hash, now);
  }

  /** The fetcher Tier 2 calls for a stale id: `fetch_bill_by_id` with its lookups. */
  function ById(
    extract: string -> (string, int),
    lookup: int -> Option<Details>,
    build: (Details, string) -> BillRecord): string -> Option<BillRecord>
  {
    (billId: string) => FetchBillById(billId, extract, lookup, build)
  }

  /** The `updated_bills` dict after Tier 1: the bills of the roster numbers the manifest does not know. */
  function Tier1Of(
    bills: Dict<ManifestEntry>, roster: seq<RosterEntry>,
    lookupNumber: string -> Option<Details>,
    extract: string -> (string, int),
    build: (Details, string) -> BillRecord): Dict<BillRecord>
  {
    Tier1Bills(NewNumbers(roster, bills.values.Keys), lookupNumber, extract, build)
  }

  /** The stale ids Tier 2 refreshes: the stalest non-terminal bills, within what Tier 1 left of the batch. */
  function StaleOf(
    bills: Dict<ManifestEntry>, roster: seq<RosterEntry>,
    lookupNumber: string -> Option<Details>,
    extract: string -> (string, int),
    build: (Details, string) -> BillRecord): seq<string>
    requires bills.Valid()
  {
    Selection(bills, RemainingBudget(|Tier1Of(bills, roster, lookupNumber, extract, build).keys|))
  }

  /** Tiers 1 and 2 on values: the `updated_bills` dict and the manifest's `bills` after both. */
  function Collected(
    bills: Dict<ManifestEntry>, roster: seq<RosterEntry>,
    lookupNumber: string -> Option<Details>,
    extract: string -> (string, int),
    lookup: int -> Option<Details>,
    build: (Details, string) -> BillRecord,
    hash: (string, string, string, string) -> string,
    clock: nat -> string): Tier2State
    requires bills.Valid()
  {
    Tier2Run(
      Tier2State(bills, Tier1Of(bills, roster, lookupNumber, extract, build)),
      StaleOf(bills, roster, lookupNumber, extract, build),
      ById(extract, lookup, build), hash, clock)
  }

  /**
   * Tiers 1 and 2 leave the manifest's ids as they were, and every entry keeps its
   * status and content hash; every collected bill is filed under its own id.
   */
  lemma CollectedKeeps(
    bills: Dict<ManifestEntry>, roster: seq<RosterEntry>,
    lookupNumber: string -> Option<Details>,
    extract: string -> (string, int),
    lookup: int -> Option<Details>,
    build: (Details, string) -> BillRecord,
    hash: (string, string, string, string) -> string,
    clock: nat -> string)
    requires bills.Valid()
    ensures var c := Collected(bills, roster, lookupNumber, extract, lookup, build, hash, clock);
      && c.manifest.Valid() && c.updated.Valid() && KeyedById(c.updated)
      && c.manifest.keys == bills.keys
      && (forall k :: k in bills.values ==>
           && c.manifest.values[k].status == bills.values[k].status
           && c.manifest.values[k].contentHash == bills.values[k].contentHash)
  {
    var tier1 := Tier1Of(bills, roster, lookupNumber, extract, build);
    var stale := StaleOf(bills, roster, lookupNumber, extract, build);
    Tier1BillsExact(NewNumbers(roster, bills.values.Keys), lookupNumber, extract, build);
    Tier2Preserves(Tier2State(bills, tier1), stale, ById(extract, lookup, build), hash, clock);
  }

  /**
   * Every bill of `updated` is the bill of one of the new roster `numbers`, or a
   * refetched bill of one of the `stale` ids whose content hash differs from the one
   * the manifest stored.
   */
  ghost predicate CollectedFrom(
    updated: Dict<BillRecord>, bills: Dict<ManifestEntry>, numbers: seq<string>, stale: seq<string>,
    lookupNumber: string -> Option<Details>,
    extract: string -> (string, int),
    lookup: int -> Option<Details>,
    build: (Details, string) -> BillRecord,
    hash: (string, string, string, string) -> string)
  {
    forall k :: k in updated.values ==>
      || (exists i :: 0 <= i < |numbers| && FetchNewBill(numbers[i], lookupNumber, extract, build) == Some(updated.values[k]))
      || (exists i :: 0 <= i < |stale| && FetchBillById(stale[i], extract, lookup, build) == Some(updated.values[k])
           && ContentHash(updated.values[k], hash) != StoredHash(bills, stale[i]))
  }

  /** What Tiers 1 and 2 collect comes from the new roster numbers or from the stale ids. */
  lemma CollectedSources(
    bills: Dict<ManifestEntry>, roster: seq<RosterEntry>,
    lookupNumber: string -> Option<Details>,
    extract: string -> (string, int),
    lookup: int -> Option<Details>,
    build: (Details, string) -> BillRecord,
    hash: (string, string, string, string) -> string,
    clock: nat -> string)
    requires bills.Valid()
    ensures CollectedFrom(
      Collected(bills, roster, lookupNumber, extract, lookup, build, hash, clock).updated, bills,
      NewNumbers(roster, bills.values.Keys), StaleOf(bills, roster, lookupNumber, extract, build),
      lookupNumber, extract, lookup, build, hash)
  {
    var numbers := NewNumbers(roster, bills.values.Keys);
    var stale := StaleOf(bills, roster, lookupNumber, extract, build);
    assert Collected(bills, roster, lookupNumber, extract, lookup, build, hash, clock)
      == Tier2Run(Tier2State(bills, Tier1Bills(numbers, lookupNumber, extract, build)), stale, ById(extract, lookup, build), hash, clock);
    TieredSources(bills, numbers, stale, lookupNumber, extract, lookup, build, hash, clock);
  }

  /** `CollectedSources` for any list of new numbers and any list of stale ids. */
  lemma TieredSources(
    bills: Dict<ManifestEntry>, numbers: seq<string>, stale: seq<string>,
    lookupNumber: string -> Option<Details>,
    extract: string -> (string, int),
    lookup: int -> Option<Details>,
    build: (Details, string) -> BillRecord,
    hash: (string, string, string, string) -> string,
    clock: nat -> string)
    requires bills.Valid()
    ensures CollectedFrom(
      Tier2Run(Tier2State(bills, Tier1Bills(numbers, lookupNumber, extract, build)), stale, ById(extract, lookup, build), hash, clock).updated,
      bills, numbers, stale, lookupNumber, extract, lookup, build, hash)
  {
    var tier1 := Tier1Bills(numbers, lookupNumber, extract, build);
    var fetch := ById(extract, lookup, build);
    var st := Tier2State(bills, tier1);
    Tier1BillsExact(numbers, lookupNumber, extract, build);
    Tier2Collects(st, stale, fetch, hash, clock);
    var c := Tier2Run(st, stale, fetch, hash, clock);
    forall k | k in c.updated.values
      ensures || (exists i :: 0 <= i < |numbers| && FetchNewBill(numbers[i], lookupNumber, extract, build) == Some(c.updated.values[k]))
              || (exists i :: 0 <= i < |stale| && FetchBillById(stale[i], extract, lookup, build) == Some(c.updated.values[k])
                   && ContentHash(c.updated.values[k], hash) != StoredHash(bills, stale[i]))
    {
      if !(k in tier1.values && c.updated.values[k] == tier1.values[k]) {
        var i :| 0 <= i < |stale| && fetch(stale[i]) == Some(c.updated.values[k])
          && ContentHash(fetch(stale[i]).value, hash) != StoredHash(bills, stale[i]);
        assert fetch(stale[i]) == FetchBillById(stale[i], extract, lookup, build);
      }
    }
  }

  /**
   * Tiers 1 and 2: the new bills of the roster, then the changed bills among the
   * stale ones, within the batch budget. The collected bills and the manifest's
   * `bills` afterwards are those of `Collected`.
   */
  method CollectUpdates(
    manifest: Manifest, roster: seq<RosterEntry>,
    lookupNumber: string -> Option<Details>,
    extract: string -> (string, int),
    lookup: int -> Option<Details>,
    build: (Details, string) -> BillRecord,
    hash: (string, string, string, string) -> string,
    clock: nat -> string) returns (updated: Dict<BillRecord>)
    requires manifest.Valid()
    modifies manifest
    ensures manifest.Valid()
    ensures updated.Valid() && KeyedById(updated)
    ensures Tier2State(manifest.bills, updated)
      == Collected(old(manifest.bills), roster, lookupNumber, extract, lookup, build, hash, clock)
    ensures manifest.billCount == old(manifest.billCount)
    ensures manifest.lastIncrementalSync == old(manifest.lastIncrementalSync)
  {
    ghost var loaded := manifest.bills;
    var newNumbers := DedupNewNumbers(roster, manifest.KnownIds());
    updated := FetchNewBills(newNumbers, lookupNumber, extract, build);
    var budget := RemainingBudget(|updated.keys|);
    var staleIds := SelectBillsForRefresh(manifest.bills, budget);
    var fetch := ById(extract, lookup, build);
    updated := RefreshStale(manifest, staleIds, updated, fetch, hash, clock);
    CollectedKeeps(loaded, roster, lookupNumber, extract, lookup, build, hash, clock);
  }

  /**
   * Tier 3 on the merged bills, in place: hearings cleared, the hearings fetch's
   * results attached when it returned, committees back-filled. No bill changes id.
   */
  method RefreshHearings(mergedBills: seq<BillRecord>, hearingsFetch: Attempt<nat -> seq<Hearing>>)
    returns (refreshed: seq<BillRecord>)
    ensures refreshed == Refreshed(mergedBills, hearingsFetch)
  {
    var merged := new BillRecord[|mergedBills|](i requires 0 <= i < |mergedBills| => mergedBills[i]);
    ClearHearings(merged);
    match hearingsFetch {
      case Returned(found) =>
        AttachHearings(merged, found);
      case Raised =>
    }
    BackfillCommittees(merged);
    refreshed := merged[..];
  }

  /**
   * The merged bills of an incremental run, on values: the existing bills merged with
   * what Tiers 1 and 2 collected, then refreshed by Tier 3.
   */
  function RunMerged(
    bills: Dict<ManifestEntry>, existing: seq<BillRecord>, roster: seq<RosterEntry>,
    lookupNumber: string -> Option<Details>,
    extract: string -> (string, int),
    lookup: int -> Option<Details>,
    build: (Details, string) -> BillRecord,
    hash: (string, string, string, string) -> string,
    clock: nat -> string,
    hearingsFetch: Attempt<nat -> seq<Hearing>>): seq<BillRecord>
    requires bills.Valid()
  {
    CollectedKeeps(bills, roster, lookupNumber, extract, lookup, build, hash, clock);
    var c := Collected(bills, roster, lookupNumber, extract, lookup, build, hash, clock);
    Refreshed(Merged(existing, c.updated), hearingsFetch)
  }

  /**
   * The manifest's `bills` after an incremental run, on values: the entries Tier 2
   * left, updated for the merged bills, the collected ones among them refreshed.
   */
  function RunManifest(
    bills: Dict<ManifestEntry>, merged: seq<BillRecord>, roster: seq<RosterEntry>,
    lookupNumber: string -> Option<Details>,
    extract: string -> (string, int),
    lookup: int -> Option<Details>,
    build: (Details, string) -> BillRecord,
    hash: (string, string, string, string) -> string,
    clock: nat -> string,
    now: string): Dict<ManifestEntry>
    requires bills.Valid()
  {
    var c := Collected(bills, roster, lookupNumber, extract, lookup, build, hash, clock);
    Recorded(c.manifest, merged, c.updated.values.Keys, hash, now)
  }

  /**
   * An incremental run keeps every existing bill's id in its place, never shortens
   * the list, and keeps ids unique when they were.
   */
  lemma RunMergedKeeps(
    bills: Dict<ManifestEntry>, existing: seq<BillRecord>, roster: seq<RosterEntry>,
    lookupNumber: string -> Option<Details>,
    extract: string -> (string, int),
    lookup: int -> Option<Details>,
    build: (Details, string) -> BillRecord,
    hash: (string, string, string, string) -> string,
    clock: nat -> string,
    hearingsFetch: Attempt<nat -> seq<Hearing>>)
    requires bills.Valid()
    ensures |RunMerged(bills, existing, roster, lookupNumber, extract, lookup, build, hash, clock, hearingsFetch)| >= |existing|
    ensures forall i :: 0 <= i < |existing| ==>
      RunMerged(bills, existing, roster, lookupNumber, extract, lookup, build, hash, clock, hearingsFetch)[i].id == existing[i].id
    ensures Distinct(BillIds(existing)) ==>
      Distinct(BillIds(RunMerged(bills, existing, roster, lookupNumber, extract, lookup, build, hash, clock, hearingsFetch)))
  {
    CollectedKeeps(bills, roster, lookupNumber, extract, lookup, build, hash, clock);
    var c := Collected(bills, roster, lookupNumber, extract, lookup, build, hash, clock);
    var m := Merged(existing, c.updated);
    MergedShape(existing, c.updated);
    MergedKeepsIds(existing, c.updated);
    if Distinct(BillIds(existing)) {
      MergedDistinct(existing, c.updated);
    }
    assert BillIds(Refreshed(m, hearingsFetch)) == BillIds(m);
  }

  /**
   * After an incremental run the manifest keeps its ids in their order, appends only
   * new ones, and lists every merged bill.
   */
  lemma RunManifestKeys(
    bills: Dict<ManifestEntry>, merged: seq<BillRecord>, roster: seq<RosterEntry>,
    lookupNumber: string -> Option<Details>,
    extract: string -> (string, int),
    lookup: int -> Option<Details>,
    build: (Details, string) -> BillRecord,
    hash: (string, string, string, string) -> string,
    clock: nat -> string,
    now: string)
    requires bills.Valid()
    ensures RunManifest(bills, merged, roster, lookupNumber, extract, lookup, build, hash, clock, now).Valid()
    ensures |RunManifest(bills, merged, roster, lookupNumber, extract, lookup, build, hash, clock, now).keys| >= |bills.keys|
    ensures RunManifest(bills, merged, roster, lookupNumber, extract, lookup, build, hash, clock, now).keys[..|bills.keys|] == bills.keys
    ensures forall k :: k in BillIds(merged) ==>
      k in RunManifest(bills, merged, roster, lookupNumber, extract, lookup, build, hash, clock, now).values
  {
    CollectedKeeps(bills, roster, lookupNumber, extract, lookup, build, hash, clock);
    var c := Collected(bills, roster, lookupNumber, extract, lookup, build, hash, clock);
    RecordedKeys(c.manifest, merged, c.updated.values.Keys, hash, now);
  }

  /**
   * Tiers 1 to 3 and the manifest update, once the run has both a manifest and
   * existing bills: the merged bills and the manifest's `bills` are `RunMerged` and
   * `RunManifest` of the loaded manifest.
   */
  method IncrementalTiers(
    manifest: Manifest, existing: seq<BillRecord>, roster: seq<RosterEntry>,
    lookupNumber: string -> Option<Details>,
    extract: string -> (string, int),
    lookup: int -> Option<Details>,
    build: (Details, string) -> BillRecord,
    hash: (string, string, string, string) -> string,
    clock: nat -> string,
    hearingsFetch: Attempt<nat -> seq<Hearing>>,
    now: string) returns (merged: seq<BillRecord>)
    requires manifest.Valid()
    modifies manifest
    ensures manifest.Valid()
    ensures merged == RunMerged(old(manifest.bills), existing, roster, lookupNumber, extract, lookup, build, hash, clock, hearingsFetch)
    ensures manifest.bills == RunManifest(old(manifest.bills), merged, roster, lookupNumber, extract, lookup, build, hash, clock, now)
    ensures manifest.billCount == Some(|merged|)
    ensures manifest.lastIncrementalSync == Some(now)
  {
    ghost var loaded := manifest.bills;
    var updated := CollectUpdates(manifest, roster, lookupNumber, extract, lookup, build, hash, clock);
    var mergedBills := MergeBills(existing, updated);
    merged := RefreshHearings(mergedBills, hearingsFetch);
    RecordRun(manifest, merged, updated, hash, now);
    assert merged == RunMerged(loaded, existing, roster, lookupNumber, extract, lookup, build, hash, clock, hearingsFetch);
  }

  /** How a run ends: it falls back to the full fetcher, or it produces the merged bills. */
  datatype RunOutcome = FullFetch | Incremental(merged: seq<BillRecord>)

  /**
   * One incremental run. With no manifest bills or no existing bills it falls back to
   * the full fetch and leaves the manifest alone. Otherwise the merged list is the
   * merge of the existing bills with what Tiers 1 and 2 collected, refreshed by
   * Tier 3, and the manifest records that list over what Tier 2 left of it. So the
   * merged list is never shorter, keeps every existing bill's id in place, keeps ids
   * unique when they were, and every merged id ends up in the manifest, whose
   * earlier ids keep their order.
   */
  method RunIncremental(
    manifest: Manifest, existing: seq<BillRecord>, roster: seq<RosterEntry>,
    lookupNumber: string -> Option<Details>,
    extract: string -> (string, int),
    lookup: int -> Option<Details>,
    build: (Details, string) -> BillRecord,
    hash: (string, string, string, string) -> string,
    clock: nat -> string,
    hearingsFetch: Attempt<nat -> seq<Hearing>>,
    now: string) returns (outcome: RunOutcome)
    requires manifest.Valid()
    modifies manifest
    ensures manifest.Valid()
    ensures outcome.FullFetch? <==> old(manifest.bills.keys) == [] || existing == []
    ensures outcome.FullFetch? ==>
      && manifest.bills == old(manifest.bills)
      && manifest.billCount == old(manifest.billCount)
      && manifest.lastIncrementalSync == old(manifest.lastIncrementalSync)
    ensures outcome.Incremental? ==>
      && outcome.merged == RunMerged(old(manifest.bills), existing, roster, lookupNumber, extract, lookup, build, hash, clock, hearingsFetch)
      && manifest.bills == RunManifest(old(manifest.bills), outcome.merged, roster, lookupNumber, extract, lookup, build, hash, clock, now)
      && manifest.billCount == Some(|outcome.merged|)
      && manifest.lastIncrementalSync == Some(now)
    ensures outcome.Incremental? ==>
      && |outcome.merged| >= |existing|
      && (forall i :: 0 <= i < |existing| ==> outcome.merged[i].id == existing[i].id)
      && (Distinct(BillIds(existing)) ==> Distinct(BillIds(outcome.merged)))
      && |manifest.bills.keys| >= |old(manifest.bills.keys)|
      && manifest.bills.keys[..|old(manifest.bills.keys)|] == old(manifest.bills.keys)
      && (forall k :: k in BillIds(outcome.merged) ==> k in manifest.bills.values)
  {
    if manifest.bills.keys == [] || existing == [] {
      return FullFetch;
    }
    ghost var loaded := manifest.bills;
    var merged := IncrementalTiers(manifest, existing, roster, lookupNumber, extract, lookup, build, hash, clock, hearingsFetch, now);
    RunMergedKeeps(loaded, existing, roster, lookupNumber, extract, lookup, build, hash, clock, hearingsFetch);
    RunManifestKeys(loaded, merged, roster, lookupNumber, extract, lookup, build, hash, clock, now);
    outcome := Incremental(merged);
  }
}
