/**
 * Tier 2 of the incremental run: `select_bills_for_refresh` picks the non-terminal
 * bills of the manifest that were fetched longest ago.
 */
module Refresh {
  import opened Text
  import opened Collections
  import opened Sorting
  import opened Dicts
  import opened IncrementalData

  /** A `(bill_id, last_fetched)` pair of the candidate list. */
  datatype Candidate = Candidate(id: string, lastFetched: string)

  /** `lambda x: x[1]`: candidates are ordered by their `lastFetched` string. */
  function Staleness(c: Candidate): SortKey
  {
    SortKey(c.lastFetched, 0)
  }

  /** The candidates the first loop collects: the non-terminal bills, in manifest order. */
  function Candidates(keys: seq<string>, meta: map<string, ManifestEntry>): seq<Candidate>
    requires forall k :: k in keys ==> k in meta
  {
    if keys == [] then []
    else
      var init, k := keys[..|keys| - 1], keys[|keys| - 1];
      Candidates(init, meta)
        + (if meta[k].status in TerminalStatuses then [] else [Candidate(k, meta[k].lastFetched)])
  }

  /** The id of a candidate. */
  function CandidateId(c: Candidate): string
  {
    c.id
  }

  /**
   * Where Python's `s[:stop]` ends on a list of length `n`: a negative `stop` counts
   * from the end, and the result is clamped to `0..n`.
   */
  function SliceEnd(stop: int, n: nat): (end: nat)
    ensures end <= n
    ensures stop >= 0 ==> end == if stop < n then stop else n
    ensures stop < 0 ==> end == if n + stop > 0 then n + stop else 0
  {
    if stop >= 0 then (if stop < n then stop else n)
    else if n + stop > 0 then n + stop
    else 0
  }

  /** The non-terminal bills of the manifest. */
  function NonTerminal(bills: Dict<ManifestEntry>): set<string>
  {
    set k | k in bills.values && bills.values[k].status !in TerminalStatuses
  }

  /** What `select_bills_for_refresh(manifest, max_batch)` returns. */
  function Selection(bills: Dict<ManifestEntry>, maxBatch: int): seq<string>
    requires bills.Valid()
  {
    var sorted := SortedCandidates(bills);
    Ids(sorted[..SliceEnd(maxBatch, |sorted|)], CandidateId)
  }

  /** The candidate loop, the stable sort by `lastFetched`, and the slice. */
  method SelectBillsForRefresh(bills: Dict<ManifestEntry>, maxBatch: int) returns (selected: seq<string>)
    requires bills.Valid()
    ensures selected == Selection(bills, maxBatch)
  {
    var candidates: seq<Candidate> := [];
    var i := 0;
    while i < |bills.keys|
      invariant 0 <= i <= |bills.keys|
      invariant candidates == Candidates(bills.keys[..i], bills.values)
    {
      var billId := bills.keys[i];
      var meta := bills.values[billId];
      assert bills.keys[..i + 1][..i] == bills.keys[..i];
      if meta.status !in TerminalStatuses {
        candidates := candidates + [Candidate(billId, meta.lastFetched)];
      }
      i := i + 1;
    }
    assert bills.keys[..|bills.keys|] == bills.keys;
    candidates := SortBy(candidates, Staleness);
    var taken := candidates[..SliceEnd(maxBatch, |candidates|)];
    selected := [];
    var j := 0;
    while j < |taken|
      invariant 0 <= j <= |taken|
      invariant selected == Ids(taken[..j], CandidateId)
    {
      assert Ids(taken[..j + 1], CandidateId) == Ids(taken[..j], CandidateId) + [taken[j].id];
      selected := selected + [taken[j].id];
      j := j + 1;
    }
    assert taken[..|taken|] == taken;
  }

  /** The candidates are exactly the non-terminal keys, each once, with the manifest's `lastFetched`. */
  lemma {:induction false} CandidatesExact(keys: seq<string>, meta: map<string, ManifestEntry>)
    requires forall k :: k in keys ==> k in meta
    ensures forall c :: c in Candidates(keys, meta) ==>
      c.id in keys && meta[c.id].status !in TerminalStatuses && c.lastFetched == meta[c.id].lastFetched
    ensures forall k :: k in keys && meta[k].status !in TerminalStatuses ==>
      Candidate(k, meta[k].lastFetched) in Candidates(keys, meta)
    ensures Distinct(keys) ==> Distinct(Ids(Candidates(keys, meta), CandidateId))
  {
    if keys != [] {
      var init, k := keys[..|keys| - 1], keys[|keys| - 1];
      assert keys == init + [k];
      CandidatesExact(init, meta);
      if Distinct(keys) {
        assert Distinct(init) by {
          forall i, j | 0 <= i < j < |init| ensures init[i] != init[j] {
            assert init[i] == keys[i] && init[j] == keys[j];
          }
        }
        var cs := Candidates(init, meta);
        var ids := Ids(Candidates(keys, meta), CandidateId);
        if meta[k].status !in TerminalStatuses {
          forall i, j | 0 <= i < j < |ids| ensures ids[i] != ids[j] {
            if j == |cs| {
              assert cs[i] in cs;
              assert cs[i].id in init;
            } else {
              assert ids[i] == Ids(cs, CandidateId)[i] && ids[j] == Ids(cs, CandidateId)[j];
            }
          }
        } else {
          assert ids == Ids(cs, CandidateId);
        }
      }
    }
  }

  /** The candidate list after `candidates.sort(key=lambda x: x[1])`. */
  function SortedCandidates(bills: Dict<ManifestEntry>): seq<Candidate>
    requires bills.Valid()
  {
    SortBy(Candidates(bills.keys, bills.values), Staleness)
  }

  /**
   * The sorted candidates are non-terminal manifest keys with their `lastFetched`,
   * each key once, in non-decreasing `lastFetched` order.
   */
  lemma SortedCandidatesSound(bills: Dict<ManifestEntry>)
    requires bills.Valid()
    ensures forall c :: c in SortedCandidates(bills) ==>
      c.id in bills.values && bills.values[c.id].status !in TerminalStatuses
      && c.lastFetched == bills.values[c.id].lastFetched
    ensures Distinct(Ids(SortedCandidates(bills), CandidateId))
    ensures SortedBy(SortedCandidates(bills), Staleness)
  {
    var cs := Candidates(bills.keys, bills.values);
    var sorted := SortedCandidates(bills);
    CandidatesExact(bills.keys, bills.values);
    SortByCorrect(cs, Staleness);
    SortByPermutes(cs, Staleness);
    assert Distinct(cs) by {
      forall i, j | 0 <= i < j < |cs| ensures cs[i] != cs[j] {
        assert Ids(cs, CandidateId)[i] != Ids(cs, CandidateId)[j];
      }
    }
    SortByDistinct(cs, Staleness);
    var ids := Ids(sorted, CandidateId);
    forall i, j | 0 <= i < j < |ids| ensures ids[i] != ids[j] {
      assert sorted[i] in cs && sorted[j] in cs;
    }
  }

  /** Every non-terminal key is among the sorted candidates, and there are as many candidates as such keys. */
  lemma SortedCandidatesComplete(bills: Dict<ManifestEntry>)
    requires bills.Valid()
    ensures forall k :: k in NonTerminal(bills) ==> Candidate(k, bills.values[k].lastFetched) in SortedCandidates(bills)
    ensures |SortedCandidates(bills)| == |NonTerminal(bills)|
  {
    var cs := Candidates(bills.keys, bills.values);
    var sorted := SortedCandidates(bills);
    CandidatesExact(bills.keys, bills.values);
    SortByPermutes(cs, Staleness);
    SortedCandidatesSound(bills);
    var ids := Ids(sorted, CandidateId);
    forall k ensures k in Elements(ids) <==> k in NonTerminal(bills) {
      if k in NonTerminal(bills) {
        var c := Candidate(k, bills.values[k].lastFetched);
        assert c in sorted;
        var i :| 0 <= i < |sorted| && sorted[i] == c;
        assert ids[i] == k;
      }
      if k in ids {
        var i :| 0 <= i < |ids| && ids[i] == k;
        assert sorted[i] in sorted;
      }
    }
    assert Elements(ids) == NonTerminal(bills);
    ElementsCardinality(ids);
  }

  /**
   * Every selected id is a manifest key whose status is not terminal, no id is
   * selected twice, and the ids come oldest `lastFetched` first (a missing
   * `lastFetched` reads as "", which sorts first).
   */
  lemma SelectionSound(bills: Dict<ManifestEntry>, maxBatch: int)
    requires bills.Valid()
    ensures forall id :: id in Selection(bills, maxBatch) ==>
      id in bills.values && bills.values[id].status !in TerminalStatuses
    ensures Distinct(Selection(bills, maxBatch))
    ensures forall i, j :: 0 <= i < j < |Selection(bills, maxBatch)| ==>
      !Less(bills.values[Selection(bills, maxBatch)[j]].lastFetched,
            bills.values[Selection(bills, maxBatch)[i]].lastFetched)
  {
    var sorted := SortedCandidates(bills);
    var sel := Selection(bills, maxBatch);
    SortedCandidatesSound(bills);
    assert forall i :: 0 <= i < |sel| ==> sel[i] == sorted[i].id && sorted[i] in sorted;
    assert forall i, j :: 0 <= i < j < |sel| ==> sel[i] == Ids(sorted, CandidateId)[i] && sel[j] == Ids(sorted, CandidateId)[j];
    forall i, j | 0 <= i < j < |sel|
      ensures !Less(bills.values[sel[j]].lastFetched, bills.values[sel[i]].lastFetched)
    {
      assert !KeyLess(Staleness(sorted[j]), Staleness(sorted[i]));
    }
  }

  /**
   * With a batch size of at least 0, the selection has `min(max_batch, number of
   * non-terminal bills)` ids; an empty manifest gives none.
   */
  lemma SelectionSize(bills: Dict<ManifestEntry>, maxBatch: int)
    requires bills.Valid()
    ensures maxBatch >= 0 ==>
      |Selection(bills, maxBatch)| == if maxBatch < |NonTerminal(bills)| then maxBatch else |NonTerminal(bills)|
    ensures bills.keys == [] ==> Selection(bills, maxBatch) == []
  {
    SortedCandidatesComplete(bills);
  }

  /** A key left out of the selection sits at or after the end of the slice. */
  lemma UnselectedAfterSlice(bills: Dict<ManifestEntry>, maxBatch: int, p: nat)
    requires bills.Valid()
    requires p < |SortedCandidates(bills)|
    requires SortedCandidates(bills)[p].id !in Selection(bills, maxBatch)
    ensures p >= SliceEnd(maxBatch, |SortedCandidates(bills)|)
  {
    var sorted := SortedCandidates(bills);
    var m := SliceEnd(maxBatch, |sorted|);
    assert forall i :: 0 <= i < m ==> sorted[i].id == Selection(bills, maxBatch)[i];
  }

  /**
   * The selection is the stalest one: no non-terminal bill left out was fetched
   * strictly before a bill taken.
   */
  lemma SelectionStalest(bills: Dict<ManifestEntry>, maxBatch: int)
    requires bills.Valid()
    ensures forall k, id :: k in NonTerminal(bills) && k !in Selection(bills, maxBatch) && id in Selection(bills, maxBatch) ==>
      id in bills.values && !Less(bills.values[k].lastFetched, bills.values[id].lastFetched)
  {
    var sorted := SortedCandidates(bills);
    var m := SliceEnd(maxBatch, |sorted|);
    var sel := Selection(bills, maxBatch);
    SortedCandidatesSound(bills);
    SortedCandidatesComplete(bills);
    forall k, id | k in NonTerminal(bills) && k !in sel && id in sel
      ensures id in bills.values && !Less(bills.values[k].lastFetched, bills.values[id].lastFetched)
    {
      var c := Candidate(k, bills.values[k].lastFetched);
      var p :| 0 <= p < |sorted| && sorted[p] == c;
      var q :| 0 <= q < |sel| && sel[q] == id;
      assert sel[q] == sorted[q].id && sorted[q] in sorted;
      UnselectedAfterSlice(bills, maxBatch, p);
      assert !KeyLess(Staleness(sorted[p]), Staleness(sorted[q]));
    }
  }
}
