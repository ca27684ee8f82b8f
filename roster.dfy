/**
 * Tier 1 of the incremental run: the de-duplication at the end of
 * `find_new_bill_numbers`. The roster is the concatenation of what the three roster
 * calls returned (current year, previous year, prefiled); fetching it is outside the
 * model.
 */
module Roster {
  import opened Text
  import opened Collections

  /** One roster entry: its `bill_number` and its `bill_id` ("" when absent). */
  datatype RosterEntry = RosterEntry(billNumber: string, billId: string)

  /** `[e.get("bill_number") for e in roster]` */
  function Numbers(roster: seq<RosterEntry>): (r: seq<string>)
    ensures |r| == |roster|
    ensures forall i :: 0 <= i < |roster| ==> r[i] == roster[i].billNumber
  {
    seq(|roster|, i requires 0 <= i < |roster| => roster[i].billNumber)
  }

  /** Entry `i` is the first with its (non-empty) bill number. */
  predicate FirstWithNumber(roster: seq<RosterEntry>, i: int)
  {
    && 0 <= i < |roster|
    && roster[i].billNumber != ""
    && roster[i].billNumber !in Numbers(roster[..i])
  }

  /** Whether the manifest lacks the bill of an entry: its id with the spaces taken out is not a key. */
  predicate Unknown(e: RosterEntry, knownIds: set<string>)
  {
    RemoveSpaces(e.billId) !in knownIds
  }

  /** The numbers the de-duplication returns, entry by entry. */
  function NewNumbers(roster: seq<RosterEntry>, knownIds: set<string>): seq<string>
  {
    if roster == [] then []
    else
      var init, e := roster[..|roster| - 1], roster[|roster| - 1];
      NewNumbers(init, knownIds)
        + (if e.billNumber != "" && e.billNumber !in Numbers(init) && Unknown(e, knownIds)
           then [e.billNumber] else [])
  }

  /**
   * The loop: `seen` collects every non-empty number met so far, and a number is
   * returned the first time it is met when its entry's bill is not in the manifest.
   */
  method DedupNewNumbers(roster: seq<RosterEntry>, knownIds: set<string>) returns (numbers: seq<string>)
    ensures numbers == NewNumbers(roster, knownIds)
  {
    var seen: set<string> := {};
    numbers := [];
    var i := 0;
    while i < |roster|
      invariant 0 <= i <= |roster|
      invariant forall x :: x in seen <==> x != "" && x in Numbers(roster[..i])
      invariant numbers == NewNumbers(roster[..i], knownIds)
    {
      var e := roster[i];
      assert roster[..i + 1][..i] == roster[..i];
      assert Numbers(roster[..i + 1]) == Numbers(roster[..i]) + [e.billNumber];
      if e.billNumber != "" && e.billNumber !in seen {
        seen := seen + {e.billNumber};
        var billId := RemoveSpaces(e.billId);
        if billId !in knownIds {
          numbers := numbers + [e.billNumber];
        }
      }
      i := i + 1;
    }
    assert roster[..|roster|] == roster;
  }

  /** Every returned number is a non-empty number of the roster. */
  lemma {:induction false} NewNumbersFromRoster(roster: seq<RosterEntry>, knownIds: set<string>)
    ensures forall x :: x in NewNumbers(roster, knownIds) ==> x != "" && x in Numbers(roster)
  {
    if roster != [] {
      var init := roster[..|roster| - 1];
      NewNumbersFromRoster(init, knownIds);
      assert Numbers(roster) == Numbers(init) + [roster[|roster| - 1].billNumber];
    }
  }

  /** No number is returned twice. */
  lemma {:induction false} NewNumbersDistinct(roster: seq<RosterEntry>, knownIds: set<string>)
    ensures Distinct(NewNumbers(roster, knownIds))
  {
    if roster != [] {
      var init, e := roster[..|roster| - 1], roster[|roster| - 1];
      NewNumbersDistinct(init, knownIds);
      NewNumbersFromRoster(init, knownIds);
      var s := NewNumbers(init, knownIds);
      if e.billNumber != "" && e.billNumber !in Numbers(init) && Unknown(e, knownIds) {
        var r := s + [e.billNumber];
        forall i, j | 0 <= i < j < |r| ensures r[i] != r[j] {
          if j == |s| { assert r[i] == s[i] && s[i] in s; }
        }
      }
    }
  }

  /**
   * A number is returned exactly when the first roster entry carrying it has a bill
   * the manifest does not know; later entries with the same number are never looked at.
   */
  lemma {:induction false} NewNumbersExact(roster: seq<RosterEntry>, knownIds: set<string>)
    ensures forall x :: x in NewNumbers(roster, knownIds) <==>
      exists i :: FirstWithNumber(roster, i) && roster[i].billNumber == x && Unknown(roster[i], knownIds)
  {
    if roster != [] {
      var init, e := roster[..|roster| - 1], roster[|roster| - 1];
      var n := |roster| - 1;
      NewNumbersExact(init, knownIds);
      assert forall i :: 0 <= i < n ==> roster[..i] == init[..i] && roster[i] == init[i];
      assert roster[..n] == init;
      forall x ensures x in NewNumbers(roster, knownIds) <==>
        exists i :: FirstWithNumber(roster, i) && roster[i].billNumber == x && Unknown(roster[i], knownIds)
      {
        if x in NewNumbers(init, knownIds) {
          var i :| FirstWithNumber(init, i) && init[i].billNumber == x && Unknown(init[i], knownIds);
          assert FirstWithNumber(roster, i);
        } else if exists i :: FirstWithNumber(roster, i) && roster[i].billNumber == x && Unknown(roster[i], knownIds) {
          var i :| FirstWithNumber(roster, i) && roster[i].billNumber == x && Unknown(roster[i], knownIds);
          if i < n {
            assert FirstWithNumber(init, i);
            assert false;
          }
        }
      }
    }
  }
}
