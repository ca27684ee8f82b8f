/**
 * `merge_bills`: the bills of `bills.json` with the freshly fetched ones folded in.
 * A bill whose id was fetched is replaced where it stands; fetched bills with an id
 * not seen in the list are appended in the order they were fetched.
 */
module Merge {
  import opened Collections
  import opened Dicts
  import opened IncrementalData

  /** The fetched bills are filed under their own ids, as the run files them. */
  ghost predicate KeyedById(updated: Dict<BillRecord>)
  {
    forall k :: k in updated.values ==> updated.values[k].id == k
  }

  /** The first loop's output: each existing bill, or its fetched replacement. */
  function Replaced(existing: seq<BillRecord>, updated: map<string, BillRecord>): (r: seq<BillRecord>)
    ensures |r| == |existing|
    ensures forall i :: 0 <= i < |existing| ==>
      r[i] == if existing[i].id in updated then updated[existing[i].id] else existing[i]
  {
    seq(|existing|, i requires 0 <= i < |existing| =>
      if existing[i].id in updated then updated[existing[i].id] else existing[i])
  }

  /** The second loop's output: the fetched bills, in key order, whose key is not in `known`. */
  function Appended(keys: seq<string>, updated: map<string, BillRecord>, known: seq<string>): seq<BillRecord>
    requires forall k :: k in keys ==> k in updated
  {
    if keys == [] then []
    else
      var init, k := keys[..|keys| - 1], keys[|keys| - 1];
      Appended(init, updated, known) + (if k !in known then [updated[k]] else [])
  }

  /** What `merge_bills(existing, updated)` returns. */
  function Merged(existing: seq<BillRecord>, updated: Dict<BillRecord>): seq<BillRecord>
    requires updated.Valid()
  {
    Replaced(existing, updated.values) + Appended(updated.keys, updated.values, BillIds(existing))
  }

  /** The two loops, with `seen_ids` collecting the ids of the existing bills. */
  method MergeBills(existing: seq<BillRecord>, updated: Dict<BillRecord>) returns (result: seq<BillRecord>)
    requires updated.Valid()
    ensures result == Merged(existing, updated)
  {
    result := [];
    var seenIds: set<string> := {};
    var i := 0;
    while i < |existing|
      invariant 0 <= i <= |existing|
      invariant result == Replaced(existing[..i], updated.values)
      invariant forall x :: x in seenIds <==> x in BillIds(existing[..i])
    {
      var bill := existing[i];
      if bill.id in updated.values {
        result := result + [updated.values[bill.id]];
      } else {
        result := result + [bill];
      }
      seenIds := seenIds + {bill.id};
      assert BillIds(existing[..i + 1]) == BillIds(existing[..i]) + [bill.id];
      i := i + 1;
    }
    assert existing[..|existing|] == existing;
    ghost var replaced := result;
    var j := 0;
    while j < |updated.keys|
      invariant 0 <= j <= |updated.keys|
      invariant result == replaced + Appended(updated.keys[..j], updated.values, BillIds(existing))
    {
      var billId := updated.keys[j];
      assert updated.keys[..j + 1][..j] == updated.keys[..j];
      if billId !in seenIds {
        result := result + [updated.values[billId]];
      }
      j := j + 1;
    }
    assert updated.keys[..|updated.keys|] == updated.keys;
  }

  /** The appended bills are exactly the fetched bills filed under a key outside `known`; with distinct keys, one per such key. */
  lemma {:induction false} AppendedExact(keys: seq<string>, updated: map<string, BillRecord>, known: seq<string>)
    requires forall k :: k in keys ==> k in updated
    ensures forall x :: x in Appended(keys, updated, known) <==>
      exists k :: k in keys && k !in known && updated[k] == x
    ensures |Appended(keys, updated, known)| <= |keys|
    ensures Distinct(keys) ==>
      |Appended(keys, updated, known)| == |set k | k in keys && k !in known|
  {
    if keys != [] {
      var init, k := keys[..|keys| - 1], keys[|keys| - 1];
      assert keys == init + [k];
      AppendedExact(init, updated, known);
      if Distinct(keys) {
        assert Distinct(init) by {
          forall i, j | 0 <= i < j < |init| ensures init[i] != init[j] {
            assert init[i] == keys[i] && init[j] == keys[j];
          }
        }
        assert k !in init by {
          forall i | 0 <= i < |init| ensures init[i] != k {
            assert init[i] == keys[i] && k == keys[|keys| - 1];
          }
        }
        var before := set x | x in init && x !in known;
        var after := set x | x in keys && x !in known;
        if k !in known {
          assert after == before + {k};
        } else {
          assert after == before;
        }
      }
    }
  }

  /**
   * The appended bills follow the order of the fetched keys: appending over two runs of
   * keys is appending over each in turn (and `AppendedOne` gives a single key's share).
   */
  lemma {:induction false} AppendedInKeyOrder(a: seq<string>, b: seq<string>, updated: map<string, BillRecord>, known: seq<string>)
    requires forall k :: k in a + b ==> k in updated
    ensures Appended(a + b, updated, known) == Appended(a, updated, known) + Appended(b, updated, known)
    decreases |b|
  {
    if b == [] {
      assert a + b == a;
    } else {
      var init, k := b[..|b| - 1], b[|b| - 1];
      var ab := a + b;
      assert ab[..|ab| - 1] == a + init;
      assert ab[|ab| - 1] == k;
      assert forall x :: x in a + init ==> x in ab;
      AppendedInKeyOrder(a, init, updated, known);
      var tail := if k !in known then [updated[k]] else [];
      assert Appended(ab, updated, known) == Appended(a + init, updated, known) + tail;
      assert Appended(b, updated, known) == Appended(init, updated, known) + tail;
    }
  }

  /** A single fetched key contributes its bill exactly when the key is not already known. */
  lemma AppendedOne(k: string, updated: map<string, BillRecord>, known: seq<string>)
    requires k in updated
    ensures Appended([k], updated, known) == if k in known then [] else [updated[k]]
  {
    assert [k][..0] == [];
  }

  /** With the fetched bills filed under their ids, the appended ids are new and, like the keys, distinct. */
  lemma {:induction false} AppendedIds(keys: seq<string>, updated: map<string, BillRecord>, known: seq<string>)
    requires forall k :: k in keys ==> k in updated && updated[k].id == k
    ensures forall x :: x in BillIds(Appended(keys, updated, known)) ==> x in keys && x !in known
    ensures Distinct(keys) ==> Distinct(BillIds(Appended(keys, updated, known)))
  {
    if keys != [] {
      var init, k := keys[..|keys| - 1], keys[|keys| - 1];
      assert keys == init + [k];
      AppendedIds(init, updated, known);
      var a := Appended(init, updated, known);
      if k !in known {
        assert BillIds(Appended(keys, updated, known)) == BillIds(a) + [k];
      } else {
        assert BillIds(Appended(keys, updated, known)) == BillIds(a);
      }
      if Distinct(keys) {
        assert Distinct(init) by {
          forall i, j | 0 <= i < j < |init| ensures init[i] != init[j] {
            assert init[i] == keys[i] && init[j] == keys[j];
          }
        }
        assert k !in init by {
          forall i | 0 <= i < |init| ensures init[i] != k {
            assert init[i] == keys[i] && k == keys[|keys| - 1];
          }
        }
        var ids := BillIds(Appended(keys, updated, known));
        forall i, j | 0 <= i < j < |ids| ensures ids[i] != ids[j] {
          assert BillIds(a)[i] in BillIds(a);
          if j < |a| { assert ids[i] == BillIds(a)[i] && ids[j] == BillIds(a)[j]; }
        }
      }
    }
  }

  /**
   * The shape of the merge: each existing bill, or the fetched bill with its id, in
   * place; then the fetched bills whose id did not occur, one for each such id. So
   * the merge never shortens the list.
   */
  lemma MergedShape(existing: seq<BillRecord>, updated: Dict<BillRecord>)
    requires updated.Valid()
    ensures |Merged(existing, updated)| == |existing| + |set k | k in updated.keys && k !in BillIds(existing)|
    ensures |Merged(existing, updated)| >= |existing|
    ensures forall i :: 0 <= i < |existing| ==>
      Merged(existing, updated)[i]
        == if existing[i].id in updated.values then updated.values[existing[i].id] else existing[i]
    ensures forall x :: x in Merged(existing, updated)[|existing|..] <==>
      exists k :: k in updated.keys && k !in BillIds(existing) && updated.values[k] == x
  {
    AppendedExact(updated.keys, updated.values, BillIds(existing));
    assert Merged(existing, updated)[|existing|..] == Appended(updated.keys, updated.values, BillIds(existing));
  }

  /**
   * The merge drops no bill: with the fetched bills filed under their ids, every
   * existing bill keeps its id and place, and every fetched id is in the result.
   */
  lemma MergedKeepsIds(existing: seq<BillRecord>, updated: Dict<BillRecord>)
    requires updated.Valid() && KeyedById(updated)
    ensures forall i :: 0 <= i < |existing| ==> Merged(existing, updated)[i].id == existing[i].id
    ensures forall k :: k in updated.values ==> k in BillIds(Merged(existing, updated))
  {
    var m := Merged(existing, updated);
    AppendedExact(updated.keys, updated.values, BillIds(existing));
    forall k | k in updated.values ensures k in BillIds(m) {
      if k in BillIds(existing) {
        var i :| 0 <= i < |existing| && BillIds(existing)[i] == k;
        assert BillIds(m)[i] == k;
      } else {
        var x := updated.values[k];
        assert x in m[|existing|..];
        var j :| |existing| <= j < |m| && m[j] == x;
        assert BillIds(m)[j] == k;
      }
    }
  }

  /**
   * No id repeats after the merge when none repeated before and the fetched bills
   * are filed under their ids.
   */
  lemma MergedDistinct(existing: seq<BillRecord>, updated: Dict<BillRecord>)
    requires updated.Valid() && KeyedById(updated)
    requires Distinct(BillIds(existing))
    ensures Distinct(BillIds(Merged(existing, updated)))
  {
    var m := Merged(existing, updated);
    var a := Appended(updated.keys, updated.values, BillIds(existing));
    AppendedIds(updated.keys, updated.values, BillIds(existing));
    MergedKeepsIds(existing, updated);
    var ids := BillIds(m);
    assert forall i :: 0 <= i < |existing| ==> ids[i] == BillIds(existing)[i];
    assert forall j :: |existing| <= j < |m| ==> ids[j] == BillIds(a)[j - |existing|];
    forall i, j | 0 <= i < j < |ids| ensures ids[i] != ids[j] {
      if j >= |existing| {
        assert BillIds(a)[j - |existing|] in BillIds(a);
        if i >= |existing| {
          assert BillIds(a)[i - |existing|] != BillIds(a)[j - |existing|];
        } else {
          assert ids[i] in BillIds(existing);
        }
      }
    }
  }
}
