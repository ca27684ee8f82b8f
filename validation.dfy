/**
 * The publishing gate of scripts/validate_bills_json.py: `validate` reads `bills.json`
 * and, optionally, `manifest.json` and returns the list of problems it found, in the
 * order of its six checks. An empty list means the dataset may be published.
 *
 * Reading the files is not modelled; what the reads produce is: the bills file is
 * absent, unparseable, or a parsed document, and the manifest is absent, unreadable
 * (its parse error is swallowed) or a parsed object.
 */
module Validation {
  import opened Wrappers
  import opened Collections

  /** A scalar JSON value as Python loads it: a string, an integer or `None`. */
  datatype Value = Str(s: string) | Int(i: int) | Null

  /** Python truthiness of a scalar: "", 0 and None are false. */
  predicate Truthy(v: Value)
  {
    match v
    case Str(s) => s != []
    case Int(i) => i != 0
    case Null => false
  }

  /** One bill: a JSON object. */
  type Bill = map<string, Value>

  /** The top-level object of `bills.json`: its `bills` and `totalBills` members, when present. */
  datatype Document = Document(bills: Option<seq<Bill>>, totalBills: Option<Value>)

  /** What reading `bills.json` produced. */
  datatype BillsFile = Absent | Unparseable | Parsed(doc: Document)

  /** What reading `manifest.json` produced: the `billCount` member when it parsed. */
  datatype ManifestFile = NoManifest | Unreadable | ManifestDoc(billCount: Option<int>)

  /** One entry of the returned list; the source renders each as a message string. */
  datatype ValidationError =
    | NotFound
    | InvalidJson
    | CountMismatch(totalBills: Value, actual: nat)
    | MissingFields(index: nat, id: Value, missing: set<string>)
    | DuplicateId(id: Value)
    | InvalidStatus(id: Value, status: Value)
    | CountDropped(manifestCount: int, actual: nat)

  const RequiredFields: set<string> := {"id", "number", "title", "status", "priority", "topic", "session"}

  const ValidStatuses: set<string> := {
    "prefiled", "introduced", "committee", "floor",
    "passed_origin", "opposite_chamber", "passed_both",
    "governor", "enacted", "partial_veto", "vetoed", "failed"
  }

  /** `data.get("bills", [])` */
  function BillsOf(doc: Document): seq<Bill>
  {
    doc.bills.GetOr([])
  }

  /** `data.get("totalBills", 0)` */
  function TotalOf(doc: Document): Value
  {
    doc.totalBills.GetOr(Int(0))
  }

  /** `b.get("id")`: an absent id and a JSON null id are both `None`. */
  function IdOf(b: Bill): Value
  {
    if "id" in b then b["id"] else Null
  }

  /** `b.get('id', '?')`, the id as error messages show it. */
  function ShownId(b: Bill): Value
  {
    if "id" in b then b["id"] else Str("?")
  }

  /** `b.get("status", "")` */
  function StatusOf(b: Bill): Value
  {
    if "status" in b then b["status"] else Str("")
  }

  /** `[b.get("id") for b in bills]` */
  function Ids(bills: seq<Bill>): (ids: seq<Value>)
    ensures |ids| == |bills|
    ensures forall i :: 0 <= i < |bills| ==> ids[i] == IdOf(bills[i])
  {
    seq(|bills|, i requires 0 <= i < |bills| => IdOf(bills[i]))
  }

  predicate HasRequiredFields(b: Bill)
  {
    RequiredFields <= b.Keys
  }

  /** The status check lets a bill through: its status is empty/absent, or one of the twelve. */
  predicate StatusAccepted(v: Value)
  {
    !Truthy(v) || (v.Str? && v.s in ValidStatuses)
  }

  /** The data-loss guard: a manifest was read, its positive `billCount` exceeds the bill count by more than 10%. */
  predicate LossGuardTrips(manifest: ManifestFile, n: nat)
  {
    && manifest.ManifestDoc?
    && manifest.billCount.GetOr(0) > 0
    && 10 * n < 9 * manifest.billCount.GetOr(0)
  }

  // ---------------------------------------------------------------------------
  // The expected list, check by check
  // ---------------------------------------------------------------------------

  /** Check 2: `totalBills` against the number of bills. */
  function CountErrors(doc: Document): seq<ValidationError>
  {
    var n := |BillsOf(doc)|;
    if TotalOf(doc) != Int(n) then [CountMismatch(TotalOf(doc), n)] else []
  }

  /** Check 3 on one bill at position `i`. */
  function FieldError(i: nat, b: Bill): seq<ValidationError>
  {
    var missing := RequiredFields - b.Keys;
    if missing != {} then [MissingFields(i, ShownId(b), missing)] else []
  }

  /** Check 3: the bills lacking a required field, in bill order. */
  function FieldErrors(bills: seq<Bill>): seq<ValidationError>
  {
    if bills == [] then []
    else FieldErrors(bills[..|bills| - 1]) + FieldError(|bills| - 1, bills[|bills| - 1])
  }

  /** Check 4: one error for every id that already occurred earlier in the list. */
  function DuplicateErrors(ids: seq<Value>): seq<ValidationError>
  {
    if ids == [] then []
    else
      var init, last := ids[..|ids| - 1], ids[|ids| - 1];
      DuplicateErrors(init) + (if last in init then [DuplicateId(last)] else [])
  }

  /** Check 5 on one bill. */
  function StatusError(b: Bill): seq<ValidationError>
  {
    if !StatusAccepted(StatusOf(b)) then [InvalidStatus(ShownId(b), StatusOf(b))] else []
  }

  /** Check 5: the bills whose status is non-empty and not one of the twelve, in bill order. */
  function StatusErrors(bills: seq<Bill>): seq<ValidationError>
  {
    if bills == [] then []
    else StatusErrors(bills[..|bills| - 1]) + StatusError(bills[|bills| - 1])
  }

  /** Check 6: the data-loss guard. */
  function LossErrors(manifest: ManifestFile, n: nat): seq<ValidationError>
  {
    if LossGuardTrips(manifest, n) then [CountDropped(manifest.billCount.GetOr(0), n)] else []
  }

  /** Everything `validate` returns, in order. */
  function ValidationErrors(file: BillsFile, manifest: ManifestFile): seq<ValidationError>
  {
    match file
    case Absent => [NotFound]
    case Unparseable => [InvalidJson]
    case Parsed(doc) =>
      var bills := BillsOf(doc);
      CountErrors(doc) + FieldErrors(bills) + DuplicateErrors(Ids(bills))
        + StatusErrors(bills) + LossErrors(manifest, |bills|)
  }

  // ---------------------------------------------------------------------------
  // validate()
  // ---------------------------------------------------------------------------

  /** Check 3 as the loop in `validate` runs it. */
  method CheckFields(bills: seq<Bill>) returns (errors: seq<ValidationError>)
    ensures errors == FieldErrors(bills)
  {
    errors := [];
    var i := 0;
    while i < |bills|
      invariant 0 <= i <= |bills|
      invariant errors == FieldErrors(bills[..i])
    {
      var missing := RequiredFields - bills[i].Keys;
      if missing != {} {
        errors := errors + [MissingFields(i, ShownId(bills[i]), missing)];
      }
      assert bills[..i + 1][..i] == bills[..i];
      i := i + 1;
    }
    assert bills[..|bills|] == bills;
  }

  /** Check 4 as the loop in `validate` runs it, growing the set of ids seen so far. */
  method CheckDuplicates(ids: seq<Value>) returns (errors: seq<ValidationError>)
    ensures errors == DuplicateErrors(ids)
  {
    errors := [];
    var seen: set<Value> := {};
    var j := 0;
    while j < |ids|
      invariant 0 <= j <= |ids|
      invariant forall x :: x in seen <==> x in ids[..j]
      invariant errors == DuplicateErrors(ids[..j])
    {
      var id := ids[j];
      assert ids[..j + 1][..j] == ids[..j];
      if id in seen {
        errors := errors + [DuplicateId(id)];
      }
      seen := seen + {id};
      assert ids[..j + 1] == ids[..j] + [id];
      j := j + 1;
    }
    assert ids[..|ids|] == ids;
  }

  /** Check 5 as the loop in `validate` runs it. */
  method CheckStatuses(bills: seq<Bill>) returns (errors: seq<ValidationError>)
    ensures errors == StatusErrors(bills)
  {
    errors := [];
    var k := 0;
    while k < |bills|
      invariant 0 <= k <= |bills|
      invariant errors == StatusErrors(bills[..k])
    {
      var status := StatusOf(bills[k]);
      if Truthy(status) && !(status.Str? && status.s in ValidStatuses) {
        errors := errors + [InvalidStatus(ShownId(bills[k]), status)];
      }
      assert bills[..k + 1][..k] == bills[..k];
      k := k + 1;
    }
    assert bills[..|bills|] == bills;
  }

  /**
   * `validate`: the early exits return a single error and run no other check;
   * otherwise the errors of checks 2 to 6 are appended in order.
   */
  method Validate(file: BillsFile, manifest: ManifestFile) returns (errors: seq<ValidationError>)
    ensures errors == ValidationErrors(file, manifest)
    ensures file.Absent? ==> errors == [NotFound]
    ensures file.Unparseable? ==> errors == [InvalidJson]
  {
    if file.Absent? {
      return [NotFound];
    }
    if file.Unparseable? {
      return [InvalidJson];
    }
    var doc := file.doc;
    var bills := BillsOf(doc);
    var total := TotalOf(doc);
    errors := [];
    if total != Int(|bills|) {
      errors := errors + [CountMismatch(total, |bills|)];
    }
    assert errors == CountErrors(doc);
    var fieldErrors := CheckFields(bills);
    errors := errors + fieldErrors;
    var duplicateErrors := CheckDuplicates(Ids(bills));
    errors := errors + duplicateErrors;
    var statusErrors := CheckStatuses(bills);
    errors := errors + statusErrors;
    assert errors == CountErrors(doc) + FieldErrors(bills) + DuplicateErrors(Ids(bills)) + StatusErrors(bills);
    if manifest.ManifestDoc? {
      var count := manifest.billCount.GetOr(0);
      if count > 0 && 10 * |bills| < 9 * count {
        errors := errors + [CountDropped(count, |bills|)];
      }
    }
    assert errors == CountErrors(doc) + FieldErrors(bills) + DuplicateErrors(Ids(bills)) + StatusErrors(bills) + LossErrors(manifest, |bills|);
  }

  // ---------------------------------------------------------------------------
  // What the list means
  // ---------------------------------------------------------------------------

  /** Check 3 reports exactly one error per bill that lacks a required field, naming what it lacks, in bill order. */
  lemma {:induction false} FieldErrorsExact(bills: seq<Bill>)
    ensures forall k :: 0 <= k < |FieldErrors(bills)| ==>
      && FieldErrors(bills)[k].MissingFields?
      && FieldErrors(bills)[k].index < |bills|
      && FieldErrors(bills)[k].missing == RequiredFields - bills[FieldErrors(bills)[k].index].Keys
      && FieldErrors(bills)[k].missing != {}
    ensures forall k, l :: 0 <= k < l < |FieldErrors(bills)| ==>
      FieldErrors(bills)[k].index < FieldErrors(bills)[l].index
    ensures forall i :: 0 <= i < |bills| && !HasRequiredFields(bills[i]) ==>
      MissingFields(i, ShownId(bills[i]), RequiredFields - bills[i].Keys) in FieldErrors(bills)
  {
    if bills != [] {
      var init := bills[..|bills| - 1];
      FieldErrorsExact(init);
      assert forall i :: 0 <= i < |init| ==> init[i] == bills[i];
      var r, ri := FieldErrors(bills), FieldErrors(init);
      var last := FieldError(|bills| - 1, bills[|bills| - 1]);
      assert r == ri + last;
      assert forall k :: 0 <= k < |ri| ==> r[k] == ri[k] && ri[k].index < |init|;
      assert forall k :: |ri| <= k < |r| ==> r[k] == last[k - |ri|];
      forall i | 0 <= i < |bills| && !HasRequiredFields(bills[i])
        ensures MissingFields(i, ShownId(bills[i]), RequiredFields - bills[i].Keys) in r
      {
        if i < |init| {
          assert MissingFields(i, ShownId(init[i]), RequiredFields - init[i].Keys) in ri;
        } else {
          assert i == |bills| - 1;
          var f :| f in RequiredFields && f !in bills[i].Keys;
          assert f in RequiredFields - bills[i].Keys;
          assert last == [MissingFields(i, ShownId(bills[i]), RequiredFields - bills[i].Keys)];
        }
      }
    }
  }

  /** The positions of the bills whose status check 5 rejects, in bill order. */
  function RejectedStatusAt(bills: seq<Bill>): (at: seq<nat>)
    ensures forall k :: 0 <= k < |at| ==> at[k] < |bills|
  {
    if bills == [] then []
    else
      RejectedStatusAt(bills[..|bills| - 1])
        + (if !StatusAccepted(StatusOf(bills[|bills| - 1])) then [|bills| - 1] else [])
  }

  /** Check 5 reports only non-empty statuses outside the twelve, and every bill that has one. */
  lemma {:induction false} StatusErrorsReported(bills: seq<Bill>)
    ensures forall k :: 0 <= k < |StatusErrors(bills)| ==>
      && StatusErrors(bills)[k].InvalidStatus?
      && Truthy(StatusErrors(bills)[k].status)
      && !StatusAccepted(StatusErrors(bills)[k].status)
    ensures forall i :: 0 <= i < |bills| && !StatusAccepted(StatusOf(bills[i])) ==>
      InvalidStatus(ShownId(bills[i]), StatusOf(bills[i])) in StatusErrors(bills)
    ensures |StatusErrors(bills)| <= |bills|
  {
    if bills != [] {
      var init := bills[..|bills| - 1];
      StatusErrorsReported(init);
      assert forall i :: 0 <= i < |init| ==> init[i] == bills[i];
    }
  }

  /** The rejected positions are increasing, each holds a rejected status, and every rejected status is at one. */
  lemma {:induction false} RejectedStatusAtExact(bills: seq<Bill>)
    ensures forall k :: 0 <= k < |RejectedStatusAt(bills)| ==> !StatusAccepted(StatusOf(bills[RejectedStatusAt(bills)[k]]))
    ensures forall k, l :: 0 <= k < l < |RejectedStatusAt(bills)| ==> RejectedStatusAt(bills)[k] < RejectedStatusAt(bills)[l]
    ensures forall i :: 0 <= i < |bills| && !StatusAccepted(StatusOf(bills[i])) ==> i in RejectedStatusAt(bills)
  {
    if bills != [] {
      var n := |bills| - 1;
      var init := bills[..n];
      RejectedStatusAtExact(init);
      var at, ai := RejectedStatusAt(bills), RejectedStatusAt(init);
      assert at == ai + (if !StatusAccepted(StatusOf(bills[n])) then [n] else []);
      forall k | 0 <= k < |ai| ensures at[k] == ai[k] && init[ai[k]] == bills[ai[k]] {
      }
      forall i | 0 <= i < |bills| && !StatusAccepted(StatusOf(bills[i])) ensures i in at {
        if i < n {
          assert init[i] == bills[i];
          assert i in ai;
        } else {
          assert at[|ai|] == n;
        }
      }
    }
  }

  /** Error `k` of check 5 is the one for the `k`-th rejected position. */
  lemma {:induction false} StatusErrorsMatch(bills: seq<Bill>)
    ensures |StatusErrors(bills)| == |RejectedStatusAt(bills)|
    ensures forall k :: 0 <= k < |RejectedStatusAt(bills)| ==>
      StatusErrors(bills)[k]
        == InvalidStatus(ShownId(bills[RejectedStatusAt(bills)[k]]), StatusOf(bills[RejectedStatusAt(bills)[k]]))
  {
    if bills != [] {
      var n := |bills| - 1;
      var init := bills[..n];
      StatusErrorsMatch(init);
      var at, ai := RejectedStatusAt(bills), RejectedStatusAt(init);
      var r, ri := StatusErrors(bills), StatusErrors(init);
      assert at == ai + (if !StatusAccepted(StatusOf(bills[n])) then [n] else []);
      assert r == ri + StatusError(bills[n]);
      forall k | 0 <= k < |ai| ensures at[k] == ai[k] && r[k] == ri[k] && init[ai[k]] == bills[ai[k]] {
      }
    }
  }

  /**
   * Check 5 reports exactly the bills whose status is non-empty and outside the
   * twelve: error `k` names the `k`-th such bill, with its id and status, so the errors
   * come in bill order, one for each such bill and no other.
   */
  lemma StatusErrorsExact(bills: seq<Bill>)
    ensures |StatusErrors(bills)| == |RejectedStatusAt(bills)|
    ensures forall k :: 0 <= k < |RejectedStatusAt(bills)| ==>
      StatusErrors(bills)[k]
        == InvalidStatus(ShownId(bills[RejectedStatusAt(bills)[k]]), StatusOf(bills[RejectedStatusAt(bills)[k]]))
    ensures forall k :: 0 <= k < |RejectedStatusAt(bills)| ==> !StatusAccepted(StatusOf(bills[RejectedStatusAt(bills)[k]]))
    ensures forall k, l :: 0 <= k < l < |RejectedStatusAt(bills)| ==> RejectedStatusAt(bills)[k] < RejectedStatusAt(bills)[l]
    ensures forall i :: 0 <= i < |bills| && !StatusAccepted(StatusOf(bills[i])) ==> i in RejectedStatusAt(bills)
  {
    RejectedStatusAtExact(bills);
    StatusErrorsMatch(bills);
  }

  /** The number of "Duplicate" errors is the number of ids minus the number of distinct ids. */
  lemma {:induction false} DuplicateErrorsCount(ids: seq<Value>)
    ensures |DuplicateErrors(ids)| == |ids| - |Elements(ids)|
  {
    if ids != [] {
      var init, last := ids[..|ids| - 1], ids[|ids| - 1];
      DuplicateErrorsCount(init);
      assert ids == init + [last];
      assert Elements(ids) == Elements(init) + {last};
      if last in init {
        assert Elements(ids) == Elements(init);
      } else {
        assert |Elements(ids)| == |Elements(init)| + 1;
      }
    }
  }

  /** No "Duplicate" error exactly when the ids are pairwise different (missing ids all count as `None`). */
  lemma DuplicateErrorsEmptyIff(ids: seq<Value>)
    ensures DuplicateErrors(ids) == [] <==> Distinct(ids)
  {
    DuplicateErrorsCount(ids);
    ElementsCardinality(ids);
  }

  /** Every "Duplicate" error names an id that occurs at least twice. */
  lemma {:induction false} DuplicateErrorsRepeated(ids: seq<Value>)
    ensures forall e :: e in DuplicateErrors(ids) ==>
      e.DuplicateId? && exists a, b :: 0 <= a < b < |ids| && ids[a] == e.id && ids[b] == e.id
  {
    if ids != [] {
      var init, last := ids[..|ids| - 1], ids[|ids| - 1];
      DuplicateErrorsRepeated(init);
      forall e | e in DuplicateErrors(ids)
        ensures e.DuplicateId? && exists a, b :: 0 <= a < b < |ids| && ids[a] == e.id && ids[b] == e.id
      {
        if e in DuplicateErrors(init) {
          var a, b :| 0 <= a < b < |init| && init[a] == e.id && init[b] == e.id;
          assert ids[a] == e.id && ids[b] == e.id;
        } else {
          assert e == DuplicateId(last) && last in init;
          var a :| 0 <= a < |init| && init[a] == last;
          assert ids[a] == e.id && ids[|ids| - 1] == e.id;
        }
      }
    }
  }

  /** The count check fires exactly when `totalBills` (0 when absent) differs from the number of bills. */
  lemma CountCheckIff(doc: Document, manifest: ManifestFile)
    ensures CountMismatch(TotalOf(doc), |BillsOf(doc)|) in ValidationErrors(Parsed(doc), manifest)
      <==> TotalOf(doc) != Int(|BillsOf(doc)|)
  {
    var bills := BillsOf(doc);
    var c, f, d, st, l := CountErrors(doc), FieldErrors(bills), DuplicateErrors(Ids(bills)),
      StatusErrors(bills), LossErrors(manifest, |bills|);
    assert ValidationErrors(Parsed(doc), manifest) == c + f + d + st + l;
    FieldErrorsExact(bills);
    StatusErrorsReported(bills);
    DuplicateErrorsRepeated(Ids(bills));
    var e := CountMismatch(TotalOf(doc), |bills|);
    assert e !in f && e !in d && e !in st && e !in l;
  }

  /** The loss guard fires exactly when a manifest was read and its positive `billCount` exceeds the bill count by more than 10%. */
  lemma LossCheckIff(doc: Document, manifest: ManifestFile)
    ensures (exists e :: e in ValidationErrors(Parsed(doc), manifest) && e.CountDropped?)
      <==> LossGuardTrips(manifest, |BillsOf(doc)|)
    ensures LossGuardTrips(manifest, |BillsOf(doc)|) ==>
      CountDropped(manifest.billCount.GetOr(0), |BillsOf(doc)|) in ValidationErrors(Parsed(doc), manifest)
  {
    var bills := BillsOf(doc);
    var c, f, d, st, l := CountErrors(doc), FieldErrors(bills), DuplicateErrors(Ids(bills)),
      StatusErrors(bills), LossErrors(manifest, |bills|);
    assert ValidationErrors(Parsed(doc), manifest) == c + f + d + st + l;
    FieldErrorsExact(bills);
    StatusErrorsReported(bills);
    DuplicateErrorsRepeated(Ids(bills));
    assert forall e: ValidationError :: e in c + f + d + st ==> !e.CountDropped?;
    forall e: ValidationError | e in c + f + d + st + l && e.CountDropped?
      ensures LossGuardTrips(manifest, |bills|)
    {
      assert e in l;
    }
    if LossGuardTrips(manifest, |bills|) {
      assert l[0] in c + f + d + st + l;
    }
  }

  /** A bills list without `totalBills` fails the count check as soon as it holds a bill. */
  lemma MissingTotalFailsCount(doc: Document, manifest: ManifestFile)
    requires doc.totalBills == None && |BillsOf(doc)| > 0
    ensures CountMismatch(Int(0), |BillsOf(doc)|) in ValidationErrors(Parsed(doc), manifest)
  {
    assert ValidationErrors(Parsed(doc), manifest)[0] == CountMismatch(Int(0), |BillsOf(doc)|);
  }

  /** Check 3 is silent exactly when every bill has all seven required fields. */
  lemma FieldErrorsEmptyIff(bills: seq<Bill>)
    ensures FieldErrors(bills) == [] <==> forall i :: 0 <= i < |bills| ==> HasRequiredFields(bills[i])
  {
    FieldErrorsExact(bills);
    var r := FieldErrors(bills);
    if r != [] {
      assert r[0].MissingFields? && r[0].index < |bills|;
      assert !HasRequiredFields(bills[r[0].index]);
    }
  }

  /** Check 5 is silent exactly when every status is empty, absent or one of the twelve. */
  lemma StatusErrorsEmptyIff(bills: seq<Bill>)
    ensures StatusErrors(bills) == [] <==> forall i :: 0 <= i < |bills| ==> StatusAccepted(StatusOf(bills[i]))
  {
    StatusErrorsExact(bills);
    var at := RejectedStatusAt(bills);
    if StatusErrors(bills) != [] {
      assert !StatusAccepted(StatusOf(bills[at[0]]));
    } else {
      assert at == [];
    }
  }

  /**
   * The gate: a parsed dataset passes exactly when the count matches, every bill has
   * the seven required fields, no id repeats, every non-empty status is one of the
   * twelve, and the data-loss guard does not trip.
   */
  lemma PassesIff(doc: Document, manifest: ManifestFile)
    ensures ValidationErrors(Parsed(doc), manifest) == [] <==>
      && TotalOf(doc) == Int(|BillsOf(doc)|)
      && (forall i :: 0 <= i < |BillsOf(doc)| ==> HasRequiredFields(BillsOf(doc)[i]))
      && Distinct(Ids(BillsOf(doc)))
      && (forall i :: 0 <= i < |BillsOf(doc)| ==> StatusAccepted(StatusOf(BillsOf(doc)[i])))
      && !LossGuardTrips(manifest, |BillsOf(doc)|)
  {
    var bills := BillsOf(doc);
    var c, f, d, st, l := CountErrors(doc), FieldErrors(bills), DuplicateErrors(Ids(bills)),
      StatusErrors(bills), LossErrors(manifest, |bills|);
    assert ValidationErrors(Parsed(doc), manifest) == c + f + d + st + l;
    assert |c + f + d + st + l| == |c| + |f| + |d| + |st| + |l|;
    DuplicateErrorsEmptyIff(Ids(bills));
    FieldErrorsEmptyIff(bills);
    StatusErrorsEmptyIff(bills);
  }

  /** The guard in numbers: 50 bills against a manifest count of 100 trip it, 90 do not; 850 of 1000 trip it, 901 do not. */
  lemma LossGuardExamples()
    ensures LossGuardTrips(ManifestDoc(Some(100)), 50)
    ensures !LossGuardTrips(ManifestDoc(Some(100)), 90)
    ensures LossGuardTrips(ManifestDoc(Some(1000)), 850)
    ensures !LossGuardTrips(ManifestDoc(Some(1000)), 901)
    ensures !LossGuardTrips(ManifestDoc(None), 0)
  {
  }
}
