# wa-bill-tracker bill sync, modelled in Dafny

The tracker publishes the bills of the Washington State Legislature as `data/bills.json`.
It also keeps a `data/manifest.json` that records, for each bill id, the bill's status, a
fingerprint of its contents and when it was last fetched. This project models the three
Python scripts that keep those two files up to date:

- **The incremental sync** (`scripts/fetch_bills_incremental.py`) runs in three tiers:
  - Tier 1 fetches the bills of the roster that the manifest does not know.
  - Tier 2 re-fetches the stalest non-terminal bills, within a budget of 400 fetches per
    run shared with Tier 1, and keeps only those whose fingerprint changed.
  - Tier 3 refreshes hearings and fills in missing committees.

  Between the tiers, the run merges the fetched bills into the existing list and updates
  the manifest.
- **The full fetcher** (`scripts/fetch_all_bills.py`) reads the year's `<Legislation>`
  items from the XML web service. It builds one record per item, enriched with the
  bill's current status, sorts the records by (type prefix, number) and writes the
  document.
- **The publishing gate** (`scripts/validate_bills_json.py`) reports every problem of a
  `bills.json`, checked against the manifest's bill count. An empty report means the
  file may be published.

Modules:

| module | file | models |
|---|---|---|
| `Wrappers` | wrappers.dfy | `Option`, and `Attempt` for a call that may raise |
| `Text` | text.dfy | the `str` operations the scripts use: `isspace`, `strip`, `split()`, `endswith`, `replace(" ", "")`, `isdigit`, `int()`, `str(n)`, `<` on strings |
| `Collections` | collections.dfy | distinctness, the set of a list's elements and the ids of a list's elements |
| `Sorting` | sorting.dfy | `list.sort(key=...)` on `(str, int)` keys as a stable insertion sort, proved sorted, a permutation and stable |
| `Dicts` | dicts.dfy | an insertion-ordered Python `dict` |
| `Validation` | validation.dfy | `validate` and its six checks |
| `IncrementalData` | incremental_data.dfy | the incremental script's records, constants, `fetch_bill_by_id` and the agency rule |
| `Roster` | roster.dfy | the de-duplication of `find_new_bill_numbers` |
| `Refresh` | refresh.dfy | `select_bills_for_refresh` |
| `Merge` | merge.dfy | `merge_bills` |
| `RunSteps` | run_steps.dfy | the tiers of `run_incremental` as functions on values |
| `IncrementalRun` | incremental_run.dfy | `run_incremental` itself: a `Manifest` class updated in place, arrays for the merged bills |
| `Xml` | xml.dfy | `xml_find_text` and `xml_iter_children` over an element tree |
| `FetchAll` | fetch_all.dfy | `build_bill_record`, `sort_key`, `save_outputs` and `main` of the full fetcher |

The model keeps the source's form:
- Loops that build lists or dicts are methods, each proved equal to a specification
  function.
- The specification functions carry the lemmas.
- The manifest that `run_incremental` changes in place is a class with `modifies` frames.
- The per-bill updates of the merged list happen in an array.

Everything the scripts get from outside is a parameter:
- HTTP calls enter as their results, or as `Raised`.
- The clock enters as its readings.
- The content digest enters as a function.
- The roster enters as the list the three roster calls returned.

Some facts about the code that the model follows:
- The validator accepts 12 status values (scripts/validate_bills_json.py:24-28).
- The incremental content hash covers `status`, `historyLine`, `introducedDate` and
  `sponsor` (scripts/fetch_bills_incremental.py:297-302 and 349-354).
- The full fetcher writes the status text the web service returns, which need not be one
  of the 12.
- The incremental script does not call the validator. It saves the manifest with a plain
  `json.dump` into the open file (scripts/fetch_bills_incremental.py:78-83).
  `save_bills_data` is not part of this model.
- In the code shown, each bill's details are requested once per run; there is no retry
  loop. Whether the imported helpers retry is outside this model.
- A details call that returns nothing is counted and skipped, in Tier 1
  (scripts/fetch_bills_incremental.py:257-276) and in Tier 2 (:287-294).
- A raising hearings fetch is caught (:323-329).
- A raising roster call (:111, :117, :123) or details call is not caught, and ends the run.
- In the full fetcher, a raising list call exits (scripts/fetch_all_bills.py:210-213). A
  raising item is skipped (:217-222).

## Model

| member | source | states |
|---|---|---|
| Validation.Validate | scripts/validate_bills_json.py:31-93 | the report is the expected list of the six checks in order; an absent file gives only "not found", an unparseable one only "invalid JSON" |
| Validation.CheckFields | scripts/validate_bills_json.py:59-63 | the loop reports exactly the bills missing required fields |
| Validation.CheckDuplicates | scripts/validate_bills_json.py:65-71 | the loop with its `seen` set reports exactly the repeated ids |
| Validation.CheckStatuses | scripts/validate_bills_json.py:73-77 | the loop reports exactly the bills with a non-empty status outside the accepted set |
| Validation.FieldErrorsExact | scripts/validate_bills_json.py:59-63 | each field error names a bill index and its exact missing set, in index order, and every incomplete bill is reported |
| Validation.FieldErrorsEmptyIff | scripts/validate_bills_json.py:59-63 | no field error iff every bill has all seven required fields |
| Validation.StatusErrorsReported | scripts/validate_bills_json.py:73-77 | every status error carries a non-empty status outside the accepted set, every such bill is reported, and there are no more errors than bills |
| Validation.StatusErrorsExact | scripts/validate_bills_json.py:73-77 | error `k` is `InvalidStatus` with the id and status of the `k`-th bill whose status is non-empty and outside the twelve: one error per such bill, in bill order, and no other |
| Validation.StatusErrorsEmptyIff | scripts/validate_bills_json.py:73-77 | no status error iff every status is empty or one of the twelve |
| Validation.DuplicateErrorsCount | scripts/validate_bills_json.py:65-71 | the number of duplicate reports is the number of ids minus the number of distinct ids |
| Validation.DuplicateErrorsEmptyIff | scripts/validate_bills_json.py:65-71 | no duplicate report iff the ids are distinct |
| Validation.DuplicateErrorsRepeated | scripts/validate_bills_json.py:65-71 | every reported id occurs at two different positions |
| Validation.CountCheckIff | scripts/validate_bills_json.py:50-57 | a count mismatch is reported iff `totalBills` differs from the number of bills |
| Validation.MissingTotalFailsCount | scripts/validate_bills_json.py:50-57 | a missing `totalBills` reads as 0, so a non-empty list fails the count check |
| Validation.LossCheckIff | scripts/validate_bills_json.py:79-91 | a count-drop error appears iff a manifest was read and its positive `billCount` exceeds the bill count by more than 10% |
| Validation.PassesIff | scripts/validate_bills_json.py:31-93 | a parsed file passes iff its count matches, all fields are present, ids are distinct, statuses are accepted and the loss guard does not trip |
| Validation.LossGuardExamples | scripts/validate_bills_json.py:85 | 90 of 100 bills and 901 of 1000 pass the loss guard; 50 of 100 and 850 of 1000 trip it; a manifest without `billCount` never trips it |
| IncrementalData.OriginalAgency | scripts/fetch_bills_incremental.py:188-193 | a House suffix gives "House", a Senate suffix "Senate", anything else the prefix itself |
| IncrementalData.ChamberSuffixesDisjoint | scripts/fetch_bills_incremental.py:188-193 | no prefix ends with both a House and a Senate suffix, so the order of the two tests does not matter |
| IncrementalData.FetchBillById | scripts/fetch_bills_incremental.py:177-195 | a bill comes back iff the id has a non-zero number and the details call returned a record with a bill id |
| Roster.DedupNewNumbers | scripts/fetch_bills_incremental.py:126-137 | the loop returns the specified de-duplicated new numbers |
| Roster.NewNumbersFromRoster | scripts/fetch_bills_incremental.py:129-137 | every returned number is a non-empty roster number |
| Roster.NewNumbersDistinct | scripts/fetch_bills_incremental.py:127-137 | no number is returned twice |
| Roster.NewNumbersExact | scripts/fetch_bills_incremental.py:129-137 | a number is returned iff the first entry carrying it has a bill id, spaces removed, that the manifest does not know |
| Refresh.SelectBillsForRefresh | scripts/fetch_bills_incremental.py:147-170 | the candidate loop, the sort by `lastFetched` and the slice return the specified selection |
| Refresh.CandidatesExact | scripts/fetch_bills_incremental.py:155-160 | the candidates are exactly the non-terminal keys with their `lastFetched`, each key once |
| Refresh.SortedCandidatesSound | scripts/fetch_bills_incremental.py:155-163 | the sorted candidates are non-terminal manifest keys, distinct, in non-decreasing `lastFetched` order |
| Refresh.SortedCandidatesComplete | scripts/fetch_bills_incremental.py:155-163 | every non-terminal key is a candidate, and there are as many candidates as such keys |
| Refresh.SelectionSound | scripts/fetch_bills_incremental.py:147-170 | every selected id is a non-terminal manifest key, none twice, oldest `lastFetched` first |
| Refresh.SelectionSize | scripts/fetch_bills_incremental.py:165 | a batch size `m >= 0` selects `min(m, non-terminal count)` ids; an empty manifest selects none |
| Refresh.UnselectedAfterSlice | scripts/fetch_bills_incremental.py:165 | a candidate left out sits at or after the end of the slice |
| Refresh.SelectionStalest | scripts/fetch_bills_incremental.py:162-165 | no non-terminal bill that was left out was fetched strictly before a selected one |
| Merge.MergeBills | scripts/fetch_bills_incremental.py:198-224 | the two loops return the specified merge |
| Merge.AppendedExact | scripts/fetch_bills_incremental.py:219-222 | the appended bills are exactly the fetched bills under keys not among the existing ids, one per such key |
| Merge.AppendedIds | scripts/fetch_bills_incremental.py:219-222 | appended ids are new, and distinct |
| Merge.AppendedInKeyOrder | scripts/fetch_bills_incremental.py:219-222 | the new bills are appended in the order of the fetched keys: appending over two runs of keys is appending over each in turn |
| Merge.AppendedOne | scripts/fetch_bills_incremental.py:220-222 | a single fetched key adds its bill exactly when its id is not among the existing ids |
| Merge.MergedShape | scripts/fetch_bills_incremental.py:198-224 | the merge is never shorter than the existing list, replaces in place and appends exactly the new bills |
| Merge.MergedKeepsIds | scripts/fetch_bills_incremental.py:198-224 | existing ids keep their positions, and every fetched id is in the result |
| Merge.MergedDistinct | scripts/fetch_bills_incremental.py:198-224 | distinct ids stay distinct after the merge |
| RunSteps.FetchNewBill | scripts/fetch_bills_incremental.py:258-269 | a Tier-1 bill is built iff the details call returned a record with a bill id |
| RunSteps.FetchNewBills | scripts/fetch_bills_incremental.py:257-270 | the Tier-1 loop files the specified bills |
| RunSteps.Tier1BillsExact | scripts/fetch_bills_incremental.py:257-270 | Tier 1 files each bill under its own id, and every bill it fetched is filed |
| RunSteps.RemainingBudget | scripts/fetch_bills_incremental.py:282 | the Tier-2 budget is at most 400, and Tier 1 plus Tier 2 stay within 400 unless Tier 1 alone exceeded it |
| RunSteps.BudgetBound | scripts/fetch_bills_incremental.py:280-283 | the bills fetched by Tier 1 plus the ids selected for Tier 2 never exceed `max(400, Tier-1 count)` |
| RunSteps.Tier2Preserves | scripts/fetch_bills_incremental.py:287-312 | Tier 2 keeps the manifest's keys, statuses and hashes; it changes only entries of the stale ids, and it keeps every bill already collected |
| RunSteps.Tier2Collects | scripts/fetch_bills_incremental.py:296-308 | a fetched bill whose hash differs from the stored one is collected, and every collected bill was collected before or is such a bill |
| RunSteps.Tier2Touches | scripts/fetch_bills_incremental.py:309-312 | an unchanged bill known to the manifest gets only its `lastFetched` set, to the time of its fetch |
| RunSteps.Backfilled | scripts/fetch_bills_incremental.py:333-336 | only the committee changes, to the last hearing's committee, and only when it was empty and hearings exist |
| RunSteps.BackfilledIdempotent | scripts/fetch_bills_incremental.py:333-336 | back-filling twice is back-filling once |
| RunSteps.RecordedKeys | scripts/fetch_bills_incremental.py:343-367 | the manifest update keeps the old keys in front, adds only merged ids, covers every merged id and leaves other entries alone |
| RunSteps.RecordedUpdated | scripts/fetch_bills_incremental.py:355-360 | a collected id gets the entry of its last occurrence in the merged list |
| RunSteps.RecordedAddedAt | scripts/fetch_bills_incremental.py:361-367 | an id that was neither collected nor in the manifest gets the entry of its first occurrence |
| RunSteps.RecordedAdded | scripts/fetch_bills_incremental.py:361-367 | the same for all such ids |
| IncrementalRun.Manifest.KnownIds | scripts/fetch_bills_incremental.py:106 | the known ids are the manifest's keys |
| IncrementalRun.RefreshStale | scripts/fetch_bills_incremental.py:287-312 | the Tier-2 loop updates the manifest and the collected bills as the Tier-2 specification says, and nothing else |
| IncrementalRun.ClearHearings | scripts/fetch_bills_incremental.py:325-326 | every merged bill's hearings are emptied in place, and nothing else changes |
| IncrementalRun.AttachHearings | scripts/fetch_bills_incremental.py:327 | each merged bill receives the hearings the fetch found for it |
| IncrementalRun.BackfillCommittees | scripts/fetch_bills_incremental.py:331-336 | every merged bill is back-filled in place |
| IncrementalRun.RecordRun | scripts/fetch_bills_incremental.py:343-367 | the sync time and bill count are set, and the bills map becomes the specified update |
| IncrementalRun.CollectedKeeps | scripts/fetch_bills_incremental.py:255-312 | Tiers 1 and 2 keep the manifest's ids and every entry's status and hash, and file each collected bill under its id |
| IncrementalRun.CollectedSources | scripts/fetch_bills_incremental.py:255-312 | every collected bill is the bill of a new roster number, or a refetched stale bill whose hash differs from the stored one |
| IncrementalRun.CollectUpdates | scripts/fetch_bills_incremental.py:255-312 | the collected bills and the manifest's bills afterwards are `Collected` of the loaded manifest (Tier 1, then Tier 2 on the stalest bills within the remaining budget); count and sync time are kept |
| RunSteps.Refreshed | scripts/fetch_bills_incremental.py:319-336 | Tier 3 moves no bill and changes only hearings and committee. Each bill's hearings become what the hearings fetch found for it, or none when the fetch raised. A bill without a committee that has hearings takes its last hearing's committee; every other committee is kept |
| IncrementalRun.RefreshHearings | scripts/fetch_bills_incremental.py:319-336 | the in-place clearing, attaching and back-filling give `Refreshed` of the merged bills |
| IncrementalRun.RunMergedKeeps | scripts/fetch_bills_incremental.py:321-336 | the run's merged list is never shorter, keeps each existing id in place, and keeps ids distinct when they were |
| IncrementalRun.RunManifestKeys | scripts/fetch_bills_incremental.py:343-367 | after the run the manifest keeps its ids in order, appends only new ones, and lists every merged bill |
| IncrementalRun.IncrementalTiers | scripts/fetch_bills_incremental.py:255-367 | the merged bills are `RunMerged` (merge of what Tiers 1 and 2 collected, then Tier 3) and the manifest's bills `RunManifest` (the update over what Tier 2 left) |
| IncrementalRun.RunIncremental | scripts/fetch_bills_incremental.py:231-378 | see the paragraph after this table |
| Xml.ChildText | scripts/fetch_all_bills.py:75 | a matching child with non-empty text yields that text with the whitespace around it removed and nothing else (the only such string, by `Text.StripUnique`); otherwise the default |
| Xml.FirstTextNoMatch | scripts/fetch_all_bills.py:73-76 | with no child whose tag ends with the suffix, the default comes back |
| Xml.FirstTextFirstMatch | scripts/fetch_all_bills.py:73-75 | the first matching child decides |
| Xml.FirstTextSource | scripts/fetch_all_bills.py:73-76 | a result other than the default is the stripped text of a matching child whose raw text is present and non-empty (the stripped result may be empty) |
| Xml.FirstMatchWins | scripts/fetch_all_bills.py:73-75 | children after the first match are never looked at |
| Xml.NonMatchingSkipped | scripts/fetch_all_bills.py:73-74 | non-matching children are skipped |
| Xml.Subtree | scripts/fetch_all_bills.py:83 | the walk of `elem.iter()` starts at the element itself |
| Xml.IterChildren | scripts/fetch_all_bills.py:78-86 | the loop over `elem.iter()` returns the matching elements in walk order |
| Xml.MatchingExact | scripts/fetch_all_bills.py:82-86 | exactly the matching elements of the walk are returned |
| Xml.ForestHasRoots | scripts/fetch_all_bills.py:83 | every child is met by the walk |
| Xml.IterChildrenFinds | scripts/fetch_all_bills.py:78-86 | a matching root comes first, every matching child is found, and only matching elements of the tree are returned |
| FetchAll.BillNumberOf | scripts/fetch_all_bills.py:123-126 | there is a bill number iff the `BillNumber` text is all digits, and it is that text's value |
| FetchAll.BuildBillRecord | scripts/fetch_all_bills.py:117-166 | a record is built iff a number can be derived; it carries that number and the clock reading |
| FetchAll.NumberChoice | scripts/fetch_all_bills.py:138-146 | the number is the display number when present, else "type number" when both are present, else the bill id when present; it is never empty, and it is missing only when all three are |
| FetchAll.RecordId | scripts/fetch_all_bills.py:159 | the id is the number with its spaces taken out, every other character kept in order (`Text.RemoveSpacesAppend`); it has no spaces, and a number without spaces is its own id |
| FetchAll.ComposedRecordId | scripts/fetch_all_bills.py:138-159 | a composed "type number" gives the id of the type without spaces followed by the digits of the number |
| FetchAll.TitleSource | scripts/fetch_all_bills.py:130-136 | a non-empty title is the stripped text of a child whose tag ends with "Title", including `LongTitle` and `ShortTitle`, or with "Description" |
| FetchAll.ReplyStatusStripped | scripts/fetch_all_bills.py:110 | the status reply's `Status` text is stripped |
| FetchAll.StatusNeverEmpty | scripts/fetch_all_bills.py:148-156 | the status is never empty: it is "unknown" without a number, on a raised call or on a blank reply, and otherwise the reply's text |
| FetchAll.StrippedFirstText | scripts/fetch_all_bills.py:73-76 | what `xml_find_text` returns is the default or a stripped text |
| FetchAll.SummaryUrlRoundTrip | scripts/fetch_all_bills.py:164 | the bill number written into `legUrl` parses back to the same number |
| FetchAll.SortKeyOf | scripts/fetch_all_bills.py:226-235 | the key is the number's first word ("" iff it has no words) and `int()` of its second word, 0 when there is no second word or `int()` rejects it |
| FetchAll.KeyOfTypedNumber | scripts/fetch_all_bills.py:226-235 | a number "type n" sorts under the pair (type, n) |
| FetchAll.ComposedRecordKey | scripts/fetch_all_bills.py:140-141 | a number composed from a type and a bill number sorts under exactly that pair, even when the `BillNumber` text had leading zeros |
| FetchAll.SomesExact | scripts/fetch_all_bills.py:219-220 | the loop keeps a value iff some item produced it, and keeps no more values than there were items |
| FetchAll.CollectRecords | scripts/fetch_all_bills.py:215-223 | the loop keeps the specified records |
| FetchAll.BuiltExact | scripts/fetch_all_bills.py:215-223 | a record is kept iff some item built it; every item with a number contributes; no more records than items |
| FetchAll.SaveOutputs | scripts/fetch_all_bills.py:181-192 | the document holds the bills, and `totalBills` is their number |
| FetchAll.FetchAllBills | scripts/fetch_all_bills.py:208-238 | nothing is written iff the list call raised; otherwise the specified sorted records are written |
| FetchAll.WrittenDocument | scripts/fetch_all_bills.py:237-238 | the written bills are sorted by key, a permutation of the built records, stable among equal keys, and counted by `totalBills` |
| FetchAll.ArrayRootSkipped | scripts/fetch_all_bills.py:97-99 | an `ArrayOfLegislation` root is itself matched first, but it yields no record |
| FetchAll.SavedDocumentChecks | scripts/fetch_all_bills.py:182-192 | the written file passes the validator's count check, but every record lacks `priority`, `topic` and `session` |
| Sorting.SortByCorrect | scripts/fetch_all_bills.py:237 | the sort is ordered by key, a permutation, and stable |
| Sorting.SortByPermutes | scripts/fetch_bills_incremental.py:163 | the sort keeps length and membership |
| Sorting.SortByDistinct | scripts/fetch_bills_incremental.py:163 | sorting distinct elements keeps them distinct |
| Text.NatToStringRoundTrip | scripts/fetch_all_bills.py:141 | `int(str(n)) == n` |
| Text.WordsOfPair | scripts/fetch_all_bills.py:227 | splitting "a b" gives [a, b] when neither holds whitespace |
| Text.RemoveSpaces | scripts/fetch_all_bills.py:159 | the result has no spaces and is no longer than the input, and a string without spaces is unchanged |
| Text.RemoveSpacesAppend | scripts/fetch_all_bills.py:159 | taking the spaces out of `a + b` takes them out of `a` and of `b`; a space is dropped and any other character kept, so the kept characters stay in order |
| Text.StripIsStripOf | scripts/fetch_all_bills.py:75 | `strip()` returns an infix of its input with only whitespace around it and no whitespace at its ends |
| Text.StripUnique | scripts/fetch_all_bills.py:75 | any infix with only whitespace around it and none at its ends is what `strip()` returns |
| Text.StripOfStrippedAt | scripts/fetch_all_bills.py:75 | an infix at a given offset, with only whitespace around it and none at its ends, is what `strip()` returns |
| Text.RStripSpaces | scripts/fetch_all_bills.py:75 | whitespace after a text that does not end with whitespace is all that the right-hand strip removes |
| Dicts.Put | scripts/fetch_bills_incremental.py:270 | assigning a key keeps the other entries, sets that one, and appends the key only when it is new |

`IncrementalRun.RunIncremental` falls back to the full fetch, and leaves the manifest
alone, exactly when the manifest has no bills or there are no existing bills. Otherwise
the merged list is `RunMerged` of the loaded manifest: the existing bills merged with
what Tiers 1 and 2 collected, then refreshed by Tier 3. The manifest's bills are
`RunManifest`: the update for that list over what Tier 2 left of the manifest. So:
- the merged list is never shorter than the existing one;
- each existing bill keeps its id and its place;
- distinct ids stay distinct;
- `billCount` is set to the merged length and `lastIncrementalSync` to the current time;
- the old manifest keys come first in the new manifest, and every merged id is in it.

## Left out

- HTTP and SOAP calls are not modelled. That covers `get_legislation_details`, the roster
  and prefiled calls, `fetch_hearings_for_bills`, `get_current_status`'s request and
  `http_get_xml`. Their results enter as parameters. `extract_bill_number_from_id` and
  `build_bill_dict` are not part of this model and are parameters as well.
- File I/O, snapshots, stats files, the sync log and logging are left out. So are
  `load_manifest` and `load_existing_bills`; what they read enters as values.
- `compute_content_hash` is a parameter: the digest is not modelled.
- The clock is a parameter. Tier 2 and the full fetcher read it once per item, as
  `clock(i)`.
- Sleeping and throttling do not change any result and are not modelled.
- The abort after more than 50 failures (fetch_bills_incremental.py:271-276 and 289-294)
  is not modelled. Every failure is simply skipped.
- `run_full` and `main` of the incremental script are not modelled: the fallback is the
  `FullFetch` outcome.
- RunSteps.Refreshed: `fetch_hearings_for_bills` is not part of this model. The model
  assumes it only sets each bill's `hearings`, and does not reorder the list or change any
  other field. The claim that Tier 3 moves no bill and changes only hearings and committee
  rests on that assumption.
- A raising roster call (scripts/fetch_bills_incremental.py:111, 117, 123) or a raising
  details call in Tier 1 or Tier 2 ends `run_incremental` uncaught. The model takes the
  roster as given, and each details call as returning a record or nothing. It therefore
  has no such abort.
- IncrementalRun.RefreshHearings: when the hearings fetch raises part-way, the hearings it
  attached before raising are not modelled. The model assumes it raised before attaching
  any.
- Aliasing is not modelled. A dict in `updated_bills` and the same dict in the merged list
  are separate values here. This does not affect the manifest update, which reads only
  ids, statuses and the hash inputs.
- FetchAll.BillNumberOf: `str.isdigit` is modelled for ASCII digits only. Non-ASCII
  digits, for which `int()` can raise, are not modelled, so no item raises.
- FetchAll.BuildBillRecord: the per-item `except` in `main` is therefore never taken in
  the model.
- Validation only models JSON scalars (strings, integers and null) as field values.
  Booleans, floats and composite values are not modelled.
- Validation.Validate: `validate` raises uncaught in four cases the model cannot express,
  because `Document` holds an optional list of bills:
  - the root of `bills.json` is not an object (`data.get`, scripts/validate_bills_json.py:50);
  - `bills` is null (`len`, :54);
  - `bills` is a string or an object (`bill.keys()`, :61);
  - an element of `bills` is not an object (:61).
- Validation.LossCheckIff: the test `len(bills) < count * 0.9` is stated as
  `10 * n < 9 * count`. The two agree for any realistic count. For counts in the
  quadrillions the float product is rounded, and they can differ: with a count of
  2501999792983609 and 2251799813685248 bills the float test passes and the model's trips.
- Validation.LossCheckIff: a `billCount` that is null or a string, or a manifest whose root
  is not an object, makes `validate` raise (TypeError or AttributeError) past the
  `except` at scripts/validate_bills_json.py:90. The model's manifest holds an optional
  integer count and cannot express these cases.
- FetchAll.SortKeyOf: `int()` of the second word is modelled for ASCII digits with an
  optional sign and underscores. Non-ASCII digits, which `int()` accepts, give 0 in the
  model. Python 3.11 and later refuse strings of more than 4300 digits, so the key gets 0;
  the model gives them their value.
- Unicode normalisation and case folding play no role in the scripts and are not
  modelled.
