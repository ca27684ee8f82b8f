/**
 * scripts/fetch_all_bills.py: every `<Legislation>` item of the year's list becomes a
 * canonical bill record, enriched with its current status; the records are sorted by
 * (type prefix, number) and written as `bills.json`. The HTTP calls enter as their
 * parsed replies (or as having raised), the clock as its readings.
 */
module FetchAll {
  import opened Wrappers
  import opened Text
  import opened Sorting
  import opened Xml
  import Validation

  const Year: nat := 2026
  const Biennium: string := "2025-26"
  const ServiceBase: string := "https://wslwebservices.leg.wa.gov/LegislationService.asmx"

  /** `LEG_SUMMARY_URL` around its `{num}` placeholder. */
  const SummaryUrlHead: string := "https://app.leg.wa.gov/billsummary?BillNumber="
  const SummaryUrlTail: string := "&Year=2026"

  /** The record `build_bill_record` returns. */
  datatype BillRecord = BillRecord(
    id: string, number: string, title: string, status: string, lastUpdated: string, legUrl: string)

  /** The document `save_outputs` writes. */
  datatype OutputDocument = OutputDocument(
    lastSync: string, sessionYear: nat, biennium: string, totalBills: nat,
    bills: seq<BillRecord>, source: string, endpoint: string)

  /** How `main` ends: the list call raised (`SystemExit`), or the document was written. */
  datatype FetchOutcome = Exited | Wrote(doc: OutputDocument)

  // ---------------------------------------------------------------------------
  // build_bill_record
  // ---------------------------------------------------------------------------

  /** `BillNumber` as an integer, when its text is all digits. */
  function BillNumberOf(item: Element): (n: Option<nat>)
    ensures n.Some? <==> FindText(item, "BillNumber", None).Some? && IsDigits(FindText(item, "BillNumber", None).value)
    ensures n.Some? ==> n.value == DigitsValue(FindText(item, "BillNumber", None).value)
  {
    var text := FindText(item, "BillNumber", None);
    if Present(text) && IsDigits(text.value) then Some(DigitsValue(text.value)) else None
  }

  /** The display number: `DisplayNumber`, else "<ShortLegislationType> <BillNumber>", else `BillId`. */
  function NumberOf(item: Element): Option<string>
  {
    var display := FindText(item, "DisplayNumber", None);
    var shortType := FindText(item, "ShortLegislationType", None);
    var billId := FindText(item, "BillId", None);
    var n := BillNumberOf(item);
    if Present(display) then display
    else if Present(shortType) && n.Some? then Some(shortType.value + " " + NatToString(n.value))
    else if Present(billId) then billId
    else None
  }

  /** The first non-empty of `Title`, `LongTitle`, `ShortTitle`, `Description`, else "". */
  function TitleOf(item: Element): string
  {
    var title := FindText(item, "Title", None);
    var long := FindText(item, "LongTitle", None);
    var short := FindText(item, "ShortTitle", None);
    var description := FindText(item, "Description", None);
    if Present(title) then title.value
    else if Present(long) then long.value
    else if Present(short) then short.value
    else if Present(description) then description.value
    else ""
  }

  /**
   * The status: "unknown" without a bill number or when the status call raised;
   * otherwise the reply's `Status` text (default "unknown"), "unknown" again when that
   * is empty, stripped.
   */
  function StatusOf(n: Option<nat>, currentStatus: nat -> Attempt<Element>): string
  {
    if n.None? then "unknown"
    else match currentStatus(n.value)
      case Raised => "unknown"
      case Returned(reply) =>
        var s := ReplyStatus(reply);
        Strip(if s != "" then s else "unknown")
  }

  /** `LEG_SUMMARY_URL` filled with the bill number, or with "" when there is none. */
  function SummaryUrl(n: Option<nat>): string
  {
    SummaryUrlHead + (if n.Some? then NatToString(n.value) else "") + SummaryUrlTail
  }

  /** `build_bill_record(item)`, with the status call's reply and the clock reading as parameters. */
  function BuildBillRecord(item: Element, currentStatus: nat -> Attempt<Element>, now: string): (r: Option<BillRecord>)
    ensures r.None? <==> NumberOf(item).None?
    ensures r.Some? ==> r.value.number == NumberOf(item).value && r.value.lastUpdated == now
  {
    match NumberOf(item)
    case None => None
    case Some(number) =>
      var n := BillNumberOf(item);
      Some(BillRecord(RemoveSpaces(number), number, TitleOf(item), StatusOf(n, currentStatus), now, SummaryUrl(n)))
  }

  /**
   * A record is built exactly when the item has a display number, or a bill id, or
   * both a type and an all-digit bill number; the display number is preferred, then
   * the composed "<type> <number>", then the bill id.
   */
  lemma NumberChoice(item: Element)
    ensures NumberOf(item).None? <==>
      && !Present(FindText(item, "DisplayNumber", None))
      && !(Present(FindText(item, "ShortLegislationType", None)) && BillNumberOf(item).Some?)
      && !Present(FindText(item, "BillId", None))
    ensures Present(FindText(item, "DisplayNumber", None)) ==> NumberOf(item) == FindText(item, "DisplayNumber", None)
    ensures (!Present(FindText(item, "DisplayNumber", None)) && Present(FindText(item, "ShortLegislationType", None))
      && BillNumberOf(item).Some?) ==>
      NumberOf(item) == Some(FindText(item, "ShortLegislationType", None).value + " " + NatToString(BillNumberOf(item).value))
    ensures (&& !Present(FindText(item, "DisplayNumber", None))
             && !(Present(FindText(item, "ShortLegislationType", None)) && BillNumberOf(item).Some?)
             && Present(FindText(item, "BillId", None))) ==>
      NumberOf(item) == FindText(item, "BillId", None)
    ensures NumberOf(item).Some? ==> NumberOf(item).value != ""
  {
  }

  /**
   * The record id is the number with its spaces taken out: every other character is
   * kept, in order (`RemoveSpacesAppend`), and a number without spaces is its own id.
   */
  lemma RecordId(item: Element, currentStatus: nat -> Attempt<Element>, now: string)
    requires BuildBillRecord(item, currentStatus, now).Some?
    ensures var r := BuildBillRecord(item, currentStatus, now).value;
      && r.id == RemoveSpaces(r.number)
      && (forall k :: 0 <= k < |r.id| ==> r.id[k] != ' ')
      && ((forall k :: 0 <= k < |r.number| ==> r.number[k] != ' ') ==> r.id == r.number)
      && |r.id| <= |r.number|
  {
  }

  /** A composed "<type> <number>" gives the id "<type without spaces><number>". */
  lemma ComposedRecordId(item: Element, currentStatus: nat -> Attempt<Element>, now: string)
    requires !Present(FindText(item, "DisplayNumber", None))
    requires Present(FindText(item, "ShortLegislationType", None))
    requires BillNumberOf(item).Some?
    ensures BuildBillRecord(item, currentStatus, now).Some?
    ensures BuildBillRecord(item, currentStatus, now).value.id
      == RemoveSpaces(FindText(item, "ShortLegislationType", None).value) + NatToString(BillNumberOf(item).value)
  {
    var t := FindText(item, "ShortLegislationType", None).value;
    var n := BillNumberOf(item).value;
    assert NumberOf(item) == Some(t + " " + NatToString(n));
    TypedNumberId(t, n);
  }

  /** Taking the spaces out of "<type> <n>" leaves the type without spaces, then the digits of `n`. */
  lemma TypedNumberId(t: string, n: nat)
    ensures RemoveSpaces(t + " " + NatToString(n)) == RemoveSpaces(t) + NatToString(n)
  {
    var digits := NatToString(n);
    assert forall k :: 0 <= k < |digits| ==> digits[k] != ' ' by {
      forall k | 0 <= k < |digits| ensures digits[k] != ' ' {
        assert IsDigit(digits[k]);
      }
    }
    assert t + " " + digits == t + ([' '] + digits);
    RemoveSpacesAppend(t, [' '] + digits);
    RemoveSpacesAppend([' '], digits);
  }

  /**
   * A non-empty title is the stripped text of a child whose tag ends with "Title"
   * (`LongTitle` and `ShortTitle` included) or with "Description".
   */
  lemma TitleSource(item: Element)
    ensures TitleOf(item) != "" ==>
      exists c :: c in item.children && (Matches(c, "Title") || Matches(c, "Description"))
        && Present(c.text) && TitleOf(item) == Strip(c.text.value)
  {
    if TitleOf(item) != "" {
      var title := FindText(item, "Title", None);
      var long := FindText(item, "LongTitle", None);
      var short := FindText(item, "ShortTitle", None);
      var c: Element;
      if Present(title) {
        c := FoundChild(item, "Title");
        assert TitleOf(item) == title.value;
      } else if Present(long) {
        c := FoundChild(item, "LongTitle");
        EndsWithSuffix(c.tag, "LongTitle", "Title");
        assert TitleOf(item) == long.value;
      } else if Present(short) {
        c := FoundChild(item, "ShortTitle");
        EndsWithSuffix(c.tag, "ShortTitle", "Title");
        assert TitleOf(item) == short.value;
      } else {
        c := FoundChild(item, "Description");
        assert TitleOf(item) == FindText(item, "Description", None).value;
      }
      assert c in item.children && (Matches(c, "Title") || Matches(c, "Description"))
        && Present(c.text) && TitleOf(item) == Strip(c.text.value);
    }
  }

  /** The child a present text was found in. */
  lemma FoundChild(item: Element, suffix: string) returns (c: Element)
    requires Present(FindText(item, suffix, None))
    ensures c in item.children && Matches(c, suffix) && Present(c.text)
    ensures FindText(item, suffix, None) == Some(Strip(c.text.value))
  {
    FirstTextSource(item.children, suffix, None);
    c :| c in item.children && Matches(c, suffix) && Present(c.text)
      && FindText(item, suffix, None) == Some(Strip(c.text.value));
  }

  /** The `Status` text of a status reply: "unknown" when absent or blank, otherwise already stripped. */
  function ReplyStatus(reply: Element): (s: string)
  {
    FindText(reply, "Status", Some("unknown")).GetOr("")
  }

  /** A reply's `Status` text is empty or neither starts nor ends with whitespace. */
  lemma ReplyStatusStripped(reply: Element)
    ensures Stripped(ReplyStatus(reply))
  {
    StrippedFirstText(reply.children, "Status", Some("unknown"));
    assert Stripped("unknown");
  }

  /**
   * The status is never empty: it is "unknown" without a bill number, when the status
   * call raised, or when the reply's `Status` is blank; otherwise it is the reply's
   * `Status` text as `xml_find_text` returned it.
   */
  lemma StatusNeverEmpty(n: Option<nat>, currentStatus: nat -> Attempt<Element>)
    ensures StatusOf(n, currentStatus) != ""
    ensures n.None? || currentStatus(n.value).Raised? ==> StatusOf(n, currentStatus) == "unknown"
    ensures n.Some? && currentStatus(n.value).Returned? ==>
      StatusOf(n, currentStatus)
        == if ReplyStatus(currentStatus(n.value).value) == "" then "unknown" else ReplyStatus(currentStatus(n.value).value)
  {
    assert Strip("unknown") == "unknown" by {
      assert NoSpace("unknown");
    }
    if n.Some? && currentStatus(n.value).Returned? {
      var s := ReplyStatus(currentStatus(n.value).value);
      ReplyStatusStripped(currentStatus(n.value).value);
      if s != "" {
        StripStripped(s);
      }
    }
  }

  /** What `FirstText` returns is a stripped text or the default. */
  lemma {:induction false} StrippedFirstText(children: seq<Element>, suffix: string, default: Option<string>)
    ensures FirstText(children, suffix, default) == default
      || (FirstText(children, suffix, default).Some? && Stripped(FirstText(children, suffix, default).value))
  {
    if children != [] && !Matches(children[0], suffix) {
      StrippedFirstText(children[1..], suffix, default);
    } else if children != [] && Present(children[0].text) {
      var r := Strip(children[0].text.value);
      assert r != [] ==> !IsSpace(r[0]) && !IsSpace(r[|r| - 1]);
    }
  }

  /** A string that neither starts nor ends with whitespace. */
  predicate Stripped(s: string)
  {
    s != [] ==> !IsSpace(s[0]) && !IsSpace(s[|s| - 1])
  }

  /** Stripping a stripped string changes nothing. */
  lemma StripStripped(s: string)
    requires Stripped(s)
    ensures Strip(s) == s
  {
    assert LStrip(s) == s;
    assert RStrip(s) == s;
  }

  /** The bill number in a summary URL reads back as the record's bill number. */
  lemma SummaryUrlRoundTrip(n: nat)
    ensures var url := SummaryUrl(Some(n));
      && |url| == |SummaryUrlHead| + |NatToString(n)| + |SummaryUrlTail|
      && ParseInt(url[|SummaryUrlHead|..|url| - |SummaryUrlTail|]) == Some(n)
  {
    var url := SummaryUrl(Some(n));
    assert url[|SummaryUrlHead|..|url| - |SummaryUrlTail|] == NatToString(n);
    NatToStringRoundTrip(n);
  }

  // ---------------------------------------------------------------------------
  // main: collect, sort, save
  // ---------------------------------------------------------------------------

  /** `sort_key`: the first word of the number, and its second word as an integer (0 when absent or not a number). */
  function SortKeyOf(b: BillRecord): (k: SortKey)
    ensures k.text == "" <==> Words(b.number) == []
    ensures k.text != "" ==> NoSpace(k.text) && k.text == Words(b.number)[0]
    ensures |Words(b.number)| > 1 && ParseInt(Words(b.number)[1]).Some? ==> k.num == ParseInt(Words(b.number)[1]).value
    ensures |Words(b.number)| <= 1 || ParseInt(Words(b.number)[1]).None? ==> k.num == 0
  {
    var parts := Words(b.number);
    assert |parts| > 0 ==> parts[0] in parts;
    var t := if |parts| > 0 then parts[0] else "";
    var n := if |parts| > 1 then ParseInt(parts[1]).GetOr(0) else 0;
    SortKey(t, n)
  }

  /** A number written as "<type> <n>" sorts under the pair (type, n). */
  lemma KeyOfTypedNumber(b: BillRecord, t: string, n: nat)
    requires t != "" && NoSpace(t)
    requires b.number == t + " " + NatToString(n)
    ensures SortKeyOf(b) == SortKey(t, n)
  {
    var digits := NatToString(n);
    assert NoSpace(digits) by {
      forall k | 0 <= k < |digits| ensures !IsSpace(digits[k]) {
        assert IsDigit(digits[k]);
      }
    }
    WordsOfPair(t, digits);
    NatToStringRoundTrip(n);
  }

  /**
   * A record whose number was composed from its type and bill number sorts under
   * exactly that pair, whatever zeros the `BillNumber` text was padded with.
   */
  lemma ComposedRecordKey(item: Element, currentStatus: nat -> Attempt<Element>, now: string)
    requires !Present(FindText(item, "DisplayNumber", None))
    requires Present(FindText(item, "ShortLegislationType", None))
    requires NoSpace(FindText(item, "ShortLegislationType", None).value)
    requires BillNumberOf(item).Some?
    ensures BuildBillRecord(item, currentStatus, now).Some?
    ensures SortKeyOf(BuildBillRecord(item, currentStatus, now).value)
      == SortKey(FindText(item, "ShortLegislationType", None).value, BillNumberOf(item).value)
  {
    KeyOfTypedNumber(BuildBillRecord(item, currentStatus, now).value,
      FindText(item, "ShortLegislationType", None).value, BillNumberOf(item).value);
  }

  /** The values of the `Some` entries, in order. */
  function Somes<T>(os: seq<Option<T>>): seq<T>
  {
    if os == [] then []
    else Somes(os[..|os| - 1]) + (if os[|os| - 1].Some? then [os[|os| - 1].value] else [])
  }

  /** A value is kept exactly when some entry holds it, and no more values are kept than there are entries. */
  lemma {:induction false} SomesExact<T>(os: seq<Option<T>>)
    ensures |Somes(os)| <= |os|
    ensures forall x :: x in Somes(os) <==> Some(x) in os
  {
    if os != [] {
      var init := os[..|os| - 1];
      assert os == init + [os[|os| - 1]];
      SomesExact(init);
    }
  }

  /** What `build_bill_record` returns for each item; `clock(i)` is the time read while building item `i`. */
  function Outcomes(items: seq<Element>, currentStatus: nat -> Attempt<Element>, clock: nat -> string)
    : (r: seq<Option<BillRecord>>)
    ensures |r| == |items|
    ensures forall i :: 0 <= i < |items| ==> r[i] == BuildBillRecord(items[i], currentStatus, clock(i))
  {
    seq(|items|, i requires 0 <= i < |items| => BuildBillRecord(items[i], currentStatus, clock(i)))
  }

  /** The records the loop of `main` keeps. */
  function Built(items: seq<Element>, currentStatus: nat -> Attempt<Element>, clock: nat -> string): seq<BillRecord>
  {
    Somes(Outcomes(items, currentStatus, clock))
  }

  /** The loop of `main`: items without a number are skipped, every other record is kept in item order. */
  method CollectRecords(items: seq<Element>, currentStatus: nat -> Attempt<Element>, clock: nat -> string)
    returns (bills: seq<BillRecord>)
    ensures bills == Built(items, currentStatus, clock)
  {
    ghost var outcomes := Outcomes(items, currentStatus, clock);
    bills := [];
    var i := 0;
    while i < |items|
      invariant 0 <= i <= |items|
      invariant bills == Somes(outcomes[..i])
    {
      assert outcomes[..i + 1][..i] == outcomes[..i];
      var rec := BuildBillRecord(items[i], currentStatus, clock(i));
      if rec.Some? {
        bills := bills + [rec.value];
      }
      i := i + 1;
    }
    assert outcomes[..|items|] == outcomes;
  }

  /**
   * No more records than items; a record is kept exactly when it was built from one
   * of the items, and every item with a number gives a kept record.
   */
  lemma BuiltExact(items: seq<Element>, currentStatus: nat -> Attempt<Element>, clock: nat -> string)
    ensures |Built(items, currentStatus, clock)| <= |items|
    ensures forall b :: b in Built(items, currentStatus, clock) <==>
      exists i :: 0 <= i < |items| && BuildBillRecord(items[i], currentStatus, clock(i)) == Some(b)
    ensures forall i :: 0 <= i < |items| && NumberOf(items[i]).Some? ==>
      BuildBillRecord(items[i], currentStatus, clock(i)).value in Built(items, currentStatus, clock)
  {
    var outcomes := Outcomes(items, currentStatus, clock);
    SomesExact(outcomes);
    forall i | 0 <= i < |items| && NumberOf(items[i]).Some?
      ensures BuildBillRecord(items[i], currentStatus, clock(i)).value in Built(items, currentStatus, clock)
    {
      assert outcomes[i] in outcomes;
    }
  }

  /** `save_outputs(bills)`: `lastSync` is the clock reading taken when saving. */
  function SaveOutputs(bills: seq<BillRecord>, lastSync: string): (doc: OutputDocument)
    ensures doc.bills == bills && doc.totalBills == |bills|
  {
    OutputDocument(lastSync, Year, Biennium, |bills|, bills, "Washington State Legislative Web Services", ServiceBase)
  }

  /** The items of the list reply: every element of the tree whose tag ends with "Legislation". */
  function Items(root: Element): seq<Element>
  {
    Matching(Subtree(root), "Legislation")
  }

  /**
   * `main`: fetch the list, build a record per item, sort by `sort_key`, save. When the
   * list call raises nothing is written.
   */
  method FetchAllBills(
    listReply: Attempt<Element>, currentStatus: nat -> Attempt<Element>,
    clock: nat -> string, syncTime: string) returns (outcome: FetchOutcome)
    ensures outcome.Exited? <==> listReply.Raised?
    ensures outcome.Wrote? ==>
      outcome.doc == SaveOutputs(SortBy(Built(Items(listReply.value), currentStatus, clock), SortKeyOf), syncTime)
  {
    match listReply {
      case Raised =>
        return Exited;
      case Returned(root) =>
        var items := IterChildren(root, "Legislation");
        var bills := CollectRecords(items, currentStatus, clock);
        bills := SortBy(bills, SortKeyOf);
        outcome := Wrote(SaveOutputs(bills, syncTime));
    }
  }

  /**
   * The written document holds the built records, each exactly once as often as it
   * was built, ordered by (type, number); records with equal keys keep their item
   * order, and `totalBills` counts them.
   */
  lemma WrittenDocument(root: Element, currentStatus: nat -> Attempt<Element>, clock: nat -> string, syncTime: string)
    ensures var built := Built(Items(root), currentStatus, clock);
      var doc := SaveOutputs(SortBy(built, SortKeyOf), syncTime);
      && SortedBy(doc.bills, SortKeyOf)
      && multiset(doc.bills) == multiset(built)
      && (forall k :: WithKey(doc.bills, SortKeyOf, k) == WithKey(built, SortKeyOf, k))
      && doc.totalBills == |doc.bills| <= |Items(root)|
  {
    var built := Built(Items(root), currentStatus, clock);
    SortByCorrect(built, SortKeyOf);
    SortByPermutes(built, SortKeyOf);
    BuiltExact(Items(root), currentStatus, clock);
  }

  /**
   * A list reply whose root is `<ArrayOfLegislation>` over `<Legislation>` items has
   * the root itself among the matches, first, since its tag also ends with
   * "Legislation"; it gives no record, because none of its children carries a number.
   */
  lemma ArrayRootSkipped(items: seq<Element>, currentStatus: nat -> Attempt<Element>, now: string)
    requires forall i :: 0 <= i < |items| ==> items[i].tag == "Legislation"
    ensures var root := Element("ArrayOfLegislation", None, items);
      && |Items(root)| > 0 && Items(root)[0] == root
      && BuildBillRecord(root, currentStatus, now).None?
  {
    var root := Element("ArrayOfLegislation", None, items);
    assert Matches(root, "Legislation") by {
      assert root.tag[|root.tag| - |"Legislation"|..] == "Legislation";
    }
    IterChildrenFinds(root, "Legislation");
    NotMatching(items, "DisplayNumber");
    NotMatching(items, "ShortLegislationType");
    NotMatching(items, "BillId");
    FirstTextNoMatch(items, "DisplayNumber", None);
    FirstTextNoMatch(items, "ShortLegislationType", None);
    FirstTextNoMatch(items, "BillId", None);
  }

  /** No `<Legislation>` child ends with the given longer field name. */
  lemma NotMatching(items: seq<Element>, suffix: string)
    requires forall i :: 0 <= i < |items| ==> items[i].tag == "Legislation"
    requires suffix in {"DisplayNumber", "ShortLegislationType", "BillId"}
    ensures forall i :: 0 <= i < |items| ==> !Matches(items[i], suffix)
  {
    forall i | 0 <= i < |items| ensures !Matches(items[i], suffix) {
      var tag := items[i].tag;
      if |suffix| <= |tag| {
        assert tag[|tag| - |suffix|..][|suffix| - 1] == tag[|tag| - 1] == 'n';
        assert suffix[|suffix| - 1] != 'n';
      }
    }
  }

  // ---------------------------------------------------------------------------
  // The written file as the validator reads it
  // ---------------------------------------------------------------------------

  /** A record as a JSON object. */
  function AsBill(b: BillRecord): Validation.Bill
  {
    map[
      "id" := Validation.Str(b.id), "number" := Validation.Str(b.number),
      "title" := Validation.Str(b.title), "status" := Validation.Str(b.status),
      "lastUpdated" := Validation.Str(b.lastUpdated), "legUrl" := Validation.Str(b.legUrl)]
  }

  /** `bills.json` as the validator loads it. */
  function AsValidated(doc: OutputDocument): Validation.Document
  {
    Validation.Document(Some(seq(|doc.bills|, i requires 0 <= i < |doc.bills| => AsBill(doc.bills[i]))),
      Some(Validation.Int(doc.totalBills)))
  }

  /**
   * The saved document passes the validator's count check, but every record fails its
   * required-fields check: `priority`, `topic` and `session` are never written.
   */
  lemma SavedDocumentChecks(bills: seq<BillRecord>, lastSync: string)
    ensures Validation.CountErrors(AsValidated(SaveOutputs(bills, lastSync))) == []
    ensures var v := Validation.BillsOf(AsValidated(SaveOutputs(bills, lastSync)));
      forall i :: 0 <= i < |bills| ==>
        Validation.MissingFields(i, Validation.Str(bills[i].id), {"priority", "topic", "session"})
          in Validation.FieldErrors(v)
  {
    var v := Validation.BillsOf(AsValidated(SaveOutputs(bills, lastSync)));
    Validation.FieldErrorsExact(v);
    forall i | 0 <= i < |bills|
      ensures Validation.MissingFields(i, Validation.Str(bills[i].id), {"priority", "topic", "session"})
        in Validation.FieldErrors(v)
    {
      assert v[i] == AsBill(bills[i]);
      assert "priority" !in v[i].Keys;
      assert Validation.RequiredFields - v[i].Keys == {"priority", "topic", "session"};
    }
  }
}
