/**
 * The namespace-agnostic XML helpers of scripts/fetch_all_bills.py. An element is
 * its tag (namespace prefix included, as `{uri}Name`), its text (`None` when it has
 * none) and its child elements in document order.
 */
module Xml {
  import opened Wrappers
  import opened Text

  datatype Element = Element(tag: string, text: Option<string>, children: seq<Element>)

  /** A tag matches a suffix when it ends with it, so `{uri}LongTitle` matches "Title". */
  predicate Matches(e: Element, suffix: string)
  {
    EndsWith(e.tag, suffix)
  }

  /** Python truthiness of an optional string: neither `None` nor "". */
  predicate Present(s: Option<string>)
  {
    s.Some? && s.value != ""
  }

  /**
   * What the first matching child yields: when it has a non-empty text, that text
   * with the whitespace around it removed and nothing else (it may strip down to "");
   * otherwise the default.
   */
  function ChildText(child: Element, default: Option<string>): (r: Option<string>)
    ensures Present(child.text) ==> r.Some? && |r.value| <= |child.text.value|
    ensures Present(child.text) && r.value != [] ==> !IsSpace(r.value[0]) && !IsSpace(r.value[|r.value| - 1])
    ensures Present(child.text) ==> IsStripOf(r.value, child.text.value)
    ensures !Present(child.text) ==> r == default
  {
    if Present(child.text) then
      StripIsStripOf(child.text.value);
      Some(Strip(child.text.value))
    else default
  }

  /** The search of `xml_find_text` over a list of children: the first match decides. */
  function FirstText(children: seq<Element>, suffix: string, default: Option<string>): Option<string>
  {
    if children == [] then default
    else if Matches(children[0], suffix) then ChildText(children[0], default)
    else FirstText(children[1..], suffix, default)
  }

  /** With no matching child the default comes back. */
  lemma {:induction false} FirstTextNoMatch(children: seq<Element>, suffix: string, default: Option<string>)
    requires forall i :: 0 <= i < |children| ==> !Matches(children[i], suffix)
    ensures FirstText(children, suffix, default) == default
  {
    if children != [] {
      assert !Matches(children[0], suffix);
      assert forall i :: 0 <= i < |children| - 1 ==> children[1..][i] == children[i + 1];
      FirstTextNoMatch(children[1..], suffix, default);
    }
  }

  /** The first matching child decides, whatever the children after it hold. */
  lemma {:induction false} FirstTextFirstMatch(children: seq<Element>, suffix: string, default: Option<string>, i: nat)
    requires i < |children| && Matches(children[i], suffix)
    requires forall j :: 0 <= j < i ==> !Matches(children[j], suffix)
    ensures FirstText(children, suffix, default) == ChildText(children[i], default)
  {
    if i > 0 {
      assert !Matches(children[0], suffix);
      assert forall j :: 0 <= j < i - 1 ==> children[1..][j] == children[j + 1];
      FirstTextFirstMatch(children[1..], suffix, default, i - 1);
    }
  }

  /** `xml_find_text(elem, tag_suffix, default)`: only direct children are searched. */
  function FindText(elem: Element, suffix: string, default: Option<string>): Option<string>
  {
    FirstText(elem.children, suffix, default)
  }

  /** A found text is the stripped, non-empty text of a matching child; anything else is the default. */
  lemma {:induction false} FirstTextSource(children: seq<Element>, suffix: string, default: Option<string>)
    ensures FirstText(children, suffix, default) == default
      || exists c :: (c in children && Matches(c, suffix) && Present(c.text)
        && FirstText(children, suffix, default) == Some(Strip(c.text.value)))
  {
    if children != [] && !Matches(children[0], suffix) {
      FirstTextSource(children[1..], suffix, default);
      assert forall c :: c in children[1..] ==> c in children;
    }
  }

  /** A tag ending with `long` ends with every suffix of `long`. */
  lemma EndsWithSuffix(tag: string, long: string, short: string)
    requires EndsWith(tag, long) && EndsWith(long, short)
    ensures EndsWith(tag, short)
  {
    assert tag[|tag| - |short|..] == tag[|tag| - |long|..][|long| - |short|..];
  }

  /** Children after the first match are never looked at. */
  lemma {:induction false} FirstMatchWins(children: seq<Element>, rest: seq<Element>, suffix: string, default: Option<string>)
    requires exists i :: 0 <= i < |children| && Matches(children[i], suffix)
    ensures FirstText(children + rest, suffix, default) == FirstText(children, suffix, default)
  {
    if !Matches(children[0], suffix) {
      assert (children + rest)[1..] == children[1..] + rest;
      var i :| 0 <= i < |children| && Matches(children[i], suffix);
      assert children[1..][i - 1] == children[i];
      FirstMatchWins(children[1..], rest, suffix, default);
    }
  }

  /** Children that do not match are skipped over. */
  lemma {:induction false} NonMatchingSkipped(children: seq<Element>, rest: seq<Element>, suffix: string, default: Option<string>)
    requires forall i :: 0 <= i < |children| ==> !Matches(children[i], suffix)
    ensures FirstText(children + rest, suffix, default) == FirstText(rest, suffix, default)
  {
    if children != [] {
      var s := children + rest;
      assert s[0] == children[0] && !Matches(s[0], suffix);
      assert s[1..] == children[1..] + rest;
      assert FirstText(s, suffix, default) == FirstText(s[1..], suffix, default);
      NonMatchingSkipped(children[1..], rest, suffix, default);
    } else {
      assert children + rest == rest;
    }
  }

  /** `elem.iter()`: the element itself, then its descendants, depth first in document order. */
  function Subtree(e: Element): (r: seq<Element>)
    ensures |r| >= 1 && r[0] == e
    decreases e, 1
  {
    [e] + Forest(e.children)
  }

  /** The pre-order walks of a list of sibling trees, one after the other. */
  function Forest(cs: seq<Element>): seq<Element>
    decreases cs, 0
  {
    if cs == [] then [] else Subtree(cs[0]) + Forest(cs[1..])
  }

  /** The elements of a walk whose tag ends with the suffix, in walk order. */
  function Matching(es: seq<Element>, suffix: string): seq<Element>
  {
    if es == [] then []
    else Matching(es[..|es| - 1], suffix) + (if Matches(es[|es| - 1], suffix) then [es[|es| - 1]] else [])
  }

  /** `xml_iter_children`: the loop over `elem.iter()` collecting the matching elements. */
  method IterChildren(elem: Element, suffix: string) returns (matches: seq<Element>)
    ensures matches == Matching(Subtree(elem), suffix)
  {
    var all := Subtree(elem);
    matches := [];
    var i := 0;
    while i < |all|
      invariant 0 <= i <= |all|
      invariant matches == Matching(all[..i], suffix)
    {
      var e := all[i];
      assert all[..i + 1][..i] == all[..i];
      if Matches(e, suffix) {
        matches := matches + [e];
      }
      i := i + 1;
    }
    assert all[..|all|] == all;
  }

  /** Filtering a walk keeps exactly its matching elements, never more of them than the walk has. */
  lemma {:induction false} MatchingExact(es: seq<Element>, suffix: string)
    ensures forall x :: x in Matching(es, suffix) <==> x in es && Matches(x, suffix)
    ensures |Matching(es, suffix)| <= |es|
  {
    if es != [] {
      var init := es[..|es| - 1];
      assert es == init + [es[|es| - 1]];
      MatchingExact(init, suffix);
    }
  }

  /** Filtering distributes over the concatenation of walks. */
  lemma {:induction false} MatchingAppend(a: seq<Element>, b: seq<Element>, suffix: string)
    ensures Matching(a + b, suffix) == Matching(a, suffix) + Matching(b, suffix)
    decreases |b|
  {
    if b != [] {
      var init := b[..|b| - 1];
      assert (a + b)[..|a + b| - 1] == a + init;
      assert (a + b)[|a + b| - 1] == b[|b| - 1];
      MatchingAppend(a, init, suffix);
    } else {
      assert a + b == a;
    }
  }

  /** Every child of a tree in the list is met by the walk of the list. */
  lemma {:induction false} ForestHasRoots(cs: seq<Element>)
    ensures forall c :: c in cs ==> c in Forest(cs)
  {
    if cs != [] {
      ForestHasRoots(cs[1..]);
      assert Subtree(cs[0])[0] == cs[0];
      forall c | c in cs ensures c in Forest(cs) {
        if c != cs[0] {
          assert c in cs[1..];
        }
      }
    }
  }

  /**
   * The walk starts at the element itself, so a matching root comes first; every
   * matching direct child is found as well, and nothing but matching elements of the
   * walk is returned.
   */
  lemma IterChildrenFinds(elem: Element, suffix: string)
    ensures Matches(elem, suffix) ==> |Matching(Subtree(elem), suffix)| > 0 && Matching(Subtree(elem), suffix)[0] == elem
    ensures forall c :: c in elem.children && Matches(c, suffix) ==> c in Matching(Subtree(elem), suffix)
    ensures forall x :: x in Matching(Subtree(elem), suffix) ==> x in Subtree(elem) && Matches(x, suffix)
  {
    MatchingAppend([elem], Forest(elem.children), suffix);
    assert Matching([elem], suffix) == Matching([], suffix) + (if Matches(elem, suffix) then [elem] else []);
    ForestHasRoots(elem.children);
    MatchingExact(Subtree(elem), suffix);
  }
}
