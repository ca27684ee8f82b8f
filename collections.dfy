/** Facts about sequences without repeated elements, shared by the modules below. */
module Collections {

  /** No element occurs twice. */
  predicate Distinct<T(==)>(s: seq<T>)
  {
    forall i, j :: 0 <= i < j < |s| ==> s[i] != s[j]
  }

  /** The set of elements of `s` (Python's `set(s)`). */
  function Elements<T(==,!new)>(s: seq<T>): (r: set<T>)
    ensures forall x :: x in r <==> x in s
  {
    set x | x in s
  }

  /** The id of every element, in order: `[id(x) for x in xs]`. */
  function Ids<T>(xs: seq<T>, id: T -> string): (ids: seq<string>)
    ensures |ids| == |xs|
    ensures forall i :: 0 <= i < |xs| ==> ids[i] == id(xs[i])
  {
    seq(|xs|, i requires 0 <= i < |xs| => id(xs[i]))
  }

  /** `len(set(s))` is at most `len(s)`, with equality exactly when `s` has no repeats. */
  lemma {:induction false} ElementsCardinality<T(!new)>(s: seq<T>)
    ensures |Elements(s)| <= |s|
    ensures |Elements(s)| == |s| <==> Distinct(s)
  {
    if s != [] {
      var init, last := s[..|s| - 1], s[|s| - 1];
      ElementsCardinality(init);
      assert s == init + [last];
      assert Elements(s) == Elements(init) + {last};
      if last in init {
        assert Elements(s) == Elements(init);
        var m :| 0 <= m < |init| && init[m] == last;
        assert s[m] == s[|s| - 1];
      } else {
        assert |Elements(s)| == |Elements(init)| + 1;
        if Distinct(init) {
          forall i, j | 0 <= i < j < |s| ensures s[i] != s[j] {
            if j < |s| - 1 { assert s[i] == init[i] && s[j] == init[j]; }
            else { assert s[i] == init[i]; }
          }
        } else {
          var i, j :| 0 <= i < j < |init| && init[i] == init[j];
          assert s[i] == s[j];
        }
      }
    }
  }
}
