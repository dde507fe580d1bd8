/** The distinct evidence categories of an incident, sorted in place: what the
    policy kernel counts before it lets anything be automated. */
module EvidenceCategories {
  import opened Order
  import opened Findings
  import opened Risk
  import opened Scale

  ghost predicate SortedUpTo(s: seq<string>, n: nat)
    requires n <= |s|
  {
    forall p, q :: 0 <= p < q < n ==> !StrLess(s[q], s[p])
  }

  /** The first `n` elements are in order once the one at `hole` is disregarded
      as a right-hand side. */
  ghost predicate SortedBut(s: seq<string>, n: nat, hole: int)
    requires n <= |s|
  {
    forall p, q :: 0 <= p < q < n && q != hole ==> !StrLess(s[q], s[p])
  }

  lemma SinkStep(s: seq<string>, t: seq<string>, n: nat, j: int)
    requires 0 < j < n <= |s| && SortedBut(s, n, j) && StrLess(s[j], s[j - 1])
    requires t == s[j := s[j - 1]][j - 1 := s[j]]
    ensures SortedBut(t, n, j - 1)
    ensures multiset(t) == multiset(s)
  {
    LexTrichotomy(CharLess, s[j], s[j - 1]);
    hide StrLess;
  }

  lemma SinkDone(s: seq<string>, n: nat, j: int)
    requires 0 <= j < n <= |s| && SortedBut(s, n, j)
    requires j > 0 ==> !StrLess(s[j], s[j - 1])
    ensures SortedUpTo(s, n)
  {
    StrTotal();
    hide StrLess;
    forall p | 0 <= p < j ensures !StrLess(s[j], s[p]) {
      if p < j - 1 {
        assert !StrLess(s[j - 1], s[p]);
      }
    }
  }

  method SwapDown(c: array<string>, j: nat)
    requires 0 < j < c.Length
    modifies c
    ensures c[..] == old(c[..])[j := old(c[j - 1])][j - 1 := old(c[j])]
  {
    c[j], c[j - 1] := c[j - 1], c[j];
  }

  /** Insertion sort, swapping neighbours in place. */
  method SortCategories(c: array<string>)
    modifies c
    ensures multiset(c[..]) == multiset(old(c[..]))
    ensures SortedUpTo(c[..], c.Length)
  {
    hide StrLess, SortedUpTo, SortedBut;
    StartSorted(c[..]);
    var i := 1;
    while i < c.Length
      invariant 1 <= i && (i <= c.Length || c.Length == 0)
      invariant multiset(c[..]) == multiset(old(c[..]))
      invariant SortedUpTo(c[..], if i <= c.Length then i else 0)
    {
      var j := i;
      OpenHole(c[..], i);
      while j > 0 && StrLess(c[j], c[j - 1])
        invariant 0 <= j <= i
        invariant multiset(c[..]) == multiset(old(c[..]))
        invariant SortedBut(c[..], i + 1, j)
      {
        ghost var before := c[..];
        SwapDown(c, j);
        SinkStep(before, c[..], i + 1, j);
        j := j - 1;
      }
      SinkDone(c[..], i + 1, j);
      i := i + 1;
    }
    StartSorted(c[..]);
  }

  lemma StartSorted(s: seq<string>)
    ensures SortedUpTo(s, 0) && (|s| > 0 ==> SortedUpTo(s, 1))
  {
  }

  lemma OpenHole(s: seq<string>, i: nat)
    requires i < |s| && SortedUpTo(s, i)
    ensures SortedBut(s, i + 1, i)
  {
  }

  /** The categories, whatever order the set is ranged over in. */
  method DistinctCategories(fs: seq<Finding>) returns (out: seq<string>)
    ensures Ascending(StrLess, out)
    ensures Elements(out) == Categories(fs)
    ensures |out| == |Categories(fs)|
  {
    var seen: set<string> := {};
    for k := 0 to |fs|
      invariant seen == Categories(fs[..k])
    {
      assert fs[..k + 1] == fs[..k] + [fs[k]];
      seen := seen + {fs[k].category};
    }
    assert fs[..|fs|] == fs;
    var collected := Ranged(seen);
    var cells := new string[|collected|](i requires 0 <= i < |collected| => collected[i]);
    assert cells[..] == collected;
    SortCategories(cells);
    out := cells[..];
    SortedListing(collected, out);
  }

  lemma SortedListing(collected: seq<string>, out: seq<string>)
    requires Distinct(collected) && multiset(out) == multiset(collected) && SortedUpTo(out, |out|)
    ensures Ascending(StrLess, out) && Elements(out) == Elements(collected) && |out| == |Elements(collected)|
  {
    SameElements(out, collected);
    DistinctPermutation(collected, out);
    StrTotal();
    AscendingFromSorted(StrLess, out);
    DistinctLength(out);
    assert Elements(out) == Elements(collected);
  }

  /** A set ranged over in any order. */
  method Ranged(seen: set<string>) returns (collected: seq<string>)
    ensures Distinct(collected) && Elements(collected) == seen
  {
    collected := [];
    var rest := seen;
    while rest != {}
      invariant rest <= seen && Distinct(collected)
      invariant Elements(collected) == seen - rest
    {
      var c :| c in rest;
      assert forall x :: x in collected ==> x in Elements(collected);
      ghost var before := collected;
      collected, rest := collected + [c], rest - {c};
      assert Elements(collected) == Elements(before) + {c};
    }
  }

  /** The count risk scoring reports is the length of this list. */
  lemma CategoryCountAgrees(curve: Curve, input: Input, out: seq<string>)
    requires Ascending(StrLess, out) && Elements(out) == Categories(input.findings)
    ensures Assessed(curve, input).evidenceCategories == |out|
  {
    forall i, j | 0 <= i < j < |out| ensures out[i] != out[j] {
      LexTrichotomy(CharLess, out[i], out[j]);
    }
    DistinctLength(out);
  }
}
