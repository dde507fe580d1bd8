/** Orders, sorted sequences and the sorting primitive the platform leans on.
    Go's `sort.Slice` promises only "a permutation with no inversion", so that is
    all `SortSlice` promises; determinism of every listing is then a theorem about
    the order (`SortedUnique`), never about the algorithm or the map iteration
    order the elements arrived in. */
module Order {

  /** A strict weak order: the contract `sort.Slice` puts on its comparison. */
  ghost predicate WeakOrder<T(!new)>(less: (T, T) -> bool) {
    && (forall a, b :: less(a, b) ==> !less(b, a))
    && (forall a, b, c :: !less(b, a) && !less(c, b) ==> !less(c, a))
  }

  /** A strict total order. */
  ghost predicate TotalOrder<T(!new)>(less: (T, T) -> bool) {
    && WeakOrder(less)
    && (forall a, b :: less(a, b) || less(b, a) || a == b)
  }

  /** No later element belongs before an earlier one. */
  ghost predicate NoInversion<T>(less: (T, T) -> bool, s: seq<T>) {
    forall i, j :: 0 <= i < j < |s| ==> !less(s[j], s[i])
  }

  /** Each element strictly precedes every later one. */
  ghost predicate Ascending<T>(less: (T, T) -> bool, s: seq<T>) {
    forall i, j :: 0 <= i < j < |s| ==> less(s[i], s[j])
  }

  ghost predicate Distinct<T>(s: seq<T>) {
    forall i, j :: 0 <= i < j < |s| ==> s[i] != s[j]
  }

  ghost function Elements<T>(s: seq<T>): set<T> {
    set x | x in s
  }

  /** The elements of an ascending sequence determine it. */
  lemma {:induction false} SortedUnique<T(!new)>(less: (T, T) -> bool, s: seq<T>, t: seq<T>)
    requires forall a, b :: less(a, b) ==> !less(b, a)
    requires Ascending(less, s) && Ascending(less, t)
    requires forall x :: x in s <==> x in t
    ensures s == t
  {
    assert t != [] ==> t[0] in s;
    assert s != [] ==> s[0] in t;
    if s != [] {
      var j :| 0 <= j < |t| && t[j] == s[0];
      var i :| 0 <= i < |s| && s[i] == t[0];
      assert s[0] == t[0];
      forall x ensures x in s[1..] <==> x in t[1..] {
        if x in s[1..] {
          var k :| 1 <= k < |s| && s[k] == x;
          assert x in t && less(s[0], x);
          var l :| 0 <= l < |t| && t[l] == x;
          assert l != 0;
          assert t[1..][l - 1] == x;
        }
        if x in t[1..] {
          var k :| 1 <= k < |t| && t[k] == x;
          assert x in s && less(t[0], x);
          var l :| 0 <= l < |s| && s[l] == x;
          assert l != 0;
          assert s[1..][l - 1] == x;
        }
      }
      SortedUnique(less, s[1..], t[1..]);
    }
  }

  lemma SameElements<T>(s: seq<T>, t: seq<T>)
    requires multiset(s) == multiset(t)
    ensures forall x :: x in s <==> x in t
    ensures |s| == |t|
  {
    forall x ensures x in s <==> x in t {
      assert x in s <==> x in multiset(s);
      assert x in t <==> x in multiset(t);
    }
    assert |multiset(s)| == |s| && |multiset(t)| == |t|;
  }

  /** Distinctness survives permutation. */
  lemma DistinctPermutation<T>(s: seq<T>, t: seq<T>)
    requires multiset(s) == multiset(t) && Distinct(s)
    ensures Distinct(t)
  {
    DistinctCounts(s);
    forall i, j | 0 <= i < j < |t| ensures t[i] != t[j] {
      assert t == t[..j] + t[j..];
      assert t[i] in multiset(t[..j]) by { assert t[..j][i] == t[i]; }
      assert t[j] in multiset(t[j..]) by { assert t[j..][0] == t[j]; }
      assert multiset(t)[t[j]] == multiset(t[..j])[t[j]] + multiset(t[j..])[t[j]];
    }
  }

  lemma {:induction false} DistinctCounts<T>(s: seq<T>)
    requires Distinct(s)
    ensures forall x :: multiset(s)[x] <= 1
  {
    if s != [] {
      var n := |s| - 1;
      DistinctCounts(s[..n]);
      assert s == s[..n] + [s[n]];
      assert s[n] !in s[..n];
      assert s[n] !in multiset(s[..n]);
    }
  }

  lemma {:induction false} DistinctLength<T>(s: seq<T>)
    requires Distinct(s)
    ensures |Elements(s)| == |s|
  {
    if s != [] {
      var n := |s| - 1;
      DistinctLength(s[..n]);
      assert s == s[..n] + [s[n]];
      assert Elements(s) == Elements(s[..n]) + {s[n]};
      assert s[n] !in Elements(s[..n]);
    }
  }

  lemma InsertKeepsOrder<T(!new)>(less: (T, T) -> bool, r: seq<T>, j: nat, x: T)
    requires NoInversion(less, r) && j <= |r|
    requires forall k :: 0 <= k < j ==> !less(x, r[k])
    requires forall k :: j <= k < |r| ==> !less(r[k], x)
    ensures NoInversion(less, r[..j] + [x] + r[j..])
    ensures multiset(r[..j] + [x] + r[j..]) == multiset(r) + multiset{x}
  {
    assert r == r[..j] + r[j..];
  }

  lemma BelowInsertionPoint<T(!new)>(less: (T, T) -> bool, r: seq<T>, j: nat, x: T)
    requires WeakOrder(less) && NoInversion(less, r) && j <= |r|
    requires j > 0 ==> !less(x, r[j - 1])
    ensures forall k :: 0 <= k < j ==> !less(x, r[k])
  {
    forall k | 0 <= k < j ensures !less(x, r[k]) {
      assert k < j - 1 ==> !less(r[j - 1], r[k]);
    }
  }

  /** Go's `sort.Slice`: some permutation without inversions. */
  method SortSlice<T(!new)>(s: seq<T>, less: (T, T) -> bool) returns (r: seq<T>)
    requires WeakOrder(less)
    ensures multiset(r) == multiset(s)
    ensures NoInversion(less, r)
    ensures |r| == |s|
    ensures forall x :: x in r <==> x in s
  {
    r := [];
    for i := 0 to |s|
      invariant |r| == i
      invariant multiset(r) == multiset(s[..i])
      invariant NoInversion(less, r)
    {
      var j := i;
      while j > 0 && less(s[i], r[j - 1])
        invariant 0 <= j <= i
        invariant forall k :: j <= k < i ==> less(s[i], r[k])
      {
        j := j - 1;
      }
      BelowInsertionPoint(less, r, j, s[i]);
      InsertKeepsOrder(less, r, j, s[i]);
      r := r[..j] + [s[i]] + r[j..];
      assert s[..i + 1] == s[..i] + [s[i]];
    }
    assert s[..|s|] == s;
    SameElements(r, s);
  }

  // -------------------------------------------------------------------------
  // Lexicographic order
  // -------------------------------------------------------------------------

  predicate LexLess<T(==)>(less: (T, T) -> bool, a: seq<T>, b: seq<T>) {
    if b == [] then false
    else if a == [] then true
    else less(a[0], b[0]) || (a[0] == b[0] && LexLess(less, a[1..], b[1..]))
  }

  lemma {:induction false} LexTrichotomy<T(!new)>(less: (T, T) -> bool, a: seq<T>, b: seq<T>)
    requires TotalOrder(less)
    ensures LexLess(less, a, b) || LexLess(less, b, a) || a == b
    ensures LexLess(less, a, b) ==> !LexLess(less, b, a) && a != b
  {
    if a != [] && b != [] {
      LexTrichotomy(less, a[1..], b[1..]);
      if a[0] == b[0] && a[1..] == b[1..] {
        assert a == [a[0]] + a[1..] && b == [b[0]] + b[1..];
      }
    }
  }

  lemma {:induction false} LexTransitive<T(!new)>(less: (T, T) -> bool, a: seq<T>, b: seq<T>, c: seq<T>)
    requires TotalOrder(less)
    requires LexLess(less, a, b) && LexLess(less, b, c)
    ensures LexLess(less, a, c)
  {
    if a != [] {
      if a[0] == b[0] && b[0] == c[0] {
        LexTransitive(less, a[1..], b[1..], c[1..]);
      } else if less(a[0], b[0]) && less(b[0], c[0]) {
        LessTransitive(less, a[0], b[0], c[0]);
      }
    }
  }

  lemma LessTransitive<T(!new)>(less: (T, T) -> bool, a: T, b: T, c: T)
    requires TotalOrder(less) && less(a, b) && less(b, c)
    ensures less(a, c)
  {
    assert !less(c, b) && !less(b, a);
  }

  /** Appending to equally long prefixes: the prefixes decide first. */
  lemma {:induction false} LexAppend<T(!new)>(less: (T, T) -> bool, a: seq<T>, b: seq<T>, x: T, y: T)
    requires TotalOrder(less) && |a| == |b|
    ensures LexLess(less, a + [x], b + [y]) <==> LexLess(less, a, b) || (a == b && less(x, y))
  {
    if a == [] {
      assert a + [x] == [x] && b + [y] == [y];
      assert [x][1..] == [] && [y][1..] == [];
    } else {
      assert (a + [x])[1..] == a[1..] + [x] && (b + [y])[1..] == b[1..] + [y];
      LexAppend(less, a[1..], b[1..], x, y);
      if a[0] == b[0] && a[1..] == b[1..] {
        assert a == [a[0]] + a[1..] && b == [b[0]] + b[1..];
      }
    }
  }

  predicate CharLess(a: char, b: char) {
    a < b
  }

  /** Go's `<` on strings. UTF-8 keeps code point order, so comparing characters
      and comparing bytes agree. */
  predicate StrLess(a: string, b: string) {
    LexLess(CharLess, a, b)
  }

  lemma LexTotal<T(!new)>(less: (T, T) -> bool)
    requires TotalOrder(less)
    ensures TotalOrder((a: seq<T>, b: seq<T>) => LexLess(less, a, b))
  {
    var lex := (a: seq<T>, b: seq<T>) => LexLess(less, a, b);
    forall a, b ensures lex(a, b) || lex(b, a) || a == b ensures lex(a, b) ==> !lex(b, a) {
      LexTrichotomy(less, a, b);
    }
    forall a, b, c | !lex(b, a) && !lex(c, b) ensures !lex(c, a) {
      LexTrichotomy(less, a, b);
      LexTrichotomy(less, b, c);
      LexTrichotomy(less, a, c);
      if lex(c, a) && a != b && b != c {
        LexTransitive(less, a, b, c);
      }
    }
  }

  lemma StrTotal()
    ensures TotalOrder(StrLess)
  {
    assert TotalOrder(CharLess);
    LexTotal(CharLess);
    var lex := (a: seq<char>, b: seq<char>) => LexLess(CharLess, a, b);
    assert TotalOrder(lex);
    assert forall a, b :: StrLess(a, b) == lex(a, b);
  }

  /** Without inversions and without repeats, a totally ordered sequence ascends. */
  lemma AscendingFromSorted<T(!new)>(less: (T, T) -> bool, s: seq<T>)
    requires TotalOrder(less) && NoInversion(less, s) && Distinct(s)
    ensures Ascending(less, s)
  {
  }
}
