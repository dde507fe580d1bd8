/** The byte stream a policy revision is hashed from. The hash itself stays
    outside the model: what is proved is that the stream determines the policy
    tree, and that the order files are visited in does not matter. */
module Revision {
  import opened Order

  newtype byte = x: int | 0 <= x < 256

  type Bytes = seq<byte>

  const COLON: byte := 58
  const NEWLINE: byte := 10
  const ZERO: byte := 48

  // ".rego" and "_test.rego".
  const SUFFIX: Bytes := [46, 114, 101, 103, 111]
  const TEST_SUFFIX: Bytes := [95, 116, 101, 115, 116] + SUFFIX

  datatype File = File(path: Bytes, content: Bytes)

  predicate HasSuffix(s: Bytes, suffix: Bytes) {
    |s| >= |suffix| && s[|s| - |suffix|..] == suffix
  }

  /** Policy sources, as opposed to tests and anything else in the tree. */
  predicate Relevant(path: Bytes) {
    HasSuffix(path, SUFFIX) && !HasSuffix(path, TEST_SUFFIX)
  }

  // -------------------------------------------------------------------------
  // Encoding
  // -------------------------------------------------------------------------

  function Digits(n: nat): Bytes {
    if n < 10 then [ZERO + n as byte] else Digits(n / 10) + [ZERO + (n % 10) as byte]
  }

  /** A path with its length, then the content with its length. */
  function Frame(f: File): Bytes {
    Digits(|f.path|) + [COLON] + f.path + [NEWLINE] + (Digits(|f.content|) + [COLON] + [NEWLINE] + f.content)
  }

  function Encode(fs: seq<File>): Bytes {
    if fs == [] then [] else Encode(fs[..|fs| - 1]) + Frame(fs[|fs| - 1])
  }

  // -------------------------------------------------------------------------
  // Decoding: an independent reading of the stream
  // -------------------------------------------------------------------------

  datatype Parsed<T> = Malformed | Got(value: T, rest: Bytes)

  predicate IsDigit(b: byte) {
    ZERO <= b < ZERO + 10
  }

  function Value(ds: Bytes): nat
    requires forall b :: b in ds ==> IsDigit(b)
  {
    if ds == [] then 0
    else
      assert ds[|ds| - 1] in ds && IsDigit(ds[|ds| - 1]);
      10 * Value(ds[..|ds| - 1]) + (ds[|ds| - 1] as int - ZERO as int)
  }

  function LeadingDigits(s: Bytes): (n: nat)
    ensures n <= |s|
    ensures forall i :: 0 <= i < n ==> IsDigit(s[i])
    ensures n < |s| ==> !IsDigit(s[n])
  {
    if s != [] && IsDigit(s[0]) then 1 + LeadingDigits(s[1..]) else 0
  }

  /** A decimal count and the colon after it. */
  function ReadCount(s: Bytes): (p: Parsed<nat>)
    ensures p.Got? ==> |p.rest| < |s|
  {
    var n := LeadingDigits(s);
    if n == 0 || n == |s| || s[n] != COLON then Malformed
    else Got(Value(s[..n]), s[n + 1..])
  }

  function ReadFile(s: Bytes): (p: Parsed<File>)
    ensures p.Got? ==> |p.rest| < |s|
  {
    var c := ReadCount(s);
    if c.Malformed? || |c.rest| <= c.value || c.rest[c.value] != NEWLINE then Malformed
    else
      var d := ReadCount(c.rest[c.value + 1..]);
      if d.Malformed? || |d.rest| <= d.value || d.rest[0] != NEWLINE then Malformed
      else Got(File(c.rest[..c.value], d.rest[1..d.value + 1]), d.rest[d.value + 1..])
  }

  /** The files of a stream, or nothing if it is not a well-formed one. */
  function Decode(s: Bytes): Parsed<seq<File>>
    decreases |s|
  {
    if s == [] then Got([], [])
    else
      var p := ReadFile(s);
      if p.Malformed? then Malformed
      else
        var tail := Decode(p.rest);
        if tail.Malformed? then Malformed else Got([p.value] + tail.value, [])
  }

  lemma {:induction false} DigitsRead(n: nat)
    ensures Digits(n) != [] && forall b :: b in Digits(n) ==> IsDigit(b)
    ensures Value(Digits(n)) == n
  {
    if n >= 10 {
      DigitsRead(n / 10);
      assert Digits(n)[..|Digits(n)| - 1] == Digits(n / 10);
    }
  }

  lemma {:induction false} LeadingStops(ds: Bytes, tail: Bytes)
    requires forall i :: 0 <= i < |ds| ==> IsDigit(ds[i])
    requires tail != [] && !IsDigit(tail[0])
    ensures LeadingDigits(ds + tail) == |ds|
  {
    if ds == [] {
      assert ds + tail == tail;
    } else {
      assert (ds + tail)[1..] == ds[1..] + tail;
      LeadingStops(ds[1..], tail);
    }
  }

  lemma CountRead(n: nat, rest: Bytes)
    ensures ReadCount(Digits(n) + [COLON] + rest) == Got(n, rest)
  {
    DigitsRead(n);
    var ds := Digits(n);
    var s := ds + [COLON] + rest;
    assert s == ds + ([COLON] + rest);
    LeadingStops(ds, [COLON] + rest);
    assert s[..|ds|] == ds && s[|ds| + 1..] == rest;
  }

  /** Reading undoes framing, whatever follows and whatever the bytes are. */
  lemma FrameRead(f: File, rest: Bytes)
    ensures ReadFile(Frame(f) + rest) == Got(f, rest)
  {
    hide Digits, ReadCount;
    var body := Digits(|f.content|) + [COLON] + [NEWLINE] + f.content;
    var afterPath := f.path + [NEWLINE] + body + rest;
    assert Frame(f) + rest == Digits(|f.path|) + [COLON] + afterPath;
    CountRead(|f.path|, afterPath);
    assert afterPath[..|f.path|] == f.path && afterPath[|f.path|] == NEWLINE;
    var afterCount := [NEWLINE] + f.content + rest;
    assert afterPath[|f.path| + 1..] == Digits(|f.content|) + [COLON] + afterCount;
    CountRead(|f.content|, afterCount);
    assert afterCount[1..|f.content| + 1] == f.content && afterCount[|f.content| + 1..] == rest;
  }

  lemma {:induction false} EncodeCons(f: File, fs: seq<File>)
    ensures Encode([f] + fs) == Frame(f) + Encode(fs)
    decreases |fs|
  {
    hide Frame;
    var all := [f] + fs;
    if fs == [] {
      assert all[..0] == [];
    } else {
      var n := |fs| - 1;
      assert all[..|all| - 1] == [f] + fs[..n];
      EncodeCons(f, fs[..n]);
    }
  }

  /** The stream is uniquely decodable. */
  lemma {:induction false} DecodeUndoesEncode(fs: seq<File>)
    ensures Decode(Encode(fs)) == Got(fs, [])
    decreases |fs|
  {
    hide Frame, ReadFile, Digits;
    if fs != [] {
      assert fs == [fs[0]] + fs[1..];
      EncodeCons(fs[0], fs[1..]);
      FrameRead(fs[0], Encode(fs[1..]));
      DecodeUndoesEncode(fs[1..]);
    }
  }

  lemma EncodeInjective(fs: seq<File>, gs: seq<File>)
    ensures Encode(fs) == Encode(gs) <==> fs == gs
  {
    DecodeUndoesEncode(fs);
    DecodeUndoesEncode(gs);
  }

  // -------------------------------------------------------------------------
  // The walk, the sort and the stream
  // -------------------------------------------------------------------------

  type Tree = map<Bytes, Bytes>

  predicate ByteLess(a: byte, b: byte) {
    a < b
  }

  predicate PathLess(a: Bytes, b: Bytes) {
    LexLess(ByteLess, a, b)
  }

  lemma PathTotal()
    ensures TotalOrder(PathLess)
  {
    LexTotal(ByteLess);
    var lex := (a: seq<byte>, b: seq<byte>) => LexLess(ByteLess, a, b);
    assert forall a, b :: PathLess(a, b) == lex(a, b);
  }

  ghost function Sources(tree: Tree): Tree {
    map p | p in tree && Relevant(p) :: tree[p]
  }

  /** The sources in path order, each with its content. */
  ghost predicate Listing(tree: Tree, fs: seq<File>) {
    && Ascending(PathLess, Paths(fs))
    && (forall p :: p in Paths(fs) <==> p in Sources(tree))
    && (forall f :: f in fs ==> f.path in tree && f.content == tree[f.path])
  }

  function Paths(fs: seq<File>): seq<Bytes> {
    seq(|fs|, i requires 0 <= i < |fs| => fs[i].path)
  }

  datatype Outcome = Stream(bytes: Bytes) | Unavailable

  /** `walk` is the tree's paths in the order the file system hands them out. */
  method Revision(tree: Tree, walk: seq<Bytes>, walkFails: bool, unreadable: set<Bytes>)
    returns (r: Outcome, ghost fs: seq<File>)
    requires Distinct(walk) && forall p :: p in walk <==> p in tree
    ensures r.Unavailable? <==> walkFails || exists p :: p in Sources(tree) && p in unreadable
    ensures r.Stream? ==> Listing(tree, fs) && r.bytes == Encode(fs)
  {
    hide Frame, Encode, Digits, Ascending, PathLess, Relevant;
    fs := [];
    if walkFails {
      return Unavailable, [];
    }
    var paths := CollectPaths(tree, walk);
    var sum: Bytes := [];
    NothingEncoded();
    for i := 0 to |paths|
      invariant Paths(fs) == paths[..i] && sum == Encode(fs)
      invariant forall f :: f in fs ==> f.path in tree && f.content == tree[f.path]
      invariant forall p :: p in paths[..i] ==> p !in unreadable
    {
      var path := paths[i];
      assert path in paths && paths[..i + 1] == paths[..i] + [path];
      if path in unreadable {
        return Unavailable, [];
      }
      var content := tree[path];
      ghost var f := File(path, content);
      FrameText(f);
      sum := sum + (Digits(|path|) + [COLON] + path + [NEWLINE]);
      sum := sum + (Digits(|content|) + [COLON] + [NEWLINE]);
      sum := sum + content;
      EncodeSnoc(fs, f);
      assert Paths(fs + [f]) == Paths(fs) + [path];
      fs := fs + [f];
    }
    assert paths[..|paths|] == paths;
    assert forall p :: p in paths ==> p !in unreadable;
    r := Stream(sum);
  }

  lemma NothingEncoded()
    ensures Encode([]) == []
  {
  }

  lemma EncodeSnoc(fs: seq<File>, f: File)
    ensures Encode(fs + [f]) == Encode(fs) + Frame(f)
  {
    assert (fs + [f])[..|fs|] == fs;
  }

  lemma FrameText(f: File)
    ensures Frame(f) == (Digits(|f.path|) + [COLON] + f.path + [NEWLINE])
                        + (Digits(|f.content|) + [COLON] + [NEWLINE]) + f.content
  {
  }

  method CollectPaths(tree: Tree, walk: seq<Bytes>) returns (paths: seq<Bytes>)
    requires Distinct(walk) && forall p :: p in walk <==> p in tree
    ensures Ascending(PathLess, paths)
    ensures forall p :: p in paths <==> p in Sources(tree)
  {
    paths := [];
    for i := 0 to |walk|
      invariant Distinct(paths)
      invariant forall p :: p in paths <==> p in walk[..i] && Relevant(p)
    {
      assert walk[..i + 1] == walk[..i] + [walk[i]];
      assert walk[i] !in walk[..i];
      if Relevant(walk[i]) {
        paths := paths + [walk[i]];
      }
    }
    assert walk[..|walk|] == walk;
    PathTotal();
    hide PathLess, Relevant;
    ghost var unsorted := paths;
    paths := SortSlice(paths, PathLess);
    DistinctPermutation(unsorted, paths);
    AscendingFromSorted(PathLess, paths);
  }

  lemma ListingUnique(tree: Tree, fs: seq<File>, other: Tree, gs: seq<File>)
    requires Listing(tree, fs) && Listing(other, gs) && Sources(tree) == Sources(other)
    ensures fs == gs
  {
    PathTotal();
    hide PathLess, Relevant;
    SortedUnique(PathLess, Paths(fs), Paths(gs));
    assert |fs| == |Paths(fs)| && |gs| == |Paths(gs)|;
    forall i | 0 <= i < |fs| ensures fs[i] == gs[i] {
      assert fs[i] in fs && gs[i] in gs;
      assert Paths(fs)[i] == fs[i].path && Paths(gs)[i] == gs[i].path;
      assert Paths(fs)[i] in Sources(tree);
      assert Sources(tree)[fs[i].path] == tree[fs[i].path] && Sources(other)[gs[i].path] == other[gs[i].path];
    }
  }

  lemma ListingDetermines(tree: Tree, fs: seq<File>, other: Tree)
    requires Listing(tree, fs) && Listing(other, fs)
    ensures Sources(tree) == Sources(other)
  {
    hide PathLess, Relevant;
    forall p | p in Sources(tree) ensures p in Sources(other) && Sources(tree)[p] == Sources(other)[p] {
      assert p in Paths(fs);
      var i :| 0 <= i < |fs| && Paths(fs)[i] == p;
      assert fs[i] in fs;
    }
    forall p | p in Sources(other) ensures p in Sources(tree) {
      assert p in Paths(fs);
    }
  }

  /** Two trees hash the same bytes exactly when their policy sources agree, path
      by path and byte by byte; visiting order, tests and other files never count. */
  lemma StreamIdentifiesSources(tree: Tree, fs: seq<File>, other: Tree, gs: seq<File>)
    requires Listing(tree, fs) && Listing(other, gs)
    ensures Encode(fs) == Encode(gs) <==> Sources(tree) == Sources(other)
  {
    EncodeInjective(fs, gs);
    if Sources(tree) == Sources(other) {
      ListingUnique(tree, fs, other, gs);
    }
    if fs == gs {
      ListingDetermines(tree, fs, other);
    }
  }
}
