/** Pagination, shared by every listing of the store. */
module Pages {

  const DEFAULT_PAGE_SIZE := 50
  const MAX_PAGE_SIZE := 200

  function ClampLimit(limit: int): (l: int)
    ensures 1 <= l <= MAX_PAGE_SIZE
  {
    if limit <= 0 then DEFAULT_PAGE_SIZE else if limit > MAX_PAGE_SIZE then MAX_PAGE_SIZE else limit
  }

  function From(offset: int): nat {
    if offset < 0 then 0 else offset
  }

  function Until(total: nat, limit: int, offset: int): nat {
    if From(offset) + ClampLimit(limit) > total then total else From(offset) + ClampLimit(limit)
  }

  /** What a list call returns of a listing. */
  function Page<T>(listing: seq<T>, limit: int, offset: int): seq<T> {
    if From(offset) >= |listing| then [] else listing[From(offset)..Until(|listing|, limit, offset)]
  }

  /** The first `k` pages, the offset advancing by the clamped limit. */
  function Pages<T>(listing: seq<T>, limit: int, k: nat): seq<T> {
    if k == 0 then [] else Pages(listing, limit, k - 1) + Page(listing, limit, (k - 1) * ClampLimit(limit))
  }

  /** Pages tile: concatenated they are a prefix of the listing, and all of it as
      soon as there are enough of them. Nothing is skipped, nothing comes twice. */
  lemma {:induction false} PagesTile<T>(listing: seq<T>, limit: int, k: nat)
    ensures Pages(listing, limit, k) ==
      if k * ClampLimit(limit) >= |listing| then listing else listing[..k * ClampLimit(limit)]
  {
    var l := ClampLimit(limit);
    if k == 0 {
      assert 0 * l == 0;
    } else {
      PagesTile(listing, limit, k - 1);
      var o := (k - 1) * l;
      assert k * l == o + l && o >= 0;
      if o < |listing| {
        var end := Until(|listing|, limit, o);
        assert listing[..o] + listing[o..end] == listing[..end];
        assert end == |listing| ==> listing[..end] == listing;
      }
    }
  }
}
