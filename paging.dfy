/** `take`/`skip` of the store queries and `Array.prototype.slice(offset,
    offset + limit)` of the in-memory fallbacks, for non-negative offsets and
    limits. */
module Paging {

  function Min(a: int, b: int): int { if a <= b then a else b }

  /** The window of at most `limit` elements starting at `offset`. */
  function Page<T>(s: seq<T>, offset: nat, limit: nat): (r: seq<T>)
    ensures |r| <= limit
    ensures |r| == Min(limit, if offset <= |s| then |s| - offset else 0)
    ensures offset <= |s| ==> r == s[offset..offset + |r|]
    ensures offset >= |s| ==> r == []
  {
    var lo := Min(offset, |s|);
    var hi := Min(offset + limit, |s|);
    s[lo..hi]
  }

  /** Consecutive pages of one size tile the sequence: page k followed by
      page k + 1 is the double-size window at page k's offset. */
  lemma ConsecutivePages<T>(s: seq<T>, offset: nat, limit: nat)
    ensures Page(s, offset, limit) + Page(s, offset + limit, limit) == Page(s, offset, 2 * limit)
  {
    if offset + limit <= |s| {
      assert s[offset..offset + limit] + s[offset + limit..Min(offset + 2 * limit, |s|)]
          == s[offset..Min(offset + 2 * limit, |s|)];
    }
  }
}
