/**
 * The last two steps of both clients' `GetTopVolumeTickers`: sort the kept
 * tickers in place by descending 24-hour volume (`sort.Slice`), then keep the
 * first `limit` of them (`tickers[:limit]`).
 */
module VolumeRanking {
  import opened Wrappers
  import opened Exchange

  predicate SortedByVolumeDesc(s: seq<Ticker>) {
    forall i, j :: 0 <= i < j < |s| ==> s[i].volume >= s[j].volume
  }

  function Min(a: int, b: int): int {
    if a <= b then a else b
  }

  /**
   * `r` is a top-`limit` selection of `all` by volume: sorted, as long as
   * possible, drawn from `all`, and nothing left out beats anything kept.
   */
  ghost predicate IsTopN(r: seq<Ticker>, all: seq<Ticker>, limit: nat) {
    && SortedByVolumeDesc(r)
    && |r| == Min(limit, |all|)
    && multiset(r) <= multiset(all)
    && forall t, u :: t in multiset(all) - multiset(r) && u in r ==> t.volume <= u.volume
  }

  method Swap(a: array<Ticker>, i: int, j: int)
    requires 0 <= i < j < a.Length
    modifies a
    ensures a[i] == old(a[j]) && a[j] == old(a[i])
    ensures forall m :: 0 <= m < a.Length && m != i && m != j ==> a[m] == old(a[m])
    ensures multiset(a[..]) == multiset(old(a[..]))
  {
    a[i], a[j] := a[j], a[i];
  }

  /** `sort.Slice(tickers, func(i, j) { return tickers[i].Volume > tickers[j].Volume })`. */
  method SortByVolumeDesc(a: array<Ticker>)
    modifies a
    ensures SortedByVolumeDesc(a[..])
    ensures multiset(a[..]) == multiset(old(a[..]))
  {
    var i := 0;
    while i < a.Length
      invariant 0 <= i <= a.Length
      invariant forall p, q :: 0 <= p < q < i ==> a[p].volume >= a[q].volume
      invariant multiset(a[..]) == multiset(old(a[..]))
    {
      var j := i;
      while j > 0 && a[j - 1].volume < a[j].volume
        invariant 0 <= j <= i
        invariant forall p, q :: 0 <= p < q <= i && p != j && q != j ==> a[p].volume >= a[q].volume
        invariant forall q :: j < q <= i ==> a[j].volume >= a[q].volume
        invariant multiset(a[..]) == multiset(old(a[..]))
      {
        Swap(a, j - 1, j);
        j := j - 1;
      }
      i := i + 1;
    }
  }

  /** In a sorted sequence nothing after position `k` beats anything before it. */
  lemma SortedSplitDominates(s: seq<Ticker>, k: nat)
    requires SortedByVolumeDesc(s) && k <= |s|
    ensures forall t, u :: t in s[k..] && u in s[..k] ==> t.volume <= u.volume
  {
    forall t, u | t in s[k..] && u in s[..k]
      ensures t.volume <= u.volume
    {
      var jt :| 0 <= jt < |s| - k && s[k..][jt] == t;
      var ju :| 0 <= ju < k && s[..k][ju] == u;
      assert s[ju] == u && s[k + jt] == t;
    }
  }

  /** A prefix of a sorted sequence is a top-`k` selection of it. */
  lemma SortedPrefixIsTopN(s: seq<Ticker>, k: nat)
    requires SortedByVolumeDesc(s) && k <= |s|
    ensures IsTopN(s[..k], s, k)
  {
    var kept, rest := s[..k], s[k..];
    assert s == kept + rest;
    assert multiset(s) - multiset(kept) == multiset(rest);
    SortedSplitDominates(s, k);
  }

  /**
   * Copy the kept tickers, sort them, and return the first `limit` (all of
   * them when there are no more than `limit`). A negative `limit` makes the
   * source's slice expression panic.
   */
  method TopByVolume(tickers: seq<Ticker>, limit: int) returns (r: Result<seq<Ticker>, ExchangeError>)
    ensures limit < 0 <==> r == Failure(Panic)
    ensures r.Success? <==> limit >= 0
    ensures r.Success? ==> IsTopN(r.value, tickers, limit)
  {
    var a := new Ticker[|tickers|](k requires 0 <= k < |tickers| => tickers[k]);
    assert a[..] == tickers;
    SortByVolumeDesc(a);
    if a.Length > limit {
      if limit < 0 {
        return Failure(Panic);
      }
      SortedPrefixIsTopN(a[..], limit);
      r := Success(a[..limit]);
    } else {
      SortedPrefixIsTopN(a[..], a.Length);
      assert a[..][..a.Length] == a[..];
      r := Success(a[..]);
    }
  }
}
