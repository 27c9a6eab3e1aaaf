/** The offset paging loops of `cli/cmd/ci.go`, against a server that holds one list. */
module Listing {
  import opened Wrappers

  const PAGE_LIMIT := 100

  /** What the server answers: its own cap on a page, and the total it reports with each page. */
  datatype Server<T> = Server(items: seq<T>, cap: nat, total: Option<int>)

  function Min(a: int, b: int): int {
    if a < b then a else b
  }

  function Page<T>(s: Server<T>, offset: nat): (r: seq<T>)
    ensures |r| <= PAGE_LIMIT
  {
    if offset >= |s.items| then []
    else s.items[offset..Min(|s.items|, offset + Min(s.cap, PAGE_LIMIT))]
  }

  /** The total field as the runs listing decodes it: an omitted one is zero. */
  function TotalOrZero<T>(s: Server<T>): int {
    if s.total.Some? then s.total.value else 0
  }

  /** `total` rounded up to whole pages. */
  function WholePages(total: int): int {
    if total <= 0 then 0 else (total + PAGE_LIMIT - 1) / PAGE_LIMIT * PAGE_LIMIT
  }

  /** When the runs listing is complete: one page holds everything, or full pages go on to the end. */
  predicate RunsComplete<T>(s: Server<T>) {
    || |s.items| <= Min(s.cap, PAGE_LIMIT)
    || (s.cap >= PAGE_LIMIT && (TotalOrZero(s) <= 0 || |s.items| <= WholePages(TotalOrZero(s))))
  }

  lemma WholePagesBounds(total: int, offset: nat)
    requires offset % PAGE_LIMIT == 0 && offset < total
    ensures total <= offset + PAGE_LIMIT ==> WholePages(total) == offset + PAGE_LIMIT
    ensures total > offset + PAGE_LIMIT ==> WholePages(total) > offset + PAGE_LIMIT
  {
  }

  /** Where the listing stops decides whether it is complete. */
  lemma RunsStop<T>(s: Server<T>, offset: nat)
    requires offset % PAGE_LIMIT == 0 && offset <= |s.items|
    requires offset > 0 ==> s.cap >= PAGE_LIMIT && (TotalOrZero(s) <= 0 || offset < TotalOrZero(s))
    requires var n := |Page(s, offset)|; n < PAGE_LIMIT || (TotalOrZero(s) > 0 && offset + n >= TotalOrZero(s))
    ensures offset + |Page(s, offset)| == |s.items| <==> RunsComplete(s)
  {
    if TotalOrZero(s) > offset { WholePagesBounds(TotalOrZero(s), offset); }
  }

  /** `listCIBaselineRuns`. */
  method ListRuns<T>(s: Server<T>) returns (runs: seq<T>, requests: nat)
    ensures runs <= s.items
    ensures runs == s.items <==> RunsComplete(s)
    ensures requests <= |s.items| / PAGE_LIMIT + 1
  {
    runs, requests := [], 0;
    var offset := 0;
    while true
      invariant offset == requests * PAGE_LIMIT <= |s.items|
      invariant runs == s.items[..offset]
      invariant offset > 0 ==> s.cap >= PAGE_LIMIT && (TotalOrZero(s) <= 0 || offset < TotalOrZero(s))
      decreases |s.items| - offset
    {
      var page := Page(s, offset);
      requests := requests + 1;
      runs := runs + page;
      if |page| == 0 || (TotalOrZero(s) > 0 && |runs| >= TotalOrZero(s)) || |page| < PAGE_LIMIT {
        RunsStop(s, offset);
        break;
      }
      offset := offset + PAGE_LIMIT;
    }
  }

  /** When the remote object listing is complete: without a total it ends after one page. */
  predicate ObjectsComplete<T>(s: Server<T>) {
    || |s.items| <= Min(s.cap, PAGE_LIMIT)
    || (s.cap >= PAGE_LIMIT && s.total.Some? && |s.items| <= WholePages(s.total.value))
  }

  lemma ObjectsStop<T>(s: Server<T>, offset: nat)
    requires offset % PAGE_LIMIT == 0 && offset <= |s.items|
    requires offset > 0 ==> s.cap >= PAGE_LIMIT && s.total.Some? && offset < s.total.value
    requires var n := |Page(s, offset)|; s.total.None? || n < PAGE_LIMIT || offset + n >= s.total.value
    ensures offset + |Page(s, offset)| == |s.items| <==> ObjectsComplete(s)
  {
    if s.total.Some? && s.total.value > offset { WholePagesBounds(s.total.value, offset); }
  }

  /** `listCIManifestRemoteObjects`. */
  method ListObjects<T>(s: Server<T>) returns (items: seq<T>, requests: nat)
    ensures items <= s.items
    ensures items == s.items <==> ObjectsComplete(s)
    ensures requests <= |s.items| / PAGE_LIMIT + 1
  {
    items, requests := [], 0;
    var offset := 0;
    while true
      invariant offset == requests * PAGE_LIMIT <= |s.items|
      invariant items == s.items[..offset]
      invariant offset > 0 ==> s.cap >= PAGE_LIMIT && s.total.Some? && offset < s.total.value
      decreases |s.items| - offset
    {
      var page := Page(s, offset);
      requests := requests + 1;
      items := items + page;
      if s.total.None? || |page| == 0 || |page| < PAGE_LIMIT || |items| >= s.total.value {
        ObjectsStop(s, offset);
        break;
      }
      offset := offset + PAGE_LIMIT;
    }
  }

  /** The server's page cap is the client's page size and its total is the length of its list, if it reports one. */
  lemma TruthfulServer<T>(s: Server<T>)
    requires s.cap >= PAGE_LIMIT && (s.total.Some? ==> s.total.value == |s.items|)
    ensures RunsComplete(s)
    ensures ObjectsComplete(s) <==> s.total.Some? || |s.items| <= PAGE_LIMIT
  {
    var n := |s.items|;
    assert n <= WholePages(n);
  }

  /** 150 items behind a page cap of 50, and behind full pages without a total: both loops miss some. */
  lemma IncompleteExamples<T>(items: seq<T>)
    requires |items| == 150
    ensures !RunsComplete(Server(items, 50, Some(150))) && !ObjectsComplete(Server(items, 50, Some(150)))
    ensures RunsComplete(Server(items, 100, None)) && !ObjectsComplete(Server(items, 100, None))
  {
  }
}
