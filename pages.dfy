/**
 * The page registry (`app.value('pages', …)`) and the version filter that the
 * search controller applies to the page ids a query returns.
 */
module Pages {
  import opened Common

  /** One documentation page; the registry key is the page's path. */
  datatype Page = Page(title: string, summary: string, path: string, version: string)

  /** The static table from page id to page. */
  type Registry = map<string, Page>

  predicate AllKnown(pages: Registry, ids: seq<string>) {
    forall i :: 0 <= i < |ids| ==> ids[i] in pages
  }

  /**
   * The pages of `ids` that belong to `version`, in the order of `ids`: the
   * array the completion callback builds with `forEach` and `push`.
   */
  function Matching(pages: Registry, ids: seq<string>, version: string): (r: seq<Page>)
    requires AllKnown(pages, ids)
    ensures |r| <= |ids|
    ensures forall k :: 0 <= k < |r| ==> r[k].version == version
  {
    if ids == [] then []
    else
      var page := pages[ids[|ids| - 1]];
      Matching(pages, ids[..|ids| - 1], version) + (if page.version == version then [page] else [])
  }

  /** Filtering distributes over concatenation: relative order is kept, block by block. */
  lemma {:induction false} MatchingAppend(pages: Registry, a: seq<string>, b: seq<string>, version: string)
    requires AllKnown(pages, a) && AllKnown(pages, b)
    ensures AllKnown(pages, a + b)
    ensures Matching(pages, a + b, version) == Matching(pages, a, version) + Matching(pages, b, version)
    decreases |b|
  {
    assert AllKnown(pages, a + b) by {
      forall i | 0 <= i < |a + b| ensures (a + b)[i] in pages {
        if i >= |a| { assert (a + b)[i] == b[i - |a|]; }
      }
    }
    if b == [] {
      assert a + b == a;
    } else {
      var init := b[..|b| - 1];
      assert (a + b)[..|a + b| - 1] == a + init;
      assert (a + b)[|a + b| - 1] == b[|b| - 1];
      MatchingAppend(pages, a, init, version);
    }
  }

  /** A page is kept exactly when some returned id names it and it has the requested version. */
  lemma {:induction false} MatchingMembers(pages: Registry, ids: seq<string>, version: string, page: Page)
    requires AllKnown(pages, ids)
    ensures page in Matching(pages, ids, version) <==>
      page.version == version && exists i :: 0 <= i < |ids| && pages[ids[i]] == page
  {
    if ids != [] {
      var init := ids[..|ids| - 1];
      MatchingMembers(pages, init, version, page);
      if exists i :: 0 <= i < |ids| && pages[ids[i]] == page {
        var i :| 0 <= i < |ids| && pages[ids[i]] == page;
        if i < |init| { assert pages[init[i]] == page; }
      }
      if exists i :: 0 <= i < |init| && pages[init[i]] == page {
        var i :| 0 <= i < |init| && pages[init[i]] == page;
        assert pages[ids[i]] == page;
      }
    }
  }

  /** When every returned page has the requested version, none is dropped. */
  lemma {:induction false} MatchingKeepsAll(pages: Registry, ids: seq<string>, version: string)
    requires AllKnown(pages, ids)
    requires forall i :: 0 <= i < |ids| ==> pages[ids[i]].version == version
    ensures |Matching(pages, ids, version)| == |ids|
    ensures forall k :: 0 <= k < |ids| ==> Matching(pages, ids, version)[k] == pages[ids[k]]
  {
    if ids != [] {
      MatchingKeepsAll(pages, ids[..|ids| - 1], version);
    }
  }

  /**
   * The completion callback's loop: look each id up and keep the pages of
   * `version`. An id missing from the registry makes the lookup throw, and the
   * error names the first such id.
   */
  method CollectPages(pages: Registry, ids: seq<string>, version: string) returns (r: Result<seq<Page>>)
    ensures AllKnown(pages, ids) ==> r == Success(Matching(pages, ids, version))
    ensures !AllKnown(pages, ids) ==>
      exists i :: 0 <= i < |ids| && ids[i] !in pages && r == Failure(UnknownPage(ids[i]))
        && AllKnown(pages, ids[..i])
  {
    var results: seq<Page> := [];
    var i := 0;
    while i < |ids|
      invariant 0 <= i <= |ids|
      invariant AllKnown(pages, ids[..i])
      invariant results == Matching(pages, ids[..i], version)
    {
      var id := ids[i];
      if id !in pages {
        return Failure(UnknownPage(id));
      }
      var page := pages[id];
      assert ids[..i + 1][..i] == ids[..i];
      if page.version == version {
        results := results + [page];
      }
      i := i + 1;
    }
    assert ids[..i] == ids;
    return Success(results);
  }
}
