/** Concrete runs of the search code, each stated as a contract on its outcome. */
module Scenarios {
  import opened Common
  import opened Pages
  import opened Executors
  import opened Session

  const Features := Page("Features", "Features <small class=\"text-muted\">page</small>", "/features/", "v1.0.0")
  const FeaturesRc := Page("Features", "Features <small class=\"text-muted\">page</small>", "/v1.0.0-rc/features/", "v1.0.0-rc")
  const Api := Page("API", "API <small class=\"text-muted\">page</small>", "/api/", "v1.0.0")

  /** Two registry entries of the site's table, one page under two doc versions, plus an API page. */
  function SamplePages(): Registry {
    map["/features/" := Features, "/v1.0.0-rc/features/" := FeaturesRc, "/api/" := Api]
  }

  /** Both versions of the features page come back; only the one of the viewed version is kept and highlighted. */
  method VersionScopedSearch() returns (hasResults: bool, results: Option<seq<Page>>, current: Option<nat>)
    ensures hasResults && results == Some([Features]) && current == Some(0)
  {
    var c := new SearchController(SamplePages(), "/docs");
    c.SetQuery("features");
    var issued := c.Search("v1.0.0");
    assert issued == Success(Some(Request("features", "v1.0.0")));
    var ids := ["/features/", "/v1.0.0-rc/features/"];
    assert AllKnown(c.pages, ids);
    assert Matching(c.pages, ids, "v1.0.0") == [Features] by {
      assert ids[..1] == ["/features/"] && ids[..1][..0] == [];
    }
    var done := c.OnResults(issued.value.value, ids);
    hasResults, results, current := c.hasResults, c.results, c.current;
  }

  /** A one-character query clears whatever results were shown. */
  method ShortQueryClears() returns (hasResults: bool, results: Option<seq<Page>>, current: Option<nat>)
    ensures !hasResults && results.None? && current.None?
  {
    var c := new SearchController(SamplePages(), "/docs");
    c.SetQuery("features");
    var issued := c.Search("v1.0.0");
    var done := c.OnResults(issued.value.value, ["/features/"]);
    c.SetQuery("a");
    issued := c.Search("v1.0.0");
    hasResults, results, current := c.hasResults, c.results, c.current;
  }

  /** Submitting the highlighted `/api/` result under base path `/docs` navigates to `/docs/api/`. */
  method SubmitNavigates() returns (target: Result<Option<string>>)
    ensures target == Success(Some("/docs/api/"))
  {
    var c := new SearchController(SamplePages(), "/docs");
    c.SetQuery("api");
    var issued := c.Search("v1.0.0");
    var ids := ["/api/"];
    assert Matching(c.pages, ids, "v1.0.0") == [Api] by {
      assert ids[..0] == [];
    }
    var done := c.OnResults(issued.value.value, ids);
    target := c.Submit();
    assert "/docs" + Api.path == "/docs/api/";
  }

  /** The selection stops at both ends of the list instead of wrapping. */
  method SelectionClamps() returns (downAtLast: bool, upAtFirst: bool, current: Option<nat>)
    ensures !downAtLast && !upAtFirst && current == Some(0)
  {
    var c := new SearchController(SamplePages(), "/docs");
    c.SetQuery("api");
    var issued := c.Search("v1.0.0");
    var ids := ["/api/"];
    assert Matching(c.pages, ids, "v1.0.0") == [Api] by {
      assert ids[..0] == [];
    }
    var done := c.OnResults(issued.value.value, ids);
    downAtLast := c.MoveDown();
    upAtFirst := c.MoveUp();
    current := c.current;
  }

  /**
   * Two queries are issued and their answers arrive newest first: the older
   * answer arrives last and is the one the controller shows.
   */
  method StaleAnswerWins() returns (results: Option<seq<Page>>)
    ensures results == Some([Features])
  {
    var c := new SearchController(SamplePages(), "/docs");
    c.SetQuery("fe");
    var first := c.Search("v1.0.0");
    c.SetQuery("api");
    var second := c.Search("v1.0.0");
    var newer, older := ["/api/"], ["/features/"];
    assert Matching(c.pages, newer, "v1.0.0") == [Api] by { assert newer[..0] == []; }
    assert Matching(c.pages, older, "v1.0.0") == [Features] by { assert older[..0] == []; }
    var done := c.OnResults(second.value.value, newer);
    done := c.OnResults(first.value.value, older);
    results := c.results;
  }

  /** An id the registry does not know makes the completion fail and leaves the shown results alone. */
  method UnknownIdFails() returns (r: Result<()>, results: Option<seq<Page>>)
    ensures r == Failure(UnknownPage("/gone/")) && results == Some([Api])
  {
    var c := new SearchController(SamplePages(), "/docs");
    c.SetQuery("api");
    var issued := c.Search("v1.0.0");
    var ids := ["/api/"];
    assert Matching(c.pages, ids, "v1.0.0") == [Api] by { assert ids[..0] == []; }
    var done := c.OnResults(issued.value.value, ids);
    r := c.OnResults(issued.value.value, ["/api/", "/gone/"]);
    results := c.results;
  }

  /**
   * The worker handshake, then two queries before either answer: the first
   * answer resolves the second query's slot and the first query's slot stays
   * pending for ever.
   */
  method WorkerReplyGoesToLatest() returns (outbox: seq<Outgoing>, first: Slot, second: Slot)
    ensures outbox == [Load("/docs"), SearchRequest("ab"), SearchRequest("abc")]
    ensures first == Pending && second == Resolved(["/api/"])
  {
    var w := new WorkerSearch("/docs");
    var r := w.Receive(Ready);
    r := w.Receive(IndexReady);
    assert w.slots == [] + Pendings(0) && w.outbox == [Load("/docs")] + Requests([]);
    var a := w.Query("ab");
    var b := w.Query("abc");
    r := w.Receive(QueryReady(["/api/"]));
    outbox, first, second := w.outbox, w.slots[a.value], w.slots[b.value];
  }

  /** Queries made before the index is ready are held, then posted in order when it is. */
  method WorkerGateReleasesInOrder() returns (outbox: seq<Outgoing>, slots: seq<Slot>)
    ensures outbox == [Load("/docs"), SearchRequest("ab"), SearchRequest("abc")]
    ensures slots == [Pending, Pending]
  {
    var w := new WorkerSearch("/docs");
    var a := w.Query("ab");
    var b := w.Query("abc");
    var r := w.Receive(Ready);
    r := w.Receive(IndexReady);
    assert Requests(["ab", "abc"]) == [SearchRequest("ab"), SearchRequest("abc")];
    assert Pendings(2) == [Pending, Pending];
    outbox, slots := w.outbox, w.slots;
  }
}
