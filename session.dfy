/**
 * The search controller: the query text, the version-filtered results, the
 * highlighted result, and the operations the search box drives. A query is
 * issued by `Search` and its answer applied later by `OnResults`.
 */
module Session {
  import opened Common
  import opened Pages

  /** The shortest query that is sent to the executor. */
  const MinQueryLength := 2

  /**
   * A query handed to the executor, with the documentation version the
   * completion callback filters by (the closure's `version`).
   */
  datatype Request = Request(text: string, version: string)

  class SearchController {
    const pages: Registry
    const basePath: string
    /** The search box text; `None` before any input and after `Reset`. */
    var q: Option<string>
    var hasResults: bool
    var results: Option<seq<Page>>
    var current: Option<nat>

    /** `hasResults` holds exactly when there is a non-empty result list, and then `current` indexes it. */
    ghost predicate Valid()
      reads this
    {
      && (hasResults <==> results.Some? && |results.value| > 0)
      && (hasResults ==> current.Some? && current.value < |results.value|)
      && (!hasResults ==> results.None? && current.None?)
    }

    /** The state `clear()` leaves. */
    ghost predicate Cleared()
      reads this
    {
      !hasResults && results.None? && current.None?
    }

    constructor (pages: Registry, basePath: string)
      ensures Valid() && Cleared() && q.None?
      ensures this.pages == pages && this.basePath == basePath
    {
      this.pages, this.basePath := pages, basePath;
      q, hasResults, results, current := None, false, None, None;
    }

    /** The search box writes its text into `q`. */
    method SetQuery(text: string)
      modifies this`q
      ensures q == Some(text)
    {
      q := Some(text);
    }

    method Clear()
      modifies this`hasResults, this`results, this`current
      ensures Valid() && Cleared()
    {
      hasResults, results, current := false, None, None;
    }

    /**
     * The synchronous half of `search(version)`. A query of at least two
     * characters is handed to the executor (returned here, with the version
     * its completion filters by) and the state is left for the completion to
     * set; a shorter one clears the results. A missing query makes `q.length`
     * throw.
     */
    method Search(version: string) returns (r: Result<Option<Request>>)
      requires Valid()
      modifies this`hasResults, this`results, this`current
      ensures Valid() && q == old(q)
      ensures q.None? ==> r == Failure(NullQuery) && unchanged(this)
      ensures q.Some? && |q.value| >= MinQueryLength ==> r == Success(Some(Request(q.value, version))) && unchanged(this)
      ensures q.Some? && |q.value| < MinQueryLength ==> r == Success(None) && Cleared()
    {
      if q.None? {
        return Failure(NullQuery);
      }
      if |q.value| >= MinQueryLength {
        r := Success(Some(Request(q.value, version)));
      } else {
        Clear();
        r := Success(None);
      }
    }

    /**
     * The completion of `search(version)` for `request`: the ids the executor
     * returned are filtered to the request's version and the state is
     * replaced, whether or not a newer query has been issued since. An
     * unknown id throws before any state is touched; the error names the
     * first one.
     */
    method OnResults(request: Request, ids: seq<string>) returns (r: Result<()>)
      requires Valid()
      modifies this`hasResults, this`results, this`current
      ensures Valid()
      ensures AllKnown(pages, ids) ==> r.Success?
      ensures AllKnown(pages, ids) && |Matching(pages, ids, request.version)| > 0 ==>
        hasResults && results == Some(Matching(pages, ids, request.version)) && current == Some(0)
      ensures AllKnown(pages, ids) && |Matching(pages, ids, request.version)| == 0 ==> Cleared()
      ensures !AllKnown(pages, ids) ==>
        && unchanged(this)
        && exists i :: 0 <= i < |ids| && ids[i] !in pages && r == Failure(UnknownPage(ids[i]))
             && AllKnown(pages, ids[..i])
    {
      var collected := CollectPages(pages, ids, request.version);
      if collected.Failure? {
        return Failure(collected.error);
      }
      var found := collected.value;
      if |found| > 0 {
        hasResults, results, current := true, Some(found), Some(0);
      } else {
        Clear();
      }
      r := Success(());
    }

    method Reset()
      modifies this
      ensures Valid() && Cleared() && q.None?
    {
      q := None;
      Clear();
    }

    /**
     * The navigation target for the highlighted result, `basePath` followed by
     * its path; `None` when `current` names no result. Indexing a null result
     * list throws. Nothing in the controller changes.
     */
    method Submit() returns (r: Result<Option<string>>)
      ensures results.None? ==> r == Failure(NullResults)
      ensures results.Some? && current.Some? && current.value < |results.value| ==>
        r == Success(Some(basePath + results.value[current.value].path))
      ensures results.Some? && (current.None? || current.value >= |results.value|) ==> r == Success(None)
      ensures Valid() && hasResults ==> r.Success? && r.value.Some?
    {
      if results.None? {
        return Failure(NullResults);
      }
      if current.Some? && current.value < |results.value| {
        var result := results.value[current.value];
        r := Success(Some(basePath + result.path));
      } else {
        r := Success(None);
      }
    }

    /** Moves the highlight one result down, never past the last; says whether the key event was consumed. */
    method MoveDown() returns (stopped: bool)
      requires Valid()
      modifies this`current
      ensures Valid()
      ensures stopped <==> hasResults && old(current).value < |results.value| - 1
      ensures stopped ==> current == Some(old(current).value + 1)
      ensures !stopped ==> current == old(current)
    {
      stopped := hasResults && current.value < |results.value| - 1;
      if stopped {
        current := Some(current.value + 1);
      }
    }

    /** Moves the highlight one result up, never above the first; says whether the key event was consumed. */
    method MoveUp() returns (stopped: bool)
      requires Valid()
      modifies this`current
      ensures Valid()
      ensures stopped <==> hasResults && old(current).value > 0
      ensures stopped ==> current == Some(old(current).value - 1)
      ensures !stopped ==> current == old(current)
    {
      stopped := hasResults && current.value > 0;
      if stopped {
        current := Some(current.value - 1);
      }
    }
  }
}
