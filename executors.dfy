/**
 * The two query executors behind the `search` service: the in-page one,
 * which loads the index itself and answers each query from it, and the one
 * that hands loading and querying to a worker and talks to it by messages.
 */
module Executors {
  import opened Common

  /** One search hit: the id of the page it found and its relevance. */
  datatype Hit = Hit(ref: string, score: real)

  /** A loaded index; `search` stands for the indexing library's query function. */
  datatype Index = Index(search: string -> seq<Hit>)

  /** The page ids of a hit list, in hit order. */
  function Refs(hits: seq<Hit>): seq<string> {
    seq(|hits|, i requires 0 <= i < |hits| => hits[i].ref)
  }

  /** The in-page executor's loop: one id per hit, in the index's ranking order. */
  method RefsOf(hits: seq<Hit>) returns (refs: seq<string>)
    ensures |refs| == |hits|
    ensures forall i :: 0 <= i < |hits| ==> refs[i] == hits[i].ref
  {
    refs := [];
    var i := 0;
    while i < |hits|
      invariant 0 <= i <= |hits|
      invariant |refs| == i
      invariant forall j :: 0 <= j < i ==> refs[j] == hits[j].ref
    {
      refs := refs + [hits[i].ref];
      i := i + 1;
    }
  }

  /**
   * The in-page executor. Queries made before the index fetch resolves wait
   * on it and are answered, in the order they were made, once it does.
   */
  class LocalSearch {
    var searchReady: bool
    var index: Option<Index>
    /** Queries chained on the pending fetch. */
    var waiting: seq<string>

    ghost predicate Valid()
      reads this
    {
      (searchReady <==> index.Some?) && (index.Some? ==> waiting == [])
    }

    constructor ()
      ensures Valid() && !searchReady && index.None? && waiting == []
    {
      searchReady, index, waiting := false, None, [];
    }

    /** A call of the service: answered at once when the index is loaded, otherwise queued on the fetch. */
    method Query(q: string) returns (answer: Option<seq<string>>)
      requires Valid()
      modifies this`waiting
      ensures Valid()
      ensures old(index).Some? ==> answer == Some(Refs(index.value.search(q))) && waiting == old(waiting)
      ensures old(index).None? ==> answer.None? && waiting == old(waiting) + [q]
    {
      if index.Some? {
        var refs := RefsOf(index.value.search(q));
        assert refs == Refs(index.value.search(q));
        answer := Some(refs);
      } else {
        waiting := waiting + [q];
        answer := None;
      }
    }

    /** The fetch resolves with the loaded index: the flag is raised and every waiting query is answered in turn. */
    method OnFetched(idx: Index) returns (answers: seq<seq<string>>)
      requires Valid() && index.None?
      modifies this
      ensures Valid() && searchReady && index == Some(idx) && waiting == []
      ensures |answers| == |old(waiting)|
      ensures forall j :: 0 <= j < |answers| ==> answers[j] == Refs(idx.search(old(waiting)[j]))
    {
      answers := [];
      var j := 0;
      while j < |waiting|
        invariant 0 <= j <= |waiting| && waiting == old(waiting)
        invariant |answers| == j
        invariant forall k :: 0 <= k < j ==> answers[k] == Refs(idx.search(waiting[k]))
      {
        var refs := RefsOf(idx.search(waiting[j]));
        assert refs == Refs(idx.search(waiting[j]));
        answers := answers + [refs];
        j := j + 1;
      }
      index, searchReady, waiting := Some(idx), true, [];
    }
  }

  /** Messages the page posts to the worker. */
  datatype Outgoing = Load(p: string) | SearchRequest(q: string)

  /** Messages the worker posts to the page, by their `e` tag. */
  datatype Incoming = Ready | IndexReady | QueryReady(d: seq<string>) | Unrecognised(tag: string)

  /** The state of one `results` deferred. */
  datatype Slot = Pending | Resolved(ids: seq<string>)

  function Pendings(n: nat): (r: seq<Slot>)
    ensures |r| == n && forall k :: 0 <= k < n ==> r[k] == Pending
  {
    if n == 0 then [] else Pendings(n - 1) + [Pending]
  }

  function Requests(qs: seq<string>): (r: seq<Outgoing>)
    ensures |r| == |qs| && forall k :: 0 <= k < |qs| ==> r[k] == SearchRequest(qs[k])
  {
    if qs == [] then [] else Requests(qs[..|qs| - 1]) + [SearchRequest(qs[|qs| - 1])]
  }

  /**
   * The worker-backed executor: a message handler over a readiness flag, a
   * gate that holds queries until the index is built, the single `results`
   * slot that every dispatched query overwrites, and the messages posted.
   */
  class WorkerSearch {
    const basePath: string
    var searchReady: bool
    /** Whether the `searchIndex` deferred has been resolved. */
    var indexReady: bool
    /** Queries chained on `searchIndex.promise`, not yet dispatched. */
    var gated: seq<string>
    /** Every `results` deferred created so far, oldest first. */
    var slots: seq<Slot>
    /** Which deferred the `results` variable names; `None` while it is undefined. */
    var latest: Option<nat>
    /** Every message posted to the worker, oldest first. */
    var outbox: seq<Outgoing>

    ghost predicate Valid()
      reads this
    {
      && searchReady == indexReady
      && (indexReady ==> gated == [])
      && (latest.None? <==> slots == [])
      && (latest.Some? ==> latest.value == |slots| - 1)
    }

    constructor (basePath: string)
      ensures Valid() && this.basePath == basePath
      ensures !searchReady && gated == [] && slots == [] && outbox == []
    {
      this.basePath := basePath;
      searchReady, indexReady := false, false;
      gated, slots, latest, outbox := [], [], None, [];
    }

    /**
     * A call of the service. Once the index is ready it creates a fresh
     * `results` deferred, which becomes the latest, and posts the query;
     * before that the query waits at the gate. Returns the slot the caller's
     * promise follows, when one exists yet.
     */
    method Query(q: string) returns (slot: Option<nat>)
      requires Valid()
      modifies this
      ensures Valid() && searchReady == old(searchReady)
      ensures old(indexReady) ==>
        && slots == old(slots) + [Pending] && slot == latest == Some(|old(slots)|)
        && outbox == old(outbox) + [SearchRequest(q)] && gated == old(gated)
      ensures !old(indexReady) ==>
        && slot.None? && gated == old(gated) + [q]
        && slots == old(slots) && latest == old(latest) && outbox == old(outbox)
    {
      if indexReady {
        Dispatch(q);
        slot := latest;
      } else {
        gated := gated + [q];
        slot := None;
      }
    }

    /** The body of the gated callback: overwrite `results` with a fresh deferred and post the query. */
    method Dispatch(q: string)
      requires Valid()
      modifies this`slots, this`latest, this`outbox
      ensures Valid()
      ensures slots == old(slots) + [Pending] && latest == Some(|old(slots)|)
      ensures outbox == old(outbox) + [SearchRequest(q)]
    {
      slots := slots + [Pending];
      latest := Some(|slots| - 1);
      outbox := outbox + [SearchRequest(q)];
    }

    /** The `onmessage` handler. */
    method Receive(msg: Incoming) returns (r: Result<()>)
      requires Valid()
      modifies this
      ensures Valid()
      ensures msg.Ready? ==>
        && r.Success? && outbox == old(outbox) + [Load(basePath)]
        && searchReady == old(searchReady) && gated == old(gated) && slots == old(slots) && latest == old(latest)
      ensures msg.IndexReady? ==> r.Success? && searchReady && gated == []
      ensures msg.IndexReady? && old(indexReady) ==>
        outbox == old(outbox) && slots == old(slots) && latest == old(latest)
      ensures msg.IndexReady? && !old(indexReady) ==>
        && slots == old(slots) + Pendings(|old(gated)|)
        && outbox == old(outbox) + Requests(old(gated))
        && latest == (if old(gated) == [] then old(latest) else Some(|slots| - 1))
      ensures msg.QueryReady? ==>
        && searchReady == old(searchReady) && gated == old(gated) && outbox == old(outbox) && latest == old(latest)
      ensures msg.QueryReady? && old(latest).None? ==> r == Failure(NoPendingQuery) && slots == old(slots)
      ensures msg.QueryReady? && old(latest).Some? ==>
        && r.Success?
        && |slots| == |old(slots)|
        && (forall k :: 0 <= k < |slots| && k != latest.value ==> slots[k] == old(slots)[k])
        && slots[latest.value] == (if old(slots)[latest.value].Pending? then Resolved(msg.d) else old(slots)[latest.value])
      ensures msg.Unrecognised? ==>
        && r.Success? && searchReady == old(searchReady) && gated == old(gated)
        && slots == old(slots) && latest == old(latest) && outbox == old(outbox)
    {
      r := Success(());
      match msg
      case Ready =>
        outbox := outbox + [Load(basePath)];
      case IndexReady =>
        searchReady := true;
        if !indexReady {
          indexReady := true;
          ReleaseGated();
        }
      case QueryReady(d) =>
        if latest.None? {
          r := Failure(NoPendingQuery);
        } else if slots[latest.value].Pending? {
          slots := slots[latest.value := Resolved(d)];
        }
      case Unrecognised(_) =>
    }

    /** Resolving the gate runs the queued callbacks in the order they were chained. */
    method ReleaseGated()
      requires searchReady && indexReady
      requires (latest.None? <==> slots == []) && (latest.Some? ==> latest.value == |slots| - 1)
      modifies this`gated, this`slots, this`latest, this`outbox
      ensures Valid() && gated == []
      ensures slots == old(slots) + Pendings(|old(gated)|)
      ensures outbox == old(outbox) + Requests(old(gated))
      ensures latest == (if old(gated) == [] then old(latest) else Some(|slots| - 1))
    {
      var queue := gated;
      gated := [];
      var i := 0;
      while i < |queue|
        invariant 0 <= i <= |queue| && Valid()
        invariant slots == old(slots) + Pendings(i)
        invariant outbox == old(outbox) + Requests(queue[..i])
        invariant latest == (if i == 0 then old(latest) else Some(|slots| - 1))
      {
        assert queue[..i + 1][..i] == queue[..i];
        Dispatch(queue[i]);
        i := i + 1;
      }
      assert queue[..i] == queue;
    }
  }
}
