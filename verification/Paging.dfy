/** Collecting a list page by page, from any server. */
module Paging {
  import opened Common

  datatype Cursor = Start | After(id: string)

  /** The cursors handed out and the ids they continue from. */
  class Continuation {
    var seen: set<string>

    constructor ()
      ensures seen == {}
    {
      seen := {};
    }

    /** `advance`: the next cursor, no more pages, or an empty or repeated continuation. */
    method Advance(next: Option<string>) returns (r: Result<Option<Cursor>, ()>)
      modifies this
      ensures next.None? ==> r == Success(None) && seen == old(seen)
      ensures next.Some? && (next.value == "" || next.value in old(seen)) ==> r == Failure(()) && seen == old(seen)
      ensures next.Some? && next.value != "" && next.value !in old(seen) ==>
                r == Success(Some(After(next.value))) && seen == old(seen) + {next.value}
    {
      if next.None? {
        return Success(None);
      }
      if next.value == "" || next.value in seen {
        return Failure(());
      }
      seen := seen + {next.value};
      r := Success(Some(After(next.value)));
    }
  }

  /** A list endpoint: `load` answers a request knowing all requests before it, so it may change its mind at will. */
  datatype Endpoint<!T, !E> = Endpoint(
    load: seq<Cursor> -> Result<T, E>,
    next: T -> Option<string>,
    append: (T, T) -> T,
    invalid: E)
  {
    /** The pages appended in order. */
    function All(pages: seq<T>): T
      requires pages != []
    {
      if |pages| == 1 then pages[0] else append(All(pages[..|pages| - 1]), pages[|pages| - 1])
    }
  }

  /** A collection under way, or over. */
  datatype State<T, E> =
    | Running(pages: seq<T>, requests: seq<Cursor>, seen: set<string>)
    | Done(result: Result<T, E>, pages: seq<T>, requests: seq<Cursor>)

  /** Sending one more request. */
  function Ask<T, E>(e: Endpoint<T, E>, pages: seq<T>, requests: seq<Cursor>, seen: set<string>): State<T, E> {
    var page := e.load(requests);
    if page.Failure? then Done(Failure(page.error), pages, requests) else Running(pages + [page.value], requests, seen)
  }

  function Step<T, E>(e: Endpoint<T, E>, s: State<T, E>): (s': State<T, E>)
    requires s.Running? ==> s.pages != []
    ensures s'.Running? ==> s'.pages != []
  {
    if s.Done? then s
    else
      var all := e.All(s.pages);
      match e.next(all)
      case None => Done(Success(all), s.pages, s.requests)
      case Some(id) =>
        if id == "" || id in s.seen then Done(Failure(e.invalid), s.pages, s.requests)
        else Ask(e, s.pages, s.requests + [After(id)], s.seen + {id})
  }

  function Begin<T, E>(e: Endpoint<T, E>): (s: State<T, E>)
    ensures s.Running? ==> s.pages != []
  {
    Ask(e, [], [Start], {})
  }

  /** `n` more steps. */
  function Run<T, E>(e: Endpoint<T, E>, s: State<T, E>, n: nat): State<T, E>
    requires s.Running? ==> s.pages != []
    decreases n
  {
    if n == 0 then s else Run(e, Step(e, s), n - 1)
  }

  // ---- what holds of every server, after any number of steps ----

  ghost predicate NoRepeats(requests: seq<Cursor>) {
    forall i, j :: 0 <= i < j < |requests| ==> requests[i] != requests[j]
  }

  /** Page `k` answered request `k`, and request `k + 1` continues from what the first `k + 1` pages add up to. */
  ghost predicate Chained<T, E>(e: Endpoint<T, E>, pages: seq<T>, requests: seq<Cursor>) {
    && |pages| <= |requests| <= |pages| + 1
    && requests != [] && requests[0] == Start
    && (forall k :: 0 <= k < |pages| ==> e.load(requests[..k + 1]) == Success(pages[k]))
    && (forall k :: 0 < k < |requests| ==>
          requests[k].After? && requests[k].id != "" && e.next(e.All(pages[..k])) == Some(requests[k].id))
  }

  /** The continuation was already requested. */
  predicate Repeats(next: Option<string>, requests: seq<Cursor>) {
    next.Some? && After(next.value) in requests
  }

  /** Why a collection that is over ended as it did. */
  ghost predicate Justified<T, E>(e: Endpoint<T, E>, s: State<T, E>)
    requires s.Done?
  {
    match s.result
    case Success(all) => |s.pages| == |s.requests| && s.pages != [] && all == e.All(s.pages) && e.next(all).None?
    case Failure(error) =>
      || (|s.requests| == |s.pages| + 1 && e.load(s.requests) == Failure(error))
      || (|s.requests| == |s.pages| && s.pages != [] && error == e.invalid
          && (e.next(e.All(s.pages)) == Some("") || Repeats(e.next(e.All(s.pages)), s.requests)))
  }

  ghost predicate Inv<T, E>(e: Endpoint<T, E>, s: State<T, E>) {
    && Chained(e, s.pages, s.requests) && NoRepeats(s.requests)
    && (s.Running? ==> |s.pages| == |s.requests| && forall id :: id in s.seen <==> After(id) in s.requests)
    && (s.Done? ==> Justified(e, s))
  }

  lemma RequestMore<T, E>(e: Endpoint<T, E>, pages: seq<T>, requests: seq<Cursor>, id: string)
    requires Chained(e, pages, requests) && |pages| == |requests| && id != "" && e.next(e.All(pages)) == Some(id)
    ensures Chained(e, pages, requests + [After(id)])
  {
    var more := requests + [After(id)];
    assert pages[..|pages|] == pages;
    forall k | 0 <= k < |pages|
      ensures e.load(more[..k + 1]) == Success(pages[k])
    {
      assert more[..k + 1] == requests[..k + 1];
    }
  }

  lemma PageMore<T, E>(e: Endpoint<T, E>, pages: seq<T>, requests: seq<Cursor>, page: T)
    requires Chained(e, pages, requests) && |requests| == |pages| + 1 && e.load(requests) == Success(page)
    ensures Chained(e, pages + [page], requests)
  {
    var more := pages + [page];
    assert requests[..|requests|] == requests;
    forall k | 0 < k < |requests|
      ensures e.next(e.All(more[..k])) == Some(requests[k].id)
    {
      assert more[..k] == pages[..k];
    }
  }

  lemma StepKeeps<T, E>(e: Endpoint<T, E>, s: State<T, E>)
    requires Inv(e, s)
    ensures Inv(e, Step(e, s))
  {
    if s.Running? {
      var next := e.next(e.All(s.pages));
      if next.Some? && next.value != "" && next.value !in s.seen {
        var requests := s.requests + [After(next.value)];
        RequestMore(e, s.pages, s.requests, next.value);
        if e.load(requests).Success? {
          PageMore(e, s.pages, requests, e.load(requests).value);
        }
        SeenMore(s.requests, s.seen, next.value);
      }
    }
  }

  lemma SeenMore(requests: seq<Cursor>, seen: set<string>, id: string)
    requires NoRepeats(requests) && (forall x :: x in seen <==> After(x) in requests) && id !in seen
    ensures NoRepeats(requests + [After(id)])
    ensures forall x :: x in seen + {id} <==> After(x) in requests + [After(id)]
  {}

  lemma {:induction false} StepsKeep<T, E>(e: Endpoint<T, E>, s: State<T, E>, n: nat)
    requires Inv(e, s)
    ensures Inv(e, Run(e, s, n))
    decreases n
  {
    if n > 0 {
      StepKeeps(e, s);
      StepsKeep(e, Step(e, s), n - 1);
    }
  }

  /** For any server, at any point of any run: Start is first, no cursor repeats, and a list is returned only whole. */
  lemma RunKeeps<T, E>(e: Endpoint<T, E>, n: nat)
    ensures Inv(e, Run(e, Begin(e), n))
  {
    assert [Start][..1] == [Start];
    StepsKeep(e, Begin(e), n);
  }

  // ---- servers whose continuation ids come from a finite set ----

  /** Some request is answered with this page. */
  ghost predicate Served<T, E>(e: Endpoint<T, E>, page: T) {
    exists requests :: e.load(requests) == Success(page)
  }

  /** Whatever pages the server answers with, in any order, they continue from an id in `ids` or end. */
  ghost predicate IdsFrom<T(!new), E>(e: Endpoint<T, E>, ids: set<string>) {
    forall pages: seq<T> :: pages != [] && (forall k :: 0 <= k < |pages| ==> Served(e, pages[k])) ==>
      ContinuesIn(e.next(e.All(pages)), ids)
  }

  predicate ContinuesIn(next: Option<string>, ids: set<string>) {
    next.Some? ==> next.value in ids
  }

  /** A collection still running has made one request per step. */
  lemma {:induction false} RequestsPerStep<T, E>(e: Endpoint<T, E>, s: State<T, E>, n: nat)
    requires s.Running? && s.pages != []
    ensures Run(e, s, n).Running? ==> |Run(e, s, n).requests| == |s.requests| + n
    decreases n
  {
    if n > 0 {
      if Step(e, s).Running? {
        RequestsPerStep(e, Step(e, s), n - 1);
      } else {
        Settled(e, Step(e, s), n - 1);
      }
    }
  }

  /** A collection that is over stays as it is. */
  lemma {:induction false} Settled<T, E>(e: Endpoint<T, E>, s: State<T, E>, n: nat)
    requires s.Done?
    ensures Run(e, s, n) == s
    decreases n
  {
    if n > 0 {
      Settled(e, s, n - 1);
    }
  }

  ghost function IdsOf(requests: seq<Cursor>): set<string> {
    set k | 1 <= k < |requests| && requests[k].After? :: requests[k].id
  }

  lemma {:induction false} DistinctIds(requests: seq<Cursor>)
    requires requests != [] && NoRepeats(requests) && forall k :: 0 < k < |requests| ==> requests[k].After?
    ensures |IdsOf(requests)| == |requests| - 1
  {
    if |requests| == 1 {
      assert IdsOf(requests) == {};
    } else {
      var init, last := requests[..|requests| - 1], requests[|requests| - 1];
      DistinctIds(init);
      assert IdsOf(requests) == IdsOf(init) + {last.id};
      assert last.id !in IdsOf(init);
    }
  }

  lemma SubsetSize(a: set<string>, b: set<string>)
    requires a <= b
    ensures |a| <= |b|
  {
    assert b == a + (b - a);
  }

  lemma RequestedIdIn<T(!new), E>(e: Endpoint<T, E>, pages: seq<T>, requests: seq<Cursor>, ids: set<string>, k: nat)
    requires Chained(e, pages, requests) && IdsFrom(e, ids) && 0 < k < |requests|
    ensures requests[k].After? && requests[k].id in ids
  {
    var first := pages[..k];
    forall i | 0 <= i < k
      ensures Served(e, first[i])
    {
      assert e.load(requests[..i + 1]) == Success(pages[i]);
    }
    assert ContinuesIn(e.next(e.All(first)), ids);
  }

  /**
   * With continuation ids from a set of n, at most n + 1 requests are ever made and the collection is over within n + 1
   * steps.
   */
  lemma LoadsBounded<T(!new), E>(e: Endpoint<T, E>, ids: set<string>, n: nat)
    requires IdsFrom(e, ids)
    ensures |Run(e, Begin(e), n).requests| <= |ids| + 1
    ensures n > |ids| ==> Run(e, Begin(e), n).Done?
  {
    RunKeeps(e, n);
    var s := Run(e, Begin(e), n);
    var requests := s.requests;
    DistinctIds(requests);
    forall k | 0 < k < |requests|
      ensures requests[k].id in ids
    {
      RequestedIdIn(e, s.pages, requests, ids, k);
    }
    SubsetSize(IdsOf(requests), ids);
    if Begin(e).Running? {
      RequestsPerStep(e, Begin(e), n);
    } else {
      Settled(e, Begin(e), n);
    }
  }

  /** One turn of the loop: `stop` is set when the collection is over. */
  method Turn<T, E>(e: Endpoint<T, E>, continuation: Continuation, all: T, requests: seq<Cursor>, ghost pages: seq<T>)
    returns (stop: Option<Result<T, E>>, all': T, requests': seq<Cursor>, ghost pages': seq<T>)
    requires pages != [] && all == e.All(pages)
    modifies continuation
    ensures pages' != [] && all' == e.All(pages')
    ensures Step(e, Running(pages, requests, old(continuation.seen)))
         == if stop.Some? then Done(stop.value, pages, requests') else Running(pages', requests', continuation.seen)
  {
    stop, all', requests', pages' := None, all, requests, pages;
    var cursor := continuation.Advance(e.next(all));
    if cursor.Failure? {
      stop := Some(Failure(e.invalid));
    } else if cursor.value.None? {
      stop := Some(Success(all));
    } else {
      requests' := requests + [cursor.value.value];
      var page := e.load(requests');
      if page.Failure? {
        stop := Some(Failure(page.error));
      } else {
        pages' := pages + [page.value];
        assert pages'[..|pages|] == pages;
        all' := e.append(all, page.value);
      }
    }
  }

  /** The loop, from the first page on. */
  method Follow<T, E>(e: Endpoint<T, E>, first: T, ghost bound: nat, ghost end: State<T, E>)
        returns (r: Result<T, E>, requests: seq<Cursor>)
    requires end == Run(e, Running([first], [Start], {}), bound) && end.Done?
    ensures r == end.result && requests == end.requests
  {
    var all := first;
    requests := [Start];
    var continuation := new Continuation();
    ghost var pages, n := [all], bound;
    var stop: Option<Result<T, E>> := None;
    while stop.None?
      invariant pages != [] && all == e.All(pages) && fresh(continuation)
      invariant stop.None? ==> Run(e, Running(pages, requests, continuation.seen), n) == end
      invariant stop.Some? ==> end.result == stop.value && end.requests == requests
      decreases n, stop.None?
    {
      ghost var before := Running(pages, requests, continuation.seen);
      stop, all, requests, pages := Turn(e, continuation, all, requests, pages);
      if stop.Some? {
        Settled(e, Step(e, before), n - 1);
      }
      n := n - 1;
    }
    r := stop.value;
  }

  /** `fetch_all`: the end of the run, reached after at most one step per continuation id. */
  method FetchAll<T(!new), E>(e: Endpoint<T, E>, ghost ids: set<string>)
        returns (r: Result<T, E>, requests: seq<Cursor>)
    requires IdsFrom(e, ids)
    ensures var end := Run(e, Begin(e), |ids| + 1); end.Done? && r == end.result && requests == end.requests
  {
    ghost var n := |ids| + 1;
    ghost var end := Run(e, Begin(e), n);
    LoadsBounded(e, ids, n);
    requests := [Start];
    var first := e.load(requests);
    if first.Failure? {
      Settled(e, Begin(e), n);
      return Failure(first.error), requests;
    }
    assert [] + [first.value] == [first.value];
    r, requests := Follow(e, first.value, n, end);
  }

  // ---- lists of rows ----

  /** A page as every caller has it: appending extends the rows and takes over the continuation. */
  datatype Page<T> = Page(rows: seq<T>, next: Option<string>)

  function NextOf<T>(p: Page<T>): Option<string> {
    p.next
  }

  function AppendPage<T>(all: Page<T>, page: Page<T>): Page<T> {
    Page(all.rows + page.rows, page.next)
  }

  function Rows<T>(pages: seq<Page<T>>): seq<T> {
    if pages == [] then [] else Rows(pages[..|pages| - 1]) + pages[|pages| - 1].rows
  }

  lemma {:induction false} AllRows<T, E>(e: Endpoint<Page<T>, E>, pages: seq<Page<T>>)
    requires pages != [] && e.append == AppendPage && e.next == NextOf
    ensures e.All(pages) == Page(Rows(pages), pages[|pages| - 1].next)
  {
    if |pages| == 1 {
      assert Rows(pages[..0]) == [];
    } else {
      AllRows(e, pages[..|pages| - 1]);
    }
  }

  /**
   * A collected list is exactly the rows of all pages, in the order requested, where each request but the first names
   * the continuation of the page before it and the last page has none.
   */
  lemma CollectedWhole<T, E>(e: Endpoint<Page<T>, E>, n: nat)
    requires e.append == AppendPage && e.next == NextOf
    requires Run(e, Begin(e), n).Done? && Run(e, Begin(e), n).result.Success?
    ensures var s := Run(e, Begin(e), n);
            && |s.pages| == |s.requests| > 0 && s.requests[0] == Start
            && s.result.value.rows == Rows(s.pages) && s.pages[|s.pages| - 1].next.None?
            && forall k :: 0 < k < |s.requests|
                ==> s.requests[k].After? && s.pages[k - 1].next == Some(s.requests[k].id)
  {
    RunKeeps(e, n);
    var s := Run(e, Begin(e), n);
    AllRows(e, s.pages);
    forall k | 0 < k < |s.requests|
      ensures s.requests[k].After? && s.pages[k - 1].next == Some(s.requests[k].id)
    {
      AllRows(e, s.pages[..k]);
    }
  }

  /** Row lists: if every page the server answers with continues in `ids` or ends, so does every collected list. */
  lemma PageIdsFrom<T(!new), E>(e: Endpoint<Page<T>, E>, ids: set<string>)
    requires e.append == AppendPage && e.next == NextOf
    requires forall requests :: e.load(requests).Success? ==> ContinuesIn(e.load(requests).value.next, ids)
    ensures IdsFrom(e, ids)
  {
    forall pages: seq<Page<T>> | pages != [] && forall k :: 0 <= k < |pages| ==> Served(e, pages[k])
      ensures ContinuesIn(e.next(e.All(pages)), ids)
    {
      AllRows(e, pages);
      assert Served(e, pages[|pages| - 1]);
    }
  }

  /**
   * A server of row pages with n continuation ids is asked at most n + 1 times, and the list then ends whole or failed.
   */
  lemma RowsBounded<T(!new), E>(e: Endpoint<Page<T>, E>, ids: set<string>, n: nat)
    requires e.append == AppendPage && e.next == NextOf
    requires forall requests :: e.load(requests).Success? ==> ContinuesIn(e.load(requests).value.next, ids)
    ensures |Run(e, Begin(e), n).requests| <= |ids| + 1
    ensures n > |ids| ==> Run(e, Begin(e), n).Done?
  {
    PageIdsFrom(e, ids);
    LoadsBounded(e, ids, n);
  }

  function RowsEndpoint<T, E>(load: seq<Cursor> -> Result<Page<T>, E>, invalid: E): Endpoint<Page<T>, E> {
    Endpoint(load, NextOf, AppendPage, invalid)
  }

  /** A list endpoint of the client: all rows of all pages in request order, or the error; never some of the rows. */
  method FetchRows<T(!new), E>(load: seq<Cursor> -> Result<Page<T>, E>, invalid: E, ghost ids: set<string>)
    returns (r: Result<seq<T>, E>, requests: seq<Cursor>)
    requires forall asked :: load(asked).Success? ==> ContinuesIn(load(asked).value.next, ids)
    ensures var e := RowsEndpoint(load, invalid);
            var end := Run(e, Begin(e), |ids| + 1);
            && end.Done? && requests == end.requests && |requests| <= |ids| + 1
            && r == if end.result.Success? then Success(Rows(end.pages)) else Failure(end.result.error)
  {
    var e := RowsEndpoint(load, invalid);
    PageIdsFrom(e, ids);
    RowsBounded(e, ids, |ids| + 1);
    var all;
    all, requests := FetchAll(e, ids);
    if all.Success? {
      CollectedWhole(e, |ids| + 1);
      return Success(all.value.rows), requests;
    }
    r := Failure(all.error);
  }
}
