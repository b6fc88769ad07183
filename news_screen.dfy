// The paginated news feed behind the news screen: query normalisation, the
// de-duplicating append `mergeUnique`, and the controller whose state the
// screen's handlers update. Asynchronous responses are explicit events,
// `OnSuccess(rid, ...)` and `OnFinally(rid)`, which turns every interleaving
// of responses into a sequential trace. As in the promise chain of
// `handle`, each request delivers at most one success and then exactly one
// finally, but the events of different requests interleave freely. The
// debounce timer is not modelled: the debounced query is an input
// (`SetDebouncedQuery`).

module NewsScreen {
  import opened JsCore

  /** `MIN_QUERY_CHARS` */
  const MinQueryChars: nat := 2

  /** The fields of a NewsAPI article that the feed logic reads. */
  datatype Article = Article(url: Option<string>, title: string, publishedAt: Option<string>)

  /** The de-duplication key: the url when there is one (even ""), else `${title}-${publishedAt ?? ''}`. */
  function Key(a: Article): (k: string)
    ensures a.url.Some? ==> k == a.url.value
    ensures a.url.None? ==> |k| > |a.title| && k[..|a.title|] == a.title && k[|a.title|] == '-'
  {
    match a.url
    case Some(u) => u
    case None => a.title + "-" + (match a.publishedAt case Some(p) => p case None => "")
  }

  /** The url and the fallback key share one namespace: an article without a url can collide with one that has it. */
  lemma UrlAndFallbackKeysCollide(title: string, publishedAt: string)
    ensures Key(Article(Some(title + "-" + publishedAt), "", None))
         == Key(Article(None, title, Some(publishedAt)))
  {
  }

  // ---------------------------------------------------------------------------
  // Query normalisation

  /** `isShortQuery`: the trimmed query is non-empty but shorter than the minimum (in UTF-16 units). */
  predicate IsShortQuery(debounced: string) {
    var n := Utf16Length(Trim(debounced));
    0 < n < MinQueryChars
  }

  /** `q`: the trimmed query when it is long enough, otherwise undefined (no filter). */
  function EffectiveQuery(debounced: string): (q: Option<string>)
    ensures q.None? <==> Trim(debounced) == [] || IsShortQuery(debounced)
    ensures q.Some? ==> q.value == Trim(debounced) && Utf16Length(q.value) >= MinQueryChars
  {
    var normalized := Trim(debounced);
    if !IsShortQuery(debounced) && Utf16Length(normalized) != 0 then Some(normalized) else None
  }

  /** A query is short exactly when, trimmed, it is a single character of the Basic Multilingual Plane. */
  lemma ShortQueryIsOneCharacter(debounced: string)
    ensures IsShortQuery(debounced) <==> |Trim(debounced)| == 1 && Trim(debounced)[0] <= '\U{FFFF}'
  {
    Utf16LengthOne(Trim(debounced));
  }

  /** `hasNext`: unknown total means more may come; otherwise more come while fewer are loaded. */
  function HasNext(loaded: nat, totalResults: Option<int>): bool {
    totalResults.None? || loaded < totalResults.value
  }

  // ---------------------------------------------------------------------------
  // mergeUnique

  function KeysOf(items: seq<Article>): set<string> {
    set a | a in items :: Key(a)
  }

  predicate DistinctKeys(items: seq<Article>) {
    forall i, j :: 0 <= i < j < |items| ==> Key(items[i]) != Key(items[j])
  }

  /** The items of `next` kept by the filter with a `seen` set: each whose key was not seen yet, which it then adds. */
  function NewItems(seen: set<string>, next: seq<Article>): seq<Article>
    decreases |next|
  {
    if next == [] then []
    else if Key(next[0]) in seen then NewItems(seen, next[1..])
    else [next[0]] + NewItems(seen + {Key(next[0])}, next[1..])
  }

  /** The value of `mergeUnique(prev, next)`. */
  function Merged(prev: seq<Article>, next: seq<Article>): seq<Article> {
    prev + NewItems(KeysOf(prev), next)
  }

  /**
   * A reference definition of what is appended, item by item from the end:
   * an item of `next` is kept exactly when its key is neither in `prev` nor
   * on an earlier item of `next`.
   */
  function FirstOccurrences(prev: seq<Article>, next: seq<Article>): seq<Article> {
    if next == [] then []
    else
      var earlier := next[..|next| - 1];
      var last := next[|next| - 1];
      FirstOccurrences(prev, earlier)
        + (if Key(last) in KeysOf(prev) || Key(last) in KeysOf(earlier) then [] else [last])
  }

  lemma KeysOfAppend(a: seq<Article>, b: seq<Article>)
    ensures KeysOf(a + b) == KeysOf(a) + KeysOf(b)
  {
    forall k | k in KeysOf(a + b) ensures k in KeysOf(a) + KeysOf(b) {
      var x :| x in a + b && Key(x) == k;
    }
  }

  lemma {:induction false} NewItemsSnoc(seen: set<string>, xs: seq<Article>, x: Article)
    ensures NewItems(seen, xs + [x])
         == NewItems(seen, xs) + (if Key(x) in seen + KeysOf(xs) then [] else [x])
    decreases |xs|
  {
    if xs == [] {
      assert xs + [x] == [x];
      assert KeysOf(xs) == {};
    } else {
      var y := xs[0];
      assert (xs + [x])[0] == y && (xs + [x])[1..] == xs[1..] + [x];
      assert xs == [y] + xs[1..];
      KeysOfAppend([y], xs[1..]);
      assert KeysOf([y]) == {Key(y)};
      if Key(y) in seen {
        NewItemsSnoc(seen, xs[1..], x);
      } else {
        NewItemsSnoc(seen + {Key(y)}, xs[1..], x);
      }
    }
  }

  /** What `mergeUnique` appends to `prev` is exactly the first occurrences of keys new to `prev`. */
  lemma {:induction false} AppendedAreFirstOccurrences(prev: seq<Article>, next: seq<Article>)
    ensures NewItems(KeysOf(prev), next) == FirstOccurrences(prev, next)
  {
    if next != [] {
      var earlier := next[..|next| - 1];
      var last := next[|next| - 1];
      assert next == earlier + [last];
      AppendedAreFirstOccurrences(prev, earlier);
      NewItemsSnoc(KeysOf(prev), earlier, last);
    }
  }

  lemma {:induction false} NewItemsFacts(seen: set<string>, next: seq<Article>)
    ensures var r := NewItems(seen, next);
            && DistinctKeys(r)
            && (forall a :: a in r ==> a in next && Key(a) !in seen)
            && seen + KeysOf(r) == seen + KeysOf(next)
    decreases |next|
  {
    if next != [] {
      var x := next[0];
      assert next == [x] + next[1..];
      KeysOfAppend([x], next[1..]);
      assert KeysOf([x]) == {Key(x)};
      if Key(x) in seen {
        NewItemsFacts(seen, next[1..]);
      } else {
        var rest := NewItems(seen + {Key(x)}, next[1..]);
        NewItemsFacts(seen + {Key(x)}, next[1..]);
        KeysOfAppend([x], rest);
        assert NewItems(seen, next) == [x] + rest;
      }
    }
  }

  /**
   * `mergeUnique` keeps `prev` as it is, loses no key of either list, and
   * keeps the keys pairwise distinct when those of `prev` are.
   */
  lemma MergedProperties(prev: seq<Article>, next: seq<Article>)
    ensures |Merged(prev, next)| >= |prev| && Merged(prev, next)[..|prev|] == prev
    ensures KeysOf(Merged(prev, next)) == KeysOf(prev) + KeysOf(next)
    ensures DistinctKeys(prev) ==> DistinctKeys(Merged(prev, next))
  {
    var added := NewItems(KeysOf(prev), next);
    NewItemsFacts(KeysOf(prev), next);
    KeysOfAppend(prev, added);
    assert Merged(prev, next)[..|prev|] == prev;
    if DistinctKeys(prev) {
      var m := Merged(prev, next);
      forall i, j | 0 <= i < j < |m| ensures Key(m[i]) != Key(m[j]) {
        if j >= |prev| {
          assert m[j] == added[j - |prev|];
          if i >= |prev| {
            assert m[i] == added[i - |prev|];
          } else {
            assert m[j] in added;
            assert Key(m[i]) in KeysOf(prev);
          }
        }
      }
    }
  }

  /** Appending a page whose first item is already shown adds only the new one: [a, b] merged with [b, c] is [a, b, c]. */
  lemma MergeExample(a: Article, b: Article, c: Article)
    requires Key(a) != Key(b) && Key(b) != Key(c) && Key(a) != Key(c)
    ensures Merged([a, b], [b, c]) == [a, b, c]
  {
    assert Key(a) in KeysOf([a, b]) && Key(b) in KeysOf([a, b]);
    assert Key(c) !in KeysOf([a, b]);
    assert [b, c][1..] == [c] && [c][1..] == [];
    var seen := KeysOf([a, b]);
    assert NewItems(seen + {Key(c)}, []) == [];
    assert NewItems(seen, [c]) == [c];
    assert NewItems(seen, [b, c]) == [c];
    assert [a, b] + [c] == [a, b, c];
  }

  /** `mergeUnique(prev, next)`, building the seen set and filtering `next` with it. */
  method MergeUnique(prev: seq<Article>, next: seq<Article>) returns (merged: seq<Article>)
    ensures merged == Merged(prev, next)
  {
    var seen: set<string> := {};
    for i := 0 to |prev|
      invariant seen == KeysOf(prev[..i])
    {
      KeysOfAppend(prev[..i], [prev[i]]);
      assert prev[..i + 1] == prev[..i] + [prev[i]];
      assert KeysOf([prev[i]]) == {Key(prev[i])};
      seen := seen + {Key(prev[i])};
    }
    assert prev[..|prev|] == prev;
    var deduped: seq<Article> := [];
    for i := 0 to |next|
      invariant deduped + NewItems(seen, next[i..]) == NewItems(KeysOf(prev), next)
    {
      assert next[i..][0] == next[i] && next[i..][1..] == next[i + 1..];
      var key := Key(next[i]);
      if key !in seen {
        deduped := deduped + [next[i]];
        seen := seen + {key};
      }
    }
    merged := prev + deduped;
  }

  // ---------------------------------------------------------------------------
  // The controller

  /** What the callbacks of one `fetchPage` call captured. */
  datatype FetchRequest = FetchRequest(pageToLoad: int, append: bool, query: Option<string>)

  /** Every field of the controller except the query, for "nothing changed" statements. */
  datatype FeedState = FeedState(
    data: seq<Article>, page: int, totalResults: Option<int>,
    initialLoading: bool, loadingMore: bool, refreshing: bool,
    canLoadMore: bool, requestId: nat, requests: map<nat, FetchRequest>,
    pending: set<nat>, answered: set<nat>)

  /** A change of the debounced text re-runs the query effect when `isShortQuery` or `q` differs from the last render's. */
  predicate QueryDepsChanged(before: string, after: string) {
    IsShortQuery(before) != IsShortQuery(after) || EffectiveQuery(before) != EffectiveQuery(after)
  }

  class NewsController {
    var data: seq<Article>
    var page: int
    var totalResults: Option<int>
    var initialLoading: bool
    var loadingMore: bool
    var refreshing: bool
    var debouncedQuery: string
    /** `canLoadMoreRef`: the guard against repeated end-reached events. */
    var canLoadMore: bool
    /** `requestIdRef`: the id of the latest request. */
    var requestId: nat
    /** The requests issued so far, by id, with what their callbacks captured. */
    var requests: map<nat, FetchRequest>
    /** The requests whose `onFinally` has not run yet. */
    ghost var pending: set<nat>
    /** The requests whose `onSuccess` has run. */
    ghost var answered: set<nat>

    ghost predicate Valid()
      reads this
    {
      && (forall rid :: rid in requests ==> 0 < rid <= requestId)
      && pending <= requests.Keys && answered <= requests.Keys
    }

    ghost function State(): FeedState
      reads this
    {
      FeedState(data, page, totalResults, initialLoading, loadingMore, refreshing,
                canLoadMore, requestId, requests, pending, answered)
    }

    /** The early returns of `loadMore`. */
    predicate LoadMoreBlocked()
      reads this
    {
      || IsShortQuery(debouncedQuery)
      || !HasNext(|data|, totalResults) || initialLoading || loadingMore || refreshing
      || !canLoadMore
    }

    /** Mounting the screen: the initial state, then the query effect for the empty query. */
    constructor ()
      ensures Valid()
      ensures data == [] && page == 1 && totalResults == None && debouncedQuery == ""
      ensures initialLoading && !loadingMore && !refreshing && canLoadMore
      ensures requestId == 1 && requests == map[1 := FetchRequest(1, false, None)]
      ensures pending == {1} && answered == {}
    {
      data, page, totalResults := [], 1, None;
      initialLoading, loadingMore, refreshing := false, false, false;
      debouncedQuery := "";
      canLoadMore := true;
      requestId, requests := 0, map[];
      pending, answered := {}, {};
      new;
      assert Trim("") == "";
      RunQueryEffect();
    }

    /** `fetchPage`: raise the loading flag of the mode, take a new request id and issue the request. */
    method FetchPage(pageToLoad: int, append: bool, query: Option<string>)
      requires Valid()
      modifies this`initialLoading, this`loadingMore, this`requestId, this`requests, this`pending
      ensures Valid()
      ensures append ==> loadingMore && initialLoading == old(initialLoading)
      ensures !append ==> initialLoading && loadingMore == old(loadingMore)
      ensures requestId == old(requestId) + 1 && requestId !in old(requests)
      ensures requests == old(requests)[requestId := FetchRequest(pageToLoad, append, query)]
      ensures pending == old(pending) + {requestId}
    {
      if append {
        loadingMore := true;
      } else {
        initialLoading := true;
      }
      requestId := requestId + 1;
      requests := requests[requestId := FetchRequest(pageToLoad, append, query)];
      pending := pending + {requestId};
    }

    /**
     * `onSuccess` of request `rid`: ignored unless `rid` is the latest id;
     * otherwise it takes the total, appends with `mergeUnique` or replaces
     * the list as it comes (no de-duplication), and records the page.
     * It runs at most once per request, and before that request's finally.
     */
    method OnSuccess(rid: nat, articles: seq<Article>, total: Option<int>)
      requires Valid() && rid in pending && rid !in answered
      modifies this`data, this`page, this`totalResults, this`answered
      ensures Valid() && answered == old(answered) + {rid}
      ensures rid != requestId ==>
                data == old(data) && page == old(page) && totalResults == old(totalResults)
      ensures rid == requestId ==>
                && totalResults == total
                && page == requests[rid].pageToLoad
                && data == if requests[rid].append then Merged(old(data), articles) else articles
    {
      answered := answered + {rid};
      if rid != requestId {
        return;
      }
      var request := requests[rid];
      totalResults := total;
      if request.append {
        data := MergeUnique(data, articles);
      } else {
        data := articles;
      }
      page := request.pageToLoad;
    }

    /**
     * `onFinally` of request `rid`, current, stale or failed, run once: clear
     * the flags and re-arm the guard, whichever request is the latest.
     */
    method OnFinally(rid: nat)
      requires Valid() && rid in pending
      modifies this`initialLoading, this`loadingMore, this`refreshing, this`canLoadMore, this`pending
      ensures Valid() && pending == old(pending) - {rid}
      ensures !initialLoading && !loadingMore && !refreshing && canLoadMore
    {
      initialLoading, loadingMore, refreshing := false, false, false;
      canLoadMore := true;
      pending := pending - {rid};
    }

    /**
     * The query effect. A short query invalidates every request in flight,
     * settles the flags and shows an empty, finished list without fetching;
     * any other query empties the list and fetches its first page. Besides a
     * change of `isShortQuery` or `q`, it re-runs whenever `fetchPage` is
     * rebuilt, that is when `api` or `t` changes (a language switch); a
     * caller models that by calling this method directly.
     */
    method RunQueryEffect()
      requires Valid()
      modifies this
      ensures Valid() && debouncedQuery == old(debouncedQuery)
      ensures requestId == old(requestId) + 1 && data == [] && answered == old(answered)
      ensures IsShortQuery(debouncedQuery) ==>
                && requests == old(requests) && pending == old(pending)
                && !initialLoading && !loadingMore && !refreshing && canLoadMore
                && totalResults == Some(0) && page == 1
                && !HasNext(|data|, totalResults)
      ensures !IsShortQuery(debouncedQuery) ==>
                && requests == old(requests)[requestId := FetchRequest(1, false, EffectiveQuery(debouncedQuery))]
                && pending == old(pending) + {requestId}
                && initialLoading && loadingMore == old(loadingMore) && refreshing == old(refreshing)
                && canLoadMore == old(canLoadMore) && totalResults == None && page == old(page)
    {
      if IsShortQuery(debouncedQuery) {
        ClearForShortQuery();
      } else {
        ReloadFirstPage();
      }
    }

    /** The short-query branch of the query effect: bump the id, settle the flags, show an empty finished list. */
    method ClearForShortQuery()
      requires Valid()
      modifies this`requestId, this`initialLoading, this`loadingMore, this`refreshing, this`canLoadMore
      modifies this`data, this`totalResults, this`page
      ensures Valid() && requestId == old(requestId) + 1
      ensures !initialLoading && !loadingMore && !refreshing && canLoadMore
      ensures data == [] && totalResults == Some(0) && page == 1
    {
      requestId := requestId + 1;
      initialLoading, loadingMore, refreshing, canLoadMore := false, false, false, true;
      data, totalResults, page := [], Some(0), 1;
    }

    /** The other branch of the query effect: forget the total, empty the list and fetch page 1 with `q`. */
    method ReloadFirstPage()
      requires Valid()
      modifies this`data, this`totalResults, this`initialLoading, this`loadingMore
      modifies this`requestId, this`requests, this`pending
      ensures Valid() && data == [] && totalResults == None && initialLoading && loadingMore == old(loadingMore)
      ensures requestId == old(requestId) + 1
      ensures requests == old(requests)[requestId := FetchRequest(1, false, EffectiveQuery(debouncedQuery))]
      ensures pending == old(pending) + {requestId}
    {
      totalResults := None;
      data := [];
      FetchPage(1, false, EffectiveQuery(debouncedQuery));
    }

    /** A new debounced query: for a change of the debounced text, the effect runs exactly when `isShortQuery` or `q` changes. */
    method SetDebouncedQuery(text: string)
      requires Valid()
      modifies this
      ensures Valid() && debouncedQuery == text
      ensures !QueryDepsChanged(old(debouncedQuery), text) ==> State() == old(State())
      ensures QueryDepsChanged(old(debouncedQuery), text) ==>
                && requestId == old(requestId) + 1 && data == [] && answered == old(answered)
                && (IsShortQuery(text) ==>
                      && requests == old(requests) && pending == old(pending)
                      && totalResults == Some(0) && page == 1
                      && !initialLoading && !loadingMore && !refreshing && canLoadMore)
                && (!IsShortQuery(text) ==>
                      && requests == old(requests)[requestId := FetchRequest(1, false, EffectiveQuery(text))]
                      && pending == old(pending) + {requestId}
                      && initialLoading && totalResults == None && page == old(page)
                      && loadingMore == old(loadingMore) && refreshing == old(refreshing)
                      && canLoadMore == old(canLoadMore))
    {
      var before := debouncedQuery;
      debouncedQuery := text;
      if QueryDepsChanged(before, text) {
        RunQueryEffect();
      }
    }

    /** `loadMore`: unless blocked, disarm the guard and append the next page. */
    method LoadMore()
      requires Valid()
      modifies this
      ensures Valid() && debouncedQuery == old(debouncedQuery)
      ensures old(LoadMoreBlocked()) ==> State() == old(State())
      ensures !old(LoadMoreBlocked()) ==>
                && !canLoadMore && loadingMore
                && requestId == old(requestId) + 1
                && requests == old(requests)[requestId := FetchRequest(old(page) + 1, true, EffectiveQuery(debouncedQuery))]
                && pending == old(pending) + {requestId} && answered == old(answered)
                && data == old(data) && page == old(page) && totalResults == old(totalResults)
                && initialLoading == old(initialLoading) && refreshing == old(refreshing)
    {
      if IsShortQuery(debouncedQuery) {
        return;
      }
      if !HasNext(|data|, totalResults) || initialLoading || loadingMore || refreshing {
        return;
      }
      if !canLoadMore {
        return;
      }
      canLoadMore := false;
      FetchPage(page + 1, true, EffectiveQuery(debouncedQuery));
    }

    /**
     * `onRefresh`: with a short query only clear `refreshing`; blocked while
     * an initial or append load runs; otherwise refetch page 1 in replace mode.
     * The list itself stays as it is until the response arrives.
     */
    method OnRefresh()
      requires Valid()
      modifies this
      ensures Valid() && debouncedQuery == old(debouncedQuery)
      ensures data == old(data) && page == old(page) && answered == old(answered)
      ensures IsShortQuery(debouncedQuery) ==>
                && !refreshing && totalResults == old(totalResults)
                && initialLoading == old(initialLoading) && loadingMore == old(loadingMore)
                && canLoadMore == old(canLoadMore)
                && requestId == old(requestId) && requests == old(requests) && pending == old(pending)
      ensures !IsShortQuery(debouncedQuery) && (old(initialLoading) || old(loadingMore)) ==>
                State() == old(State())
      ensures !IsShortQuery(debouncedQuery) && !old(initialLoading) && !old(loadingMore) ==>
                && refreshing && initialLoading && !loadingMore && totalResults == None
                && HasNext(|data|, totalResults)
                && requestId == old(requestId) + 1
                && requests == old(requests)[requestId := FetchRequest(1, false, EffectiveQuery(debouncedQuery))]
                && pending == old(pending) + {requestId}
                && canLoadMore == old(canLoadMore)
    {
      if IsShortQuery(debouncedQuery) {
        refreshing := false;
        return;
      }
      if initialLoading || loadingMore {
        return;
      }
      refreshing := true;
      totalResults := None;
      FetchPage(1, false, EffectiveQuery(debouncedQuery));
    }

    /** `onMomentumScrollBegin`: re-arm the load-more guard. */
    method OnMomentumScrollBegin()
      modifies this`canLoadMore
      ensures canLoadMore
    {
      canLoadMore := true;
    }
  }

  /**
   * Paging follows the reported total: `loadMore` is a no-op once the list
   * holds at least `totalResults` articles, and an unknown total never ends
   * paging by itself.
   */
  lemma PagingFollowsTotal(c: NewsController)
    ensures c.totalResults.Some? && |c.data| >= c.totalResults.value ==> c.LoadMoreBlocked()
    ensures c.totalResults.None? ==> HasNext(|c.data|, c.totalResults)
    ensures c.totalResults.Some? && |c.data| < c.totalResults.value ==> HasNext(|c.data|, c.totalResults)
  {
  }

  /**
   * The latest response, once the list it leaves holds the reported total,
   * ends paging: the next end-reached event issues no request.
   */
  method LastPageEndsPaging(c: NewsController, articles: seq<Article>, total: int)
    requires c.Valid() && c.requestId in c.pending && c.requestId !in c.answered
    requires |if c.requests[c.requestId].append then Merged(c.data, articles) else articles| >= total
    modifies c
    ensures !HasNext(|c.data|, c.totalResults)
    ensures c.requestId == old(c.requestId) && c.requests == old(c.requests)
  {
    c.OnSuccess(c.requestId, articles, Some(total));
    PagingFollowsTotal(c);
    c.LoadMore();
  }

  /** Any request issued before the latest one is stale: its success changes nothing. */
  lemma EarlierRequestsAreStale(c: NewsController, rid: nat)
    requires c.Valid() && rid in c.requests && rid != c.requestId
    ensures rid < c.requestId
  {
  }

  /**
   * A slow response to the initial load that arrives after the response to a
   * new search is ignored: the list shows the search result only.
   */
  method StaleResponseIgnored(query: string, first: Article, found: Article) returns (shown: seq<Article>)
    requires EffectiveQuery(query).Some?
    ensures shown == [found]
  {
    var c := new NewsController();
    c.SetDebouncedQuery(query);
    assert c.requestId == 2 && c.pending == {1, 2} && c.answered == {};
    c.OnSuccess(2, [found], Some(1));
    c.OnFinally(2);
    c.OnSuccess(1, [first], Some(1));
    c.OnFinally(1);
    shown := c.data;
  }

  /** Any number of end-reached events before a response issue a single request. */
  method RepeatedLoadMoreIssuesOneRequest(c: NewsController, events: nat)
    requires c.Valid() && !c.LoadMoreBlocked() && events > 0
    modifies c
    ensures c.requestId == old(c.requestId) + 1 && c.loadingMore && !c.canLoadMore
    ensures c.requests == old(c.requests)[c.requestId := FetchRequest(old(c.page) + 1, true, EffectiveQuery(c.debouncedQuery))]
  {
    c.LoadMore();
    for k := 1 to events
      invariant c.Valid() && c.debouncedQuery == old(c.debouncedQuery) && c.page == old(c.page)
      invariant c.requestId == old(c.requestId) + 1 && c.loadingMore && !c.canLoadMore
      invariant c.requests == old(c.requests)[c.requestId := FetchRequest(old(c.page) + 1, true, EffectiveQuery(c.debouncedQuery))]
    {
      c.LoadMore();
    }
  }

  /**
   * `onFinally` does not check the request id: when an older request is
   * still in flight, its finally clears the flags of a refresh issued after
   * it, so `loadMore` goes ahead and the refresh's own response, still
   * pending, becomes stale.
   */
  method StaleFinallyReleasesRefresh(c: NewsController, older: nat)
    requires c.Valid() && !IsShortQuery(c.debouncedQuery) && older in c.pending
    requires !c.initialLoading && !c.loadingMore && c.canLoadMore
    modifies c
    ensures c.requestId == old(c.requestId) + 2 && c.loadingMore
    ensures old(c.requestId) + 1 in c.pending && old(c.requestId) + 1 != c.requestId
  {
    c.OnRefresh();
    c.OnFinally(older);
    c.LoadMore();
  }

  /** A single-character query empties the list, ends paging, and issues no request. */
  method ShortQueryStopsPaging(c: NewsController, text: string)
    requires c.Valid() && IsShortQuery(text) && !IsShortQuery(c.debouncedQuery)
    modifies c
    ensures c.data == [] && !HasNext(|c.data|, c.totalResults) && c.requests == old(c.requests)
  {
    c.SetDebouncedQuery(text);
  }
}
