// The offset-paged Pokémon list: the projection of raw list entries into
// cards, the client-side title filter, and the controller whose state the
// screen's handlers update. As for the news feed, responses are explicit
// `OnSuccess(i, ...)` / `OnFinally(i)` events, at most one success and then
// one finally per request, with the events of different requests in any
// order; here a request is identified by its position in `issued`, since
// the screen keeps no request id and applies every response it receives.

module PokemonScreen {
  import opened JsCore
  import opened Decimal
  import opened PokemonId
  import opened PokemonImage

  /** `PAGE_SIZE` */
  const PageSize: nat := 20

  /** An entry of the PokeAPI list endpoint. */
  datatype PokemonRef = PokemonRef(name: string, url: string)

  /** What a card shows: title, description, artwork URL and the parsed id. */
  datatype PokemonCard = PokemonCard(title: string, description: string, imageUrl: Option<string>, id: Option<nat>)

  const DexPrefix: string := "Pok\U{E9}dex #"
  /** The em dash written when the id is null. */
  const NoId: string := "\U{2014}"

  // ---------------------------------------------------------------------------
  // The `pokemons` projection

  /** `Pokédex #${id ?? '—'}` */
  function Description(id: Option<nat>): (d: string)
    ensures DexPrefix <= d
  {
    DexPrefix + match id case Some(n) => NatToDecimal(n) case None => NoId
  }

  /** The description gives the id back: the digits after the prefix, or the dash. */
  lemma DescriptionCarriesId(id: Option<nat>)
    ensures var rest := Description(id)[|DexPrefix|..];
            match id
            case Some(n) => AllDigits(rest) && DigitsValue(rest) == n
            case None => rest == NoId
  {
    var rest := Description(id)[|DexPrefix|..];
    match id
    case Some(n) =>
      assert rest == NatToDecimal(n);
      NatToDecimalRoundTrip(n);
    case None =>
      assert rest == NoId;
  }

  /** Distinct ids (null included) give distinct descriptions. */
  lemma DescriptionInjective(a: Option<nat>, b: Option<nat>)
    requires Description(a) == Description(b)
    ensures a == b
  {
    DescriptionCarriesId(a);
    DescriptionCarriesId(b);
  }

  function AsInt(id: Option<nat>): Option<int> {
    match id
    case Some(n) => Some(n as int)
    case None => None
  }

  /** One entry of `data.map(...)`; `capitalize` stands for `capitalizeString`. */
  function CardOf(p: PokemonRef, capitalize: string -> string): (c: PokemonCard)
    ensures c.id == PokemonIdFromUrl(p.url) && c.title == capitalize(p.name)
    ensures c.imageUrl.Some? <==> c.id.Some? && c.id.value != 0
    ensures c.description == Description(c.id)
  {
    var id := PokemonIdFromUrl(p.url);
    PokemonCard(capitalize(p.name), Description(id), BuildPokemonImageUrl(AsInt(id)), id)
  }

  /** The `pokemons` memo: one card per entry, in order. */
  function Project(data: seq<PokemonRef>, capitalize: string -> string): (cards: seq<PokemonCard>)
    ensures |cards| == |data|
    ensures forall i :: 0 <= i < |data| ==> cards[i] == CardOf(data[i], capitalize)
  {
    if data == [] then [] else [CardOf(data[0], capitalize)] + Project(data[1..], capitalize)
  }

  /** Projecting two pages is projecting each: appending a page appends its cards. */
  lemma ProjectAppend(a: seq<PokemonRef>, b: seq<PokemonRef>, capitalize: string -> string)
    ensures Project(a + b, capitalize) == Project(a, capitalize) + Project(b, capitalize)
  {
    var l, r := Project(a + b, capitalize), Project(a, capitalize) + Project(b, capitalize);
    assert |l| == |r|;
    forall i | 0 <= i < |l| ensures l[i] == r[i] {
      if i < |a| {
        assert (a + b)[i] == a[i];
      } else {
        assert (a + b)[i] == b[i - |a|];
      }
    }
  }

  /**
   * The artwork URL of a card is the one built from its id's digits, and an
   * id of 0 shows "#0" in the description but no artwork.
   */
  lemma CardImageFollowsId(p: PokemonRef, capitalize: string -> string)
    ensures var c := CardOf(p, capitalize);
            && (c.imageUrl.Some? ==> c.imageUrl.value == ArtworkPrefix + NatToDecimal(c.id.value) + ArtworkSuffix)
            && (c.id == Some(0) ==> c.imageUrl.None? && c.description == DexPrefix + "0")
  {
  }

  // ---------------------------------------------------------------------------
  // The `visiblePokemons` filter

  /** `searchQuery.trim().toLowerCase()` */
  function SearchTerm(searchQuery: string): (q: string)
    ensures |q| == |Trim(searchQuery)|
    ensures forall i :: 0 <= i < |q| ==> q[i] == LowerChar(Trim(searchQuery)[i])
    ensures q == [] <==> AllWhitespace(searchQuery)
  {
    AsciiLower(Trim(searchQuery))
  }

  predicate TitleMatches(c: PokemonCard, q: string) {
    Includes(AsciiLower(c.title), q)
  }

  /** `cards.filter(p => p.title.toLowerCase().includes(q))` */
  function FilterByTitle(cards: seq<PokemonCard>, q: string): (r: seq<PokemonCard>)
    ensures |r| <= |cards|
    ensures forall c :: c in r <==> c in cards && TitleMatches(c, q)
  {
    if cards == [] then []
    else (if TitleMatches(cards[0], q) then [cards[0]] else []) + FilterByTitle(cards[1..], q)
  }

  /** Filtering keeps the order: filtering two lists is filtering each, concatenated. */
  lemma {:induction false} FilterByTitleAppend(a: seq<PokemonCard>, b: seq<PokemonCard>, q: string)
    ensures FilterByTitle(a + b, q) == FilterByTitle(a, q) + FilterByTitle(b, q)
  {
    if a == [] {
      assert a + b == b;
    } else {
      assert (a + b)[0] == a[0] && (a + b)[1..] == a[1..] + b;
      FilterByTitleAppend(a[1..], b, q);
    }
  }

  /** `visiblePokemons`: the whole list for an empty term, otherwise the cards whose title contains it. */
  function VisiblePokemons(cards: seq<PokemonCard>, searchQuery: string): (r: seq<PokemonCard>)
    ensures Trim(searchQuery) == [] ==> r == cards
    ensures forall c :: c in r <==>
              c in cards && (Trim(searchQuery) == [] || TitleMatches(c, SearchTerm(searchQuery)))
  {
    var q := SearchTerm(searchQuery);
    if q == [] then cards else FilterByTitle(cards, q)
  }

  /** Filtering the visible list again with the same query changes nothing. */
  lemma {:induction false} FilterByTitleIdempotent(cards: seq<PokemonCard>, q: string)
    ensures FilterByTitle(FilterByTitle(cards, q), q) == FilterByTitle(cards, q)
  {
    if cards != [] {
      FilterByTitleIdempotent(cards[1..], q);
      var head := if TitleMatches(cards[0], q) then [cards[0]] else [];
      FilterByTitleAppend(head, FilterByTitle(cards[1..], q), q);
      if head != [] {
        assert head[1..] == [];
      }
    }
  }

  lemma VisibleIdempotent(cards: seq<PokemonCard>, searchQuery: string)
    ensures VisiblePokemons(VisiblePokemons(cards, searchQuery), searchQuery)
         == VisiblePokemons(cards, searchQuery)
  {
    FilterByTitleIdempotent(cards, SearchTerm(searchQuery));
  }

  /** The filter sees only loaded cards: the visible part of two pages is that of each page, in order. */
  lemma VisibleAppend(a: seq<PokemonCard>, b: seq<PokemonCard>, searchQuery: string)
    ensures VisiblePokemons(a + b, searchQuery)
         == VisiblePokemons(a, searchQuery) + VisiblePokemons(b, searchQuery)
  {
    FilterByTitleAppend(a, b, SearchTerm(searchQuery));
  }

  // ---------------------------------------------------------------------------
  // The controller

  /** What the callbacks of one `fetchPage` call captured. */
  datatype PageRequest = PageRequest(offset: int, append: bool)

  /** Every field of the controller except the search text. */
  datatype ListState = ListState(
    data: seq<PokemonRef>, initialLoading: bool, loadingMore: bool, refreshing: bool,
    offset: int, hasNext: bool, canLoadMore: bool, issued: seq<PageRequest>,
    pending: set<nat>, answered: set<nat>)

  class PokemonController {
    var data: seq<PokemonRef>
    var initialLoading: bool
    var loadingMore: bool
    var refreshing: bool
    var offset: int
    var hasNext: bool
    var searchQuery: string
    /** `canLoadMoreRef`: the guard against repeated end-reached events. */
    var canLoadMore: bool
    /** The requests issued so far, in order; a response names its request by index. */
    var issued: seq<PageRequest>
    /** The requests whose `onFinally` has not run yet. */
    ghost var pending: set<nat>
    /** The requests whose `onSuccess` has run. */
    ghost var answered: set<nat>

    ghost predicate Valid()
      reads this
    {
      && (forall i :: i in pending ==> i < |issued|)
      && (forall i :: i in answered ==> i < |issued|)
    }

    ghost function State(): ListState
      reads this
    {
      ListState(data, initialLoading, loadingMore, refreshing, offset, hasNext, canLoadMore, issued,
                pending, answered)
    }

    /** `searchQuery.trim()` is truthy: search mode, where `fetchPage` issues nothing. */
    predicate Searching()
      reads this
    {
      Trim(searchQuery) != []
    }

    /** The early returns of `loadMore`. */
    predicate LoadMoreBlocked()
      reads this
    {
      !hasNext || initialLoading || loadingMore || refreshing || !canLoadMore
    }

    /** Mounting the screen: the initial state, then the effect's first fetch of offset 0. */
    constructor ()
      ensures Valid()
      ensures data == [] && offset == 0 && hasNext && searchQuery == "" && canLoadMore
      ensures initialLoading && !loadingMore && !refreshing
      ensures issued == [PageRequest(0, false)] && pending == {0} && answered == {}
    {
      data, offset, hasNext := [], 0, true;
      initialLoading, loadingMore, refreshing := false, false, false;
      searchQuery := "";
      canLoadMore := true;
      issued := [];
      pending, answered := {}, {};
      new;
      assert Trim("") == "";
      RunMountEffect();
    }

    /**
     * `fetchPage`: raise the loading flag of the mode; then, unless a search
     * is active, issue the request. In search mode the flag stays raised.
     */
    method FetchPage(off: int, append: bool)
      requires Valid()
      modifies this`initialLoading, this`loadingMore, this`issued, this`pending
      ensures Valid()
      ensures append ==> loadingMore && initialLoading == old(initialLoading)
      ensures !append ==> initialLoading && loadingMore == old(loadingMore)
      ensures Searching() ==> issued == old(issued) && pending == old(pending)
      ensures !Searching() ==>
                issued == old(issued) + [PageRequest(off, append)] && pending == old(pending) + {|old(issued)|}
    {
      if append {
        loadingMore := true;
      } else {
        initialLoading := true;
      }
      if Trim(searchQuery) != [] {
        return;
      }
      pending := pending + {|issued|};
      issued := issued + [PageRequest(off, append)];
    }

    /**
     * `onSuccess` of request `i`, whenever it arrives: `hasNext` from
     * `res.next`, the results appended (no de-duplication) or in place of
     * the list, and the offset past the page that was requested. It runs at
     * most once per request, and before that request's finally.
     */
    method OnSuccess(i: nat, results: seq<PokemonRef>, next: Option<string>)
      requires Valid() && i in pending && i !in answered
      modifies this`data, this`hasNext, this`offset, this`answered
      ensures Valid() && answered == old(answered) + {i}
      ensures hasNext == Truthy(next)
      ensures data == if issued[i].append then old(data) + results else results
      ensures offset == issued[i].offset + PageSize
    {
      var request := issued[i];
      hasNext := Truthy(next);
      data := if request.append then data + results else results;
      offset := request.offset + PageSize;
      answered := answered + {i};
    }

    /** `onFinally` of request `i`, run once: clear the flags and re-arm the guard, whichever request it was. */
    method OnFinally(i: nat)
      requires Valid() && i in pending
      modifies this`initialLoading, this`loadingMore, this`refreshing, this`canLoadMore, this`pending
      ensures Valid() && pending == old(pending) - {i}
      ensures !initialLoading && !loadingMore && !refreshing && canLoadMore
    {
      initialLoading, loadingMore, refreshing := false, false, false;
      canLoadMore := true;
      pending := pending - {i};
    }

    /**
     * The mount effect, `fetchPage` of offset 0 in replace mode. It runs on
     * mount and again whenever `fetchPage` is rebuilt: for a new search text
     * (`SetSearchQuery`), or when `api` or `t` changes (a language switch),
     * which a caller models by calling this method directly.
     */
    method RunMountEffect()
      requires Valid()
      modifies this`initialLoading, this`loadingMore, this`issued, this`pending
      ensures Valid() && initialLoading && loadingMore == old(loadingMore)
      ensures Searching() ==> issued == old(issued) && pending == old(pending)
      ensures !Searching() ==>
                issued == old(issued) + [PageRequest(0, false)] && pending == old(pending) + {|old(issued)|}
    {
      FetchPage(0, false);
    }

    /**
     * A new search text. `fetchPage` depends on the text, so the mount
     * effect runs again: it raises `initialLoading` and, when the trimmed
     * text is empty, refetches offset 0 in place of the list.
     */
    method SetSearchQuery(text: string)
      requires Valid()
      modifies this
      ensures Valid() && searchQuery == text && answered == old(answered)
      ensures text == old(searchQuery) ==> State() == old(State())
      ensures text != old(searchQuery) ==>
                && initialLoading
                && data == old(data) && offset == old(offset) && hasNext == old(hasNext)
                && loadingMore == old(loadingMore) && refreshing == old(refreshing)
                && canLoadMore == old(canLoadMore)
                && issued == (if Trim(text) != [] then old(issued) else old(issued) + [PageRequest(0, false)])
                && pending == if Trim(text) != [] then old(pending) else old(pending) + {|old(issued)|}
    {
      if text == searchQuery {
        return;
      }
      searchQuery := text;
      RunMountEffect();
    }

    /** `onRefresh`: blocked while an initial or append load runs; otherwise refetch offset 0. */
    method OnRefresh()
      requires Valid()
      modifies this
      ensures Valid() && searchQuery == old(searchQuery) && answered == old(answered)
      ensures old(initialLoading) || old(loadingMore) ==> State() == old(State())
      ensures !old(initialLoading) && !old(loadingMore) ==>
                && refreshing && initialLoading && !loadingMore
                && data == old(data) && offset == old(offset) && hasNext == old(hasNext)
                && canLoadMore == old(canLoadMore)
                && issued == (if Searching() then old(issued) else old(issued) + [PageRequest(0, false)])
                && pending == if Searching() then old(pending) else old(pending) + {|old(issued)|}
    {
      if initialLoading || loadingMore {
        return;
      }
      refreshing := true;
      FetchPage(0, false);
    }

    /** `loadMore`: unless blocked, disarm the guard and append the page at `offset`. */
    method LoadMore()
      requires Valid()
      modifies this
      ensures Valid() && searchQuery == old(searchQuery) && answered == old(answered)
      ensures old(LoadMoreBlocked()) ==> State() == old(State())
      ensures !old(LoadMoreBlocked()) ==>
                && !canLoadMore && loadingMore
                && initialLoading == old(initialLoading) && refreshing == old(refreshing)
                && data == old(data) && offset == old(offset) && hasNext == old(hasNext)
                && issued == (if Searching() then old(issued) else old(issued) + [PageRequest(old(offset), true)])
                && pending == if Searching() then old(pending) else old(pending) + {|old(issued)|}
    {
      if !hasNext || initialLoading || loadingMore || refreshing {
        return;
      }
      if !canLoadMore {
        return;
      }
      canLoadMore := false;
      FetchPage(offset, true);
    }

    /** `onMomentumScrollBegin`: re-arm the load-more guard. */
    method OnMomentumScrollBegin()
      modifies this`canLoadMore
      ensures canLoadMore
    {
      canLoadMore := true;
    }
  }

  /**
   * Without a request id a late response is applied. When the finally of an
   * older request unblocks a refresh while an append is in flight, the
   * append's response arriving after the refresh's is concatenated to the
   * refreshed list.
   */
  method LateAppendAfterRefresh(c: PokemonController, older: nat, refreshed: seq<PokemonRef>, late: seq<PokemonRef>)
    requires c.Valid() && older in c.pending
    requires !c.Searching() && !c.LoadMoreBlocked()
    modifies c
    ensures c.data == refreshed + late && c.offset == old(c.offset) + PageSize
  {
    c.LoadMore();
    var appendIndex := |c.issued| - 1;
    c.OnFinally(older);
    c.OnRefresh();
    var refreshIndex := |c.issued| - 1;
    c.OnSuccess(refreshIndex, refreshed, Some("next"));
    c.OnFinally(refreshIndex);
    c.OnSuccess(appendIndex, late, Some("next"));
    c.OnFinally(appendIndex);
  }

  /**
   * Typing a search while idle leaves `initialLoading` raised with no
   * request to clear it, so `loadMore` and `onRefresh` stay blocked until an
   * older request's `onFinally` arrives.
   */
  method SearchLeavesLoadingRaised(c: PokemonController, text: string)
    requires c.Valid() && Trim(text) != [] && text != c.searchQuery
    modifies c
    ensures c.initialLoading && c.issued == old(c.issued)
    ensures c.LoadMoreBlocked()
  {
    c.SetSearchQuery(text);
    c.LoadMore();
    c.OnRefresh();
  }
}
