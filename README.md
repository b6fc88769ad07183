# Paged feeds of the News & Pokémon app, in Dafny

This project models the logic of a React Native app that shows two
paginated feeds: NewsAPI articles and the PokeAPI Pokémon list. The model
covers:

- the two feed controllers;
- the small pure helpers around them;
- the decision logic of the API client.

Each part is stated in Dafny and its properties are proved.

- `news_screen.dfy` (module `NewsScreen`) models the news feed.
  - Query normalisation: trimming, and a minimum of two UTF-16 units.
  - `hasNext` and the article key.
  - `mergeUnique`: a method with loops, proved equal to the specification function `Merged`.
  - The controller class `NewsController`. Its fields are the screen's state and refs. It has one method per handler.

  A response is not a promise but two explicit events, `OnSuccess(rid, …)` and `OnFinally(rid)`. As in the promise chain of `handle`, a request delivers at most one success, and then exactly one finally. The events of different requests may come in any order. This turns every race between responses into a sequential trace. The map `requests` keeps what each request's callbacks captured. The ghost sets `pending` and `answered` record which finallies and successes are still to come.
- `pokemon_screen.dfy` (module `PokemonScreen`) models the Pokémon list.
  - The `pokemons` projection into cards.
  - The client-side `visiblePokemons` title filter.
  - The class `PokemonController`. It has offset paging and a search guard, and no request id. Its requests are kept in `issued` and named by index. Their events follow the same rule as the news feed's.
- `get_pokemon_id.dfy` (module `PokemonId`) models the anchored parser `/\/pokemon\/(\d+)\/?$/` of `getPokemonIdFromUrl`. It is proved equivalent to a declarative description of what the pattern matches.
- `build_pokemon_image_url.dfy` (module `PokemonImage`) models the artwork URL builder.
- `time_ago.dfy` (module `TimeAgo`) models the integer core of `timeAgo`: the "just now" threshold, the unit from the `DIVISORS` table, the count and the past/future sign.
- `pokemon_pretty_stat.dfy` (module `PrettyStat`) models the stat-label table and its first-hyphen fallback.
- `client.dfy` (module `ApiClient`) models two things:
  - The request interceptor's bearer rule, as a class updated in place.
  - `RequestWrapper.handle`, as a function from an outcome and the options to the ordered list of effects it performs.
- `js_core.dfy` (module `JsCore`) and `decimal.dfy` (module `Decimal`) hold the pieces of JavaScript semantics the app relies on:
  - truthiness;
  - `trim`, with the ECMAScript whitespace set;
  - `length` in UTF-16 units;
  - `toLowerCase`;
  - `includes` and the first-occurrence `replace`;
  - `EndsWith`, which the app does not call: it states the `$` anchor of the id pattern;
  - decimal text of numbers.

Three details of the code shape what the feeds show. The model keeps each as written:

- The news feed de-duplicates only on append. A page-1 or refresh response becomes the list as it comes (src/pages/NewsScreen.tsx:102).
- The article key is the `url` whenever it is not null or undefined, even when it is the empty string (src/pages/NewsScreen.tsx:61 and 64).
- The Pokémon feed does not de-duplicate on append (src/pages/PokemonScreen.tsx:50).

## Model

| member | source | states |
|---|---|---|
| NewsScreen.EffectiveQuery | src/pages/NewsScreen.tsx:42-46 | `q` is absent exactly when the trimmed query is empty or short; otherwise it is the trimmed query, at least two UTF-16 units long |
| NewsScreen.ShortQueryIsOneCharacter | src/pages/NewsScreen.tsx:42-44 | `isShortQuery` holds exactly when the trimmed query is one character of the Basic Multilingual Plane |
| NewsScreen.Key | src/pages/NewsScreen.tsx:61-64 | the key is the url whenever there is one, the empty url included; otherwise it starts with the title followed by "-" |
| NewsScreen.UrlAndFallbackKeysCollide | src/pages/NewsScreen.tsx:61-64 | the url and the `title-publishedAt` fallback share one key space: an article with url "t-p" has the same key as one with no url, title t and date p |
| NewsScreen.NewItemsFacts | src/pages/NewsScreen.tsx:63-68 | the filter with a `seen` set keeps only items of `next` whose key was not seen, with pairwise distinct keys, and together with `seen` it covers every key of `next` |
| NewsScreen.AppendedAreFirstOccurrences | src/pages/NewsScreen.tsx:59-70 | what `mergeUnique` appends is exactly the items of `next` whose key is neither in `prev` nor on an earlier item of `next`, in order (independent definition from the end) |
| NewsScreen.MergedProperties | src/pages/NewsScreen.tsx:59-70 | the merge keeps `prev` as its prefix, its keys are those of `prev` and `next` together, and its keys are pairwise distinct whenever those of `prev` are |
| NewsScreen.MergeExample | src/pages/NewsScreen.tsx:59-70 | [a, b] merged with [b, c] is [a, b, c] for distinct keys |
| NewsScreen.MergeUnique | src/pages/NewsScreen.tsx:59-70 | the seen-set loops compute exactly `Merged(prev, next)` |
| NewsScreen.NewsController.constructor | src/pages/NewsScreen.tsx:30-52 | mounting gives an empty list on page 1 with unknown total and the guard armed, and the empty query's effect issues request 1 for page 1 in replace mode, pending |
| NewsScreen.NewsController.FetchPage | src/pages/NewsScreen.tsx:82-85 | raises `loadingMore` for append and `initialLoading` for replace; increments the request id, a fresh id that records the page, mode and query, and whose callbacks are pending |
| NewsScreen.NewsController.OnSuccess | src/pages/NewsScreen.tsx:96-105 | runs at most once for a pending request; a response whose id is not the latest changes none of `data`, `page`, `totalResults`; the latest one sets the total and the page and either merges with `mergeUnique` or replaces the list as it comes |
| NewsScreen.NewsController.OnFinally | src/pages/NewsScreen.tsx:107-112 | runs once per request, after its success if any; whichever request it belongs to, current, stale or failed, it clears all three loading flags and re-arms the guard, and touches nothing else |
| NewsScreen.NewsController.RunQueryEffect | src/pages/NewsScreen.tsx:118-135 | a short query bumps the id without a request, clears the flags, re-arms the guard, and leaves an empty list on page 1 with total 0 (so no next page); any other query empties the list, forgets the total and requests page 1 with `q`, leaving the other flags, the guard and the page as they were; it is also what a change of `api` or `t` (a language switch) runs |
| NewsScreen.NewsController.ClearForShortQuery | src/pages/NewsScreen.tsx:119-130 | the short-query branch: a new id with no request, all flags cleared, the guard re-armed, an empty list on page 1 with total 0 |
| NewsScreen.NewsController.ReloadFirstPage | src/pages/NewsScreen.tsx:133-135 | the other branch: the total forgotten, the list emptied, and page 1 requested in replace mode with `q` |
| NewsScreen.NewsController.SetDebouncedQuery | src/pages/NewsScreen.tsx:118-136 | for a change of the debounced text, the effect runs exactly when `isShortQuery` or `q` changes, and otherwise nothing but the query changes; when it runs for a query that is not short, the page, `loadingMore`, `refreshing` and the guard stay as they were |
| NewsScreen.NewsController.LoadMore | src/pages/NewsScreen.tsx:138-153 | a no-op for a short query, no next page, any loading flag or a disarmed guard; otherwise disarms the guard and requests `page + 1` in append mode with `q` |
| NewsScreen.NewsController.OnRefresh | src/pages/NewsScreen.tsx:155-164 | a short query only clears `refreshing`, leaving the other flags, the guard, the total and the requests as they were; a no-op during an initial or append load; otherwise sets `refreshing`, forgets the total and requests page 1 in replace mode; the list is never cleared |
| NewsScreen.NewsController.OnMomentumScrollBegin | src/pages/NewsScreen.tsx:200-202 | re-arms the load-more guard |
| NewsScreen.PagingFollowsTotal | src/pages/NewsScreen.tsx:54-57 | once the list holds at least the reported total, `hasNext` is false and `loadMore` is a no-op; with the total unknown, or not yet reached, there is a next page |
| NewsScreen.LastPageEndsPaging | src/pages/NewsScreen.tsx:54-57 | after the latest response leaves a list holding the reported total, there is no next page and `loadMore` issues no request |
| NewsScreen.EarlierRequestsAreStale | src/pages/NewsScreen.tsx:85-97 | every issued request other than the latest has a smaller id |
| NewsScreen.StaleResponseIgnored | src/pages/NewsScreen.tsx:96-97 | the initial load's response arriving after the search's response leaves the search result shown |
| NewsScreen.RepeatedLoadMoreIssuesOneRequest | src/pages/NewsScreen.tsx:138-143 | any number of end-reached events before a response issue exactly one request, for the next page in append mode |
| NewsScreen.StaleFinallyReleasesRefresh | src/pages/NewsScreen.tsx:107-112 | when a request older than a refresh is still pending, its finally clears the refresh's flags, so `loadMore` issues a request and the refresh, still pending, becomes stale |
| NewsScreen.ShortQueryStopsPaging | src/pages/NewsScreen.tsx:119-130 | switching to a short query empties the list, ends paging and issues no request |
| PokemonScreen.Description | src/pages/PokemonScreen.tsx:89 | every description starts with "Pokédex #" |
| PokemonScreen.DescriptionCarriesId | src/pages/PokemonScreen.tsx:89 | after "Pokédex #" the description holds the id's decimal digits, whose value is the id, or the dash when the id is null |
| PokemonScreen.DescriptionInjective | src/pages/PokemonScreen.tsx:89 | distinct ids, null included, give distinct descriptions |
| PokemonScreen.CardOf | src/pages/PokemonScreen.tsx:85-92 | a card's id is the id parsed from the entry's URL and its title the capitalised name; it has artwork exactly when the id is present and non-zero; its description is the one of its id |
| PokemonScreen.Project | src/pages/PokemonScreen.tsx:84-94 | one card per list entry, in order |
| PokemonScreen.ProjectAppend | src/pages/PokemonScreen.tsx:84-94 | projecting two pages is projecting each, concatenated |
| PokemonScreen.CardImageFollowsId | src/pages/PokemonScreen.tsx:85-92 | a card's artwork is the URL built from its id's digits; an id of 0 shows "Pokédex #0" and no artwork |
| PokemonScreen.SearchTerm | src/pages/PokemonScreen.tsx:98 | the term is the trimmed query with ASCII A-Z lower-cased and every other character kept, and it is empty exactly when the query is all whitespace |
| PokemonScreen.FilterByTitle | src/pages/PokemonScreen.tsx:100 | the filter keeps exactly the cards whose lower-cased title contains the term, and no more cards than given |
| PokemonScreen.FilterByTitleAppend | src/pages/PokemonScreen.tsx:100 | filtering keeps order: the filter of a concatenation is the concatenation of the filters |
| PokemonScreen.FilterByTitleIdempotent | src/pages/PokemonScreen.tsx:100 | filtering twice with one term is filtering once |
| PokemonScreen.VisiblePokemons | src/pages/PokemonScreen.tsx:97-101 | an all-blank query shows the whole list; otherwise exactly the cards whose lower-cased title contains the lower-cased trimmed query |
| PokemonScreen.VisibleIdempotent | src/pages/PokemonScreen.tsx:97-101 | the visible list is unchanged by filtering it again |
| PokemonScreen.VisibleAppend | src/pages/PokemonScreen.tsx:96-101 | the filter sees only loaded cards: the visible part of two pages is that of each, in order |
| PokemonScreen.PokemonController.constructor | src/pages/PokemonScreen.tsx:23-68 | mounting gives an empty list at offset 0 with a next page and the guard armed, and issues the request for offset 0 in replace mode, pending |
| PokemonScreen.PokemonController.FetchPage | src/pages/PokemonScreen.tsx:37-44 | raises the loading flag of the mode first; in search mode issues nothing and leaves the flag raised, otherwise issues the request, pending |
| PokemonScreen.PokemonController.OnSuccess | src/pages/PokemonScreen.tsx:45-52 | runs at most once for a pending request, late or not: `hasNext` is the truthiness of `next`, the results are concatenated (append) or replace the list, and the offset moves past the requested page by 20 |
| PokemonScreen.PokemonController.OnFinally | src/pages/PokemonScreen.tsx:54-59 | runs once per request, after its success if any, and whichever request it belongs to clears all three loading flags and re-arms the guard |
| PokemonScreen.PokemonController.RunMountEffect | src/pages/PokemonScreen.tsx:66-68 | the mount effect, re-run on a new search text or a change of `api` or `t` (a language switch): `initialLoading` raised, and offset 0 requested in replace mode unless a search is active |
| PokemonScreen.PokemonController.SetSearchQuery | src/pages/PokemonScreen.tsx:62-68 | a changed search text re-runs the mount effect: `initialLoading` is raised, and a request for offset 0 is issued only when the trimmed text is empty |
| PokemonScreen.PokemonController.OnRefresh | src/pages/PokemonScreen.tsx:70-75 | a no-op during an initial or append load; otherwise sets `refreshing` and fetches offset 0 in replace mode |
| PokemonScreen.PokemonController.LoadMore | src/pages/PokemonScreen.tsx:77-82 | a no-op without a next page, with a loading flag or a disarmed guard; otherwise disarms the guard and fetches the current offset in append mode |
| PokemonScreen.PokemonController.OnMomentumScrollBegin | src/pages/PokemonScreen.tsx:136-138 | re-arms the load-more guard |
| PokemonScreen.LateAppendAfterRefresh | src/pages/PokemonScreen.tsx:45-51 | when an older request's finally lets a refresh start while an append is pending, the append's response arriving after the refresh's is concatenated to the refreshed list |
| PokemonScreen.SearchLeavesLoadingRaised | src/pages/PokemonScreen.tsx:37-42 | typing a search while idle leaves `initialLoading` raised with no request issued, so `loadMore` stays blocked |
| PokemonId.Capture | src/lib/helpers/getPokemonId.ts:3 | a capture is a non-empty run of ASCII digits |
| PokemonId.CaptureSound | src/lib/helpers/getPokemonId.ts:3 | every capture is a match of the anchored pattern |
| PokemonId.CaptureOf | src/lib/helpers/getPokemonId.ts:3 | a URL ending in "/pokemon/", digits and at most one "/" captures those digits |
| PokemonId.CaptureComplete | src/lib/helpers/getPokemonId.ts:3 | every match of the pattern is the capture |
| PokemonId.PokemonIdFromUrl | src/lib/helpers/getPokemonId.ts:2-5 | a number comes back exactly when the URL ends in "/pokemon/", a non-empty digit run and an optional "/", and it is that run's value |
| PokemonId.LastSegmentWithOptionalSlash | src/lib/helpers/getPokemonId.ts:3-4 | anything before the last "/pokemon/<digits>" is ignored, and ".../25" and ".../25/" give the same id |
| PokemonId.DoubleSlashRejected | src/lib/helpers/getPokemonId.ts:3 | a URL ending in "//" gives null |
| PokemonId.LeadingZerosDropped | src/lib/helpers/getPokemonId.ts:4 | a leading zero does not change the id ("007" reads as 7) |
| PokemonImage.BuildPokemonImageUrl | src/lib/helpers/buildPokemonImageUrl.ts:2-7 | a URL exactly when the id is present and non-zero, starting with the official-artwork prefix and ending in ".png" |
| PokemonImage.ImageUrlCarriesId | src/lib/helpers/buildPokemonImageUrl.ts:6 | the text between prefix and ".png" is the id's decimal text |
| PokemonImage.ImageUrlInjective | src/lib/helpers/buildPokemonImageUrl.ts:6 | distinct non-zero ids give distinct URLs |
| TimeAgo.FindFirstFit | src/lib/helpers/timeAgo.ts:29 | the index found is the first entry whose length is at most the difference |
| TimeAgo.FormatArgument | src/lib/helpers/timeAgo.ts:42 | the signed count is negative exactly for a past difference, and its magnitude is the count |
| TimeAgo.TimeAgo | src/lib/helpers/timeAgo.ts:15-21 | undefined exactly for a missing, empty or unparsable timestamp; otherwise the bucketing of its difference |
| TimeAgo.Classify | src/lib/helpers/timeAgo.ts:23-42 | "just now" exactly when the difference is under 5 seconds either way; otherwise a count of at least one unit, in the past exactly when the difference is not negative |
| TimeAgo.ScopeIsSign | src/lib/helpers/timeAgo.ts:34-42 | from 5 seconds up the formatter gets `-count` for the past and `count` for the future |
| TimeAgo.UnitIsFirstFit | src/lib/helpers/timeAgo.ts:29-32 | from 5 seconds up the table always yields an entry, so the fallback is unused, and the unit is the first entry not longer than the difference |
| TimeAgo.CountIsWholeUnits | src/lib/helpers/timeAgo.ts:33 | the count is at least 1 and is the whole number of units in the difference |
| TimeAgo.CountBelowNextUnit | src/lib/helpers/timeAgo.ts:5-33 | below a year the difference is under the next larger unit, so the count stays within 12 months, 4 weeks, 6 days, 23 hours, 59 minutes or 59 seconds |
| PrettyStat.PrettyStat | src/lib/helpers/pokemonPrettyStat.ts:4-14 | the table label for the six known names; any other name is capitalised with only its first "-" turned into a space, and passes unchanged without one |
| PrettyStat.KnownStatLabels | src/lib/helpers/pokemonPrettyStat.ts:5-12 | "hp" is "HP", the special stats "Sp. Atk"/"Sp. Def", attack, defense and speed their translation keys |
| PrettyStat.OnlyFirstHyphenReplaced | src/lib/helpers/pokemonPrettyStat.ts:13 | the only character that differs is the first "-", which becomes a space |
| ApiClient.RequestConfig.Intercept | src/api/client.ts:11-20 | with a truthy token the headers gain `Authorization: Bearer <token>` and keep the others; otherwise the config is unchanged |
| ApiClient.Settle | src/api/client.ts:42-68 | the effects before `finally` never include `onFinally`, and show one snackbar exactly when the outcome calls for one, else none |
| ApiClient.Handle | src/api/client.ts:41-72 | one snackbar exactly for a success with a success message, an HTTP error with an error message or a local key, or no response, and none otherwise; `onFinally` last and once when given; `onSuccess` exactly on success; `onError` exactly for an HTTP error with a local key and no error message |
| ApiClient.SuccessSnackbarFirst | src/api/client.ts:43-48 | on success the success snackbar comes before `onSuccess` |
| ApiClient.ErrorMessageWins | src/api/client.ts:51-53 | an HTTP error with an error message shows that message and skips `onError` |
| ApiClient.LocalKeyFallback | src/api/client.ts:54-60 | without an error message a local key is shown translated before `onError`; with neither nothing is shown |
| ApiClient.NoResponseShowsNetworkError | src/api/client.ts:61-67 | no response always shows the network-error snackbar and calls neither `onSuccess` nor `onError` |
| ApiClient.FeedScreenProtocol | src/pages/PokemonScreen.tsx:44-60 | with the feed screens' options a request ends with `onSuccess` then `onFinally`, or with one danger snackbar then `onFinally` |
| JsCore.Trim | src/pages/NewsScreen.tsx:42 | `trim` leaves neither end on an ECMAScript whitespace character, and gives "" exactly for an all-whitespace string |
| JsCore.TrimIsInfix | src/pages/NewsScreen.tsx:42 | the trimmed text is a contiguous part of the input with only whitespace around it |
| JsCore.Utf16Length | src/pages/NewsScreen.tsx:43-44 | `length` counts one or two UTF-16 units per character, and is 0 only for "" |
| JsCore.Utf16LengthOne | src/pages/NewsScreen.tsx:43-44 | a length of 1 is exactly one character of the Basic Multilingual Plane |
| JsCore.AsciiLower | src/pages/PokemonScreen.tsx:98 | lower-cases ASCII A-Z only; every other character is kept, so the length is kept |
| JsCore.IncludesAt | src/pages/PokemonScreen.tsx:100 | `includes` holds when the term occurs at any position |
| JsCore.IncludesWitness | src/pages/PokemonScreen.tsx:100 | `includes` holds only when the term occurs at some position |
| JsCore.IndexOf | src/lib/helpers/pokemonPrettyStat.ts:13 | the index found holds the character and no earlier position does; none is found only when the character is absent |
| JsCore.ReplaceFirst | src/lib/helpers/pokemonPrettyStat.ts:13 | `replace` with a one-character pattern changes the first occurrence only, and nothing without one |
| Decimal.NatToDecimal | src/lib/helpers/buildPokemonImageUrl.ts:6 | the decimal text of a number is a non-empty digit run with no leading zero |
| Decimal.NatToDecimalRoundTrip | src/lib/helpers/getPokemonId.ts:4 | `Number` reads the decimal text of `n` back as `n` |
| Decimal.NatToDecimalInjective | src/lib/helpers/buildPokemonImageUrl.ts:6 | distinct numbers have distinct decimal texts |
| Decimal.LeadingZeroIgnored | src/lib/helpers/getPokemonId.ts:4 | `Number` ignores a leading zero |
| Decimal.IntToDecimal | src/lib/helpers/buildPokemonImageUrl.ts:6 | the text of an integer is non-empty and starts with "-" exactly for a negative one |
| Decimal.IntToDecimalInjective | src/lib/helpers/buildPokemonImageUrl.ts:6 | distinct integers have distinct texts |

## Left out

- The debounce timer of the news search is not modelled. The debounced query is an input to `NewsScreen.NewsController.SetDebouncedQuery`.
- A change of `api` or `t` (a language switch) is not an event of its own. It rebuilds `fetchPage`, which re-runs the effects: a trace models it as a direct call of `NewsScreen.NewsController.RunQueryEffect` or `PokemonScreen.PokemonController.RunMountEffect`.
- React's render and closure semantics are simplified. Each handler is one atomic step on the latest state. What a request's callbacks captured is kept in `requests` (news) or `issued` (Pokémon).
- The HTTP calls and their fixed parameters are not modelled. These are the language, `NEWS_SOURCES`, `NEWS_PAGE_SIZE` and the endpoints; their definitions are not part of this model. A failed request is only its `OnFinally` event. The snackbar it shows is covered by `ApiClient.Handle`.
- All JSX is left out: spinners, footers, `keyExtractor`, card components, navigation on press, and the auth, settings and detail screens.
- `capitalizeString` is not interpreted. Its definition is not part of this model. It is a function parameter of `PokemonScreen.Project`, and an uninterpreted label in `PrettyStat.PrettyStat`.
- `i18n.t` is not interpreted either. The translated stat labels are the uninterpreted `Translation` keys of `PrettyStat.PrettyStat`. A translated snackbar is the key in `Message.Translated` of `ApiClient.Handle`. The wording of `timeAgo` is left out (see the next line).
- TimeAgo.TimeAgo does not model parsing a date, reading the clock, rounding milliseconds, or the wording by `Intl.RelativeTimeFormat` or i18n. The caller supplies the rounded difference in seconds through `diffOf`.
- PokemonScreen.VisiblePokemons lower-cases ASCII letters only. JavaScript's `toLowerCase` also folds other scripts, and the model does not.
- JsCore.AsciiLower is not JavaScript's full `toLowerCase`. That one also folds letters outside ASCII ("É" to "é"), can lengthen the text ("İ" becomes "i" and a combining dot), and picks the final form of sigma by position.
- PokemonScreen.SearchTerm inherits that gap: a search for "FLABÉBÉ" finds "Flabébé" in the app but not in the model.
- PokemonId.PokemonIdFromUrl gives the exact value of the digit run. `Number` loses precision above 2^53.
- ApiClient.RequestConfig.Intercept compares header names exactly. `AxiosHeaders` compares them case-insensitively.
- The interceptor's rejection handler is not modelled.
- An exception thrown inside `onSuccess`, which falls into `catch`, is not modelled.
- The unused `showBackendMessage` option is not modelled.
- The `prettyStat` lookup treats stat names as ordinary strings. Prototype keys such as "toString" are not considered.
