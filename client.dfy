// The API client's decision logic: the request interceptor that attaches the
// bearer token, and `RequestWrapper.handle`, which turns the outcome of a
// request into an ordered list of effects (snackbars and the caller's
// callbacks). Promises and the snackbar store are not modelled: the list
// is the order in which `handle` performs the effects.

module ApiClient {
  import opened JsCore

  const AuthorizationHeader: string := "Authorization"
  const NetworkErrorKey: string := "snackBarMessages.networkError"

  /** The headers of an outgoing request, which the interceptor updates in place. */
  class RequestConfig {
    var headers: map<string, string>

    constructor (headers: map<string, string>)
      ensures this.headers == headers
    {
      this.headers := headers;
    }

    /**
     * The request interceptor: with a truthy access token the headers gain
     * `Authorization: Bearer <token>`; otherwise the config is left as it was.
     */
    method Intercept(accessToken: Option<string>)
      modifies this
      ensures Truthy(accessToken) ==>
                headers == old(headers)[AuthorizationHeader := "Bearer " + accessToken.value]
      ensures !Truthy(accessToken) ==> headers == old(headers)
      ensures forall h :: h in old(headers) && h != AuthorizationHeader ==> h in headers && headers[h] == old(headers)[h]
    {
      if Truthy(accessToken) {
        headers := headers[AuthorizationHeader := "Bearer " + accessToken.value];
      }
    }
  }

  /** How the request settled: with a response, with an HTTP error status, or with no response at all. */
  datatype Outcome =
    | Success
    | HttpError(localKey: Option<string>)   // `err.response.data.localKey`
    | NoResponse

  /** `HandleOptions`: which callbacks are given, and the optional messages. */
  datatype HandleOptions = HandleOptions(
    hasOnSuccess: bool,
    hasOnError: bool,
    successMessage: Option<string>,
    errorMessage: Option<string>,
    hasOnFinally: bool
  )

  datatype Message = Literal(text: string) | Translated(key: string)

  datatype Severity = SuccessSeverity | Danger

  datatype Effect =
    | Snackbar(message: Message, severity: Severity)
    | CallOnSuccess
    | CallOnError
    | CallOnFinally

  function CountSnackbars(effects: seq<Effect>): nat {
    if effects == [] then 0
    else (if effects[0].Snackbar? then 1 else 0) + CountSnackbars(effects[1..])
  }

  lemma {:induction false} CountSnackbarsAppend(a: seq<Effect>, b: seq<Effect>)
    ensures CountSnackbars(a + b) == CountSnackbars(a) + CountSnackbars(b)
  {
    if a != [] {
      assert (a + b)[0] == a[0] && (a + b)[1..] == a[1..] + b;
      CountSnackbarsAppend(a[1..], b);
    } else {
      assert a + b == b;
    }
  }

  lemma CountSnackbarsSingle(e: Effect)
    ensures CountSnackbars([e]) == if e.Snackbar? then 1 else 0
  {
    assert [e][1..] == [];
  }

  /**
   * When a request shows a snackbar: on success only with a success message;
   * on an HTTP error with an error message or a local key; always without a
   * response.
   */
  predicate ShowsSnackbar(outcome: Outcome, opts: HandleOptions) {
    match outcome
    case Success => Truthy(opts.successMessage)
    case HttpError(localKey) => Truthy(opts.errorMessage) || Truthy(localKey)
    case NoResponse => true
  }

  /** The effects of the outcome before `finally`. */
  function Settle(outcome: Outcome, opts: HandleOptions): (effects: seq<Effect>)
    ensures CallOnFinally !in effects
    ensures CountSnackbars(effects) == if ShowsSnackbar(outcome, opts) then 1 else 0
  {
    match outcome
    case Success =>
      var shown := if Truthy(opts.successMessage) then [Snackbar(Literal(opts.successMessage.value), SuccessSeverity)] else [];
      var called := if opts.hasOnSuccess then [CallOnSuccess] else [];
      assert CountSnackbars(shown + called) == CountSnackbars(shown) by {
        CountSnackbarsAppend(shown, called);
        CountSnackbarsSingle(CallOnSuccess);
      }
      shown + called
    case HttpError(localKey) =>
      if Truthy(opts.errorMessage) then [Snackbar(Literal(opts.errorMessage.value), Danger)]
      else if Truthy(localKey) then
        var shown := [Snackbar(Translated(localKey.value), Danger)] + (if opts.hasOnError then [CallOnError] else []);
        assert CountSnackbars(shown) == 1 by {
          var rest := if opts.hasOnError then [CallOnError] else [];
          assert shown[1..] == rest;
          CountSnackbarsSingle(CallOnError);
        }
        shown
      else []
    case NoResponse =>
      [Snackbar(Translated(NetworkErrorKey), Danger)]
  }

  /** `handle(opts)`: the effects in the order they happen, `onFinally` last. */
  function Handle(outcome: Outcome, opts: HandleOptions): (effects: seq<Effect>)
    ensures CountSnackbars(effects) == if ShowsSnackbar(outcome, opts) then 1 else 0
    ensures opts.hasOnFinally ==> effects != [] && effects[|effects| - 1] == CallOnFinally
                                  && CallOnFinally !in effects[..|effects| - 1]
    ensures !opts.hasOnFinally ==> CallOnFinally !in effects
    ensures CallOnSuccess in effects <==> outcome.Success? && opts.hasOnSuccess
    ensures CallOnError in effects <==>
              && outcome.HttpError? && !Truthy(opts.errorMessage)
              && Truthy(outcome.localKey) && opts.hasOnError
  {
    var settled := Settle(outcome, opts);
    var effects := settled + (if opts.hasOnFinally then [CallOnFinally] else []);
    CountSnackbarsAppend(settled, if opts.hasOnFinally then [CallOnFinally] else []);
    assert opts.hasOnFinally ==> effects[..|effects| - 1] == settled;
    effects
  }

  /** On success the success snackbar, when there is one, comes before `onSuccess`. */
  lemma SuccessSnackbarFirst(opts: HandleOptions)
    requires Truthy(opts.successMessage) && opts.hasOnSuccess
    ensures Handle(Success, opts)[..2]
              == [Snackbar(Literal(opts.successMessage.value), SuccessSeverity), CallOnSuccess]
  {
  }

  /** An HTTP error with an error message shows exactly that message and does not call `onError`. */
  lemma ErrorMessageWins(localKey: Option<string>, opts: HandleOptions)
    requires Truthy(opts.errorMessage)
    ensures var effects := Handle(HttpError(localKey), opts);
            && effects[0] == Snackbar(Literal(opts.errorMessage.value), Danger)
            && CallOnError !in effects
  {
  }

  /** Without an error message, a local key is translated and shown before `onError`; with neither, nothing is shown. */
  lemma LocalKeyFallback(localKey: Option<string>, opts: HandleOptions)
    requires !Truthy(opts.errorMessage)
    ensures Truthy(localKey) ==>
              Handle(HttpError(localKey), opts)[0] == Snackbar(Translated(localKey.value), Danger)
              && (opts.hasOnError ==> Handle(HttpError(localKey), opts)[1] == CallOnError)
    ensures !Truthy(localKey) ==> CountSnackbars(Handle(HttpError(localKey), opts)) == 0
  {
  }

  /** Without a response the network-error snackbar is shown, whatever the options say. */
  lemma NoResponseShowsNetworkError(opts: HandleOptions)
    ensures var effects := Handle(NoResponse, opts);
            && effects[0] == Snackbar(Translated(NetworkErrorKey), Danger)
            && CallOnError !in effects && CallOnSuccess !in effects
  {
  }

  /**
   * The options both feed screens pass: an error message, `onSuccess` and
   * `onFinally`, no `onError`. For them a request ends either with
   * `onSuccess` then `onFinally`, or with one danger snackbar then
   * `onFinally`: the controllers' OnSuccess and OnFinally events.
   */
  lemma FeedScreenProtocol(errorMessage: string, outcome: Outcome)
    requires errorMessage != ""
    ensures var opts := HandleOptions(true, false, None, Some(errorMessage), true);
            var effects := Handle(outcome, opts);
            if outcome.Success? then effects == [CallOnSuccess, CallOnFinally]
            else |effects| == 2 && effects[0].Snackbar? && effects[0].severity == Danger
                 && effects[1] == CallOnFinally
  {
  }
}
