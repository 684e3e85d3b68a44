/** The HTTP handlers of the OAuth flow: the callback that accepts a
    credential only when the authorization-code exchange returned all of
    access token, refresh token and expiry; the status probe; and logout.
    The callback answers a web browser with an HTML page and the mobile app
    (whose HTTP client announces itself as okhttp) with a deep-link redirect. */
module AuthController {
  import opened Wrappers
  import opened JsStrings
  import opened TokenManager

  /** `req.query.code`: missing, one string, or some other shape (an array or an object). */
  datatype QueryValue = Absent | Text(text: string) | NotText

  /** What the authorization-code exchange (section 4.1.3 of RFC 6749)
      answered as its `tokens`, or that the call threw. */
  datatype ExchangeOutcome =
    | ExchangeThrew
    | Exchanged(accessToken: Option<string>, refreshToken: Option<string>, expiryDate: Option<int>)

  /** The HTML pages the callback sends to a web browser. */
  datatype Page = MissingCodePage | TokenErrorPage | SetupCompletePage | AuthFailedPage

  datatype Response = Html(status: int, page: Page) | Redirect(url: string)

  const REDIRECT_SUCCESS := "familycalendar://oauth-callback?success=true"
  const REDIRECT_MISSING_CODE := "familycalendar://oauth-callback?success=false&error=missing_code"
  const REDIRECT_TOKEN_ERROR := "familycalendar://oauth-callback?success=false&error=token_error"
  const REDIRECT_AUTH_FAILED := "familycalendar://oauth-callback?success=false&error=auth_failed"

  /** The request came from a web browser unless its lower-cased user agent mentions okhttp. */
  predicate IsWebBrowser(userAgent: Option<string>)
    // a request without a user agent, or with one too short to hold "okhttp", gets the pages
    ensures userAgent.None? || |userAgent.value| < 6 ==> IsWebBrowser(userAgent)
  {
    !Includes(ToLower(userAgent.GetOr("")), "okhttp")
  }

  /** The code is usable: a non-empty string. */
  predicate HasCode(code: QueryValue) {
    code.Text? && code.text != ""
  }

  /** The exchange returned a truthy access token, refresh token and expiry. */
  predicate Complete(exchange: ExchangeOutcome) {
    exchange.Exchanged? && Truthy(exchange.accessToken) && Truthy(exchange.refreshToken) && HasExpiry(exchange.expiryDate)
  }

  /** The responses that report a completed sign-in. */
  predicate IsSuccess(response: Response) {
    response == Html(200, SetupCompletePage) || response == Redirect(REDIRECT_SUCCESS)
  }

  /** A failure response: a page with `status` for a browser, a redirect carrying `url` for the app. */
  function Reject(web: bool, status: int, page: Page, url: string): Response {
    if web then Html(status, page) else Redirect(url)
  }

  /** The response of the callback, the credential slot afterwards, and which
      of the exchange and the store were called. */
  datatype Callback = Callback(response: Response, slot: Option<StoredToken>, nextId: int,
                               exchangeAttempted: bool, storeAttempted: bool)

  /** handleGoogleCallback over the credential slot `slot` (whose id sequence
      stands at `nextId`); `exchange` and `db` are what the exchange and the
      two statements of storeToken do if they are called. */
  function HandleCallback(slot: Option<StoredToken>, nextId: int, code: QueryValue, userAgent: Option<string>,
                          exchange: ExchangeOutcome, db: StoreOutcome): (c: Callback)
    // the code is exchanged only when it is a non-empty string; otherwise missing_code
    ensures c.exchangeAttempted <==> HasCode(code)
    ensures !HasCode(code) ==>
      c.response == Reject(IsWebBrowser(userAgent), 400, MissingCodePage, REDIRECT_MISSING_CODE)
    // the credential is stored only when all three fields came back
    ensures c.storeAttempted <==> HasCode(code) && Complete(exchange)
    ensures !c.storeAttempted ==> c.slot == slot && c.nextId == nextId
    ensures HasCode(code) && exchange.Exchanged? && !Complete(exchange) ==>
      c.response == Reject(IsWebBrowser(userAgent), 400, TokenErrorPage, REDIRECT_TOKEN_ERROR)
    // an exchange or a store that throws: 500, or auth_failed
    ensures HasCode(code) && exchange.ExchangeThrew? ==>
      c.response == Reject(IsWebBrowser(userAgent), 500, AuthFailedPage, REDIRECT_AUTH_FAILED)
    ensures c.storeAttempted && db != Written ==>
      c.response == Reject(IsWebBrowser(userAgent), 500, AuthFailedPage, REDIRECT_AUTH_FAILED)
    // the stored row is the exchanged credential, expiring at expiry_date
    ensures c.storeAttempted && db == Written ==>
      c.slot == Some(StoredToken(nextId, exchange.accessToken.value, exchange.refreshToken.value, exchange.expiryDate.value))
    ensures c.storeAttempted && db == Written ==> c.nextId == nextId + 1
    // a failed DELETE keeps the old row; a failed INSERT leaves none
    ensures c.storeAttempted && db == DeleteThrew ==> c.slot == slot && c.nextId == nextId
    ensures c.storeAttempted && db == InsertThrew ==> c.slot == None && c.nextId == nextId
    // success is reported exactly when the credential was written
    ensures IsSuccess(c.response) <==> c.storeAttempted && db == Written
    ensures IsSuccess(c.response) ==> (c.response.Html? <==> IsWebBrowser(userAgent))
    ensures WellFormed(slot) ==> WellFormed(c.slot)
  {
    var web := IsWebBrowser(userAgent);
    if !HasCode(code) then
      Callback(Reject(web, 400, MissingCodePage, REDIRECT_MISSING_CODE), slot, nextId, false, false)
    else match exchange
      case ExchangeThrew =>
        Callback(Reject(web, 500, AuthFailedPage, REDIRECT_AUTH_FAILED), slot, nextId, true, false)
      case Exchanged(access, refresh, expiry) =>
        if !Truthy(access) || !Truthy(refresh) || !HasExpiry(expiry) then
          Callback(Reject(web, 400, TokenErrorPage, REDIRECT_TOKEN_ERROR), slot, nextId, true, false)
        else match db
          case Written =>
            var success := if web then Html(200, SetupCompletePage) else Redirect(REDIRECT_SUCCESS);
            Callback(success, Some(StoredToken(nextId, access.value, refresh.value, expiry.value)), nextId + 1, true, true)
          case DeleteThrew =>
            Callback(Reject(web, 500, AuthFailedPage, REDIRECT_AUTH_FAILED), slot, nextId, true, true)
          case InsertThrew =>
            Callback(Reject(web, 500, AuthFailedPage, REDIRECT_AUTH_FAILED), None, nextId, true, true)
  }

  /** handleGoogleCallback. */
  method HandleGoogleCallback(store: CredentialStore, code: QueryValue, userAgent: Option<string>,
                              exchange: ExchangeOutcome, db: StoreOutcome)
    returns (response: Response, exchangeAttempted: bool, storeAttempted: bool)
    modifies store
    ensures Callback(response, store.slot, store.nextId, exchangeAttempted, storeAttempted)
      == HandleCallback(old(store.slot), old(store.nextId), code, userAgent, exchange, db)
  {
    var web := IsWebBrowser(userAgent);
    exchangeAttempted, storeAttempted := false, false;
    if !code.Text? || code.text == "" {
      response := Reject(web, 400, MissingCodePage, REDIRECT_MISSING_CODE);
      return;
    }
    exchangeAttempted := true;
    if exchange.ExchangeThrew? {
      response := Reject(web, 500, AuthFailedPage, REDIRECT_AUTH_FAILED);
      return;
    }
    var tokens := exchange;
    if !Truthy(tokens.accessToken) || !Truthy(tokens.refreshToken) || !HasExpiry(tokens.expiryDate) {
      response := Reject(web, 400, TokenErrorPage, REDIRECT_TOKEN_ERROR);
      return;
    }
    storeAttempted := true;
    var stored := store.StoreToken(tokens.accessToken.value, tokens.refreshToken.value, tokens.expiryDate.value, db);
    if stored.Err? {
      response := Reject(web, 500, AuthFailedPage, REDIRECT_AUTH_FAILED);
      return;
    }
    response := if web then Html(200, SetupCompletePage) else Redirect(REDIRECT_SUCCESS);
  }

  /** getAuthStatus: `{authenticated}` is what isAuthenticated answers, and a
      refresh it triggers is persisted. */
  method GetAuthStatus(store: CredentialStore, now: int, outcome: RefreshOutcome) returns (authenticated: bool)
    modifies store
    ensures authenticated == Authenticated(old(store.slot), now, outcome)
    ensures store.slot == ValidToken(old(store.slot), now, outcome).slot && store.nextId == old(store.nextId)
  {
    authenticated := store.IsAuthenticated(now, outcome);
  }

  /** logout: always empties the credential slot. */
  method Logout(store: CredentialStore) returns (message: string)
    modifies store
    ensures store.slot == None && store.nextId == old(store.nextId)
    ensures message == "Logged out successfully"
  {
    store.ClearTokens();
    message := "Logged out successfully";
  }

  /** The app's HTTP client is recognised whatever the case of "okhttp" in its user agent. */
  lemma OkHttpAnyCase(prefix: string, mid: string, suffix: string)
    requires ToLower(mid) == "okhttp"
    ensures !IsWebBrowser(Some(prefix + mid + suffix))
  {
    LowerAppend(prefix, mid);
    LowerAppend(prefix + mid, suffix);
    var lower := ToLower(prefix + mid + suffix);
    assert lower[|prefix|..][..6] == "okhttp";
  }
}
