/** The OAuth credential of the single household user: one auth_tokens row
    at most, replaced wholesale when the user signs in, refreshed in place
    (access token and expiry only) when it is about to expire, and deleted
    on sign-out. Clock readings and expiry times are milliseconds. */
module TokenManager {
  import opened Wrappers
  import opened JsStrings

  /** TOKEN_REFRESH_BUFFER_MS: refresh five minutes before expiry. */
  const TOKEN_REFRESH_BUFFER_MS: int := 5 * 60 * 1000

  /** The auth_tokens row. */
  datatype StoredToken = StoredToken(id: int, accessToken: string, refreshToken: string, expiresAt: int)

  /** What the refresh-token grant (section 6 of RFC 6749) answered as its
      `credentials`, or that the call threw. */
  datatype RefreshOutcome = RefreshThrew | Refreshed(accessToken: Option<string>, expiryDate: Option<int>)

  /** What the two SQL statements of storeToken did: both ran, the DELETE
      threw, or the DELETE ran and the INSERT threw. */
  datatype StoreOutcome = Written | DeleteThrew | InsertThrew

  /** `expiry_date` is truthy: present and not zero. */
  predicate HasExpiry(e: Option<int>)
    // an absent expiry and the zero timestamp both count as missing
    ensures HasExpiry(e) <==> e != None && e != Some(0)
  {
    e.Some? && e.value != 0
  }

  /** Both tokens of a stored row are non-empty, as the callback handler and
      the refresh only ever write truthy tokens. */
  predicate WellFormed(slot: Option<StoredToken>) {
    slot.Some? ==> slot.value.accessToken != "" && slot.value.refreshToken != ""
  }

  /** The token is refreshed when it expires within the buffer, strictly. */
  predicate NeedsRefresh(expiresAt: int, now: int)
    // exactly the buffer away is already too close; the buffer is five minutes
    ensures NeedsRefresh(expiresAt, now) <==> now > expiresAt - 5 * 60 * 1000
  {
    expiresAt - now < TOKEN_REFRESH_BUFFER_MS
  }

  /** refreshToken on the row `stored`: the token it returns or the error it
      throws, and the row afterwards. */
  function Refresh(stored: StoredToken, outcome: RefreshOutcome): (s: (Result<string>, StoredToken))
    // succeeds exactly when the grant answered with both an access token and an expiry
    ensures s.0.Ok? <==> outcome.Refreshed? && Truthy(outcome.accessToken) && HasExpiry(outcome.expiryDate)
    ensures s.0.Ok? ==>
      && s.0.value == outcome.accessToken.value
      && s.1 == stored.(accessToken := outcome.accessToken.value, expiresAt := outcome.expiryDate.value)
    // a grant that threw or came back incomplete leaves the row untouched
    ensures s.0.Err? ==> s.1 == stored
    ensures outcome.RefreshThrew? ==> s.0 == Err(RefreshCallFailed)
    // the id and the refresh token are never rewritten
    ensures s.1.id == stored.id && s.1.refreshToken == stored.refreshToken
  {
    match outcome
    case RefreshThrew => (Err(RefreshCallFailed), stored)
    case Refreshed(access, expiry) =>
      if !Truthy(access) || !HasExpiry(expiry) then (Err(RefreshIncomplete), stored)
      else (Ok(access.value), stored.(accessToken := access.value, expiresAt := expiry.value))
  }

  /** What getValidToken returns or throws, the credential slot afterwards,
      and whether it called the refresh grant. */
  datatype TokenStep = TokenStep(result: Result<string>, slot: Option<StoredToken>, refreshAttempted: bool)

  /** getValidToken at clock reading `now`; `outcome` is what the refresh grant
      answers if it is called. */
  function ValidToken(slot: Option<StoredToken>, now: int, outcome: RefreshOutcome): (s: TokenStep)
    // no credential: NotAuthenticated, and no refresh call
    ensures slot.None? ==> s == TokenStep(Err(NotAuthenticated), None, false)
    // exactly one refresh call when the stored token expires within the buffer
    ensures s.refreshAttempted <==> slot.Some? && NeedsRefresh(slot.value.expiresAt, now)
    // otherwise the stored access token, with the store unchanged
    ensures slot.Some? && !NeedsRefresh(slot.value.expiresAt, now) ==>
      s == TokenStep(Ok(slot.value.accessToken), slot, false)
    ensures s.refreshAttempted ==>
      s.result == Refresh(slot.value, outcome).0 && s.slot == Some(Refresh(slot.value, outcome).1)
    // a failure never changes the store; the row is never created or deleted here
    ensures s.result.Err? ==> s.slot == slot
    ensures s.slot.Some? <==> slot.Some?
    ensures s.slot.Some? ==> s.slot.value.id == slot.value.id && s.slot.value.refreshToken == slot.value.refreshToken
    // the token handed out is the one the row now holds
    ensures s.result.Ok? ==> s.slot.Some? && s.result.value == s.slot.value.accessToken
    ensures WellFormed(slot) ==> WellFormed(s.slot)
  {
    match slot
    case None => TokenStep(Err(NotAuthenticated), None, false)
    case Some(stored) =>
      if NeedsRefresh(stored.expiresAt, now) then
        var (r, row) := Refresh(stored, outcome);
        TokenStep(r, Some(row), true)
      else TokenStep(Ok(stored.accessToken), slot, false)
  }

  /** isAuthenticated: false on an empty slot, otherwise whether getValidToken
      succeeds; every exception becomes false. */
  function Authenticated(slot: Option<StoredToken>, now: int, outcome: RefreshOutcome): (b: bool)
    ensures b <==> ValidToken(slot, now, outcome).result.Ok?
    ensures slot.None? ==> !b
  {
    if slot.None? then false
    else match ValidToken(slot, now, outcome).result
      case Ok(_) => true
      case Err(_) => false
  }

  /** A token exactly the buffer away from expiry is not refreshed. */
  lemma NoRefreshAtBuffer(stored: StoredToken, outcome: RefreshOutcome)
    ensures ValidToken(Some(stored), stored.expiresAt - TOKEN_REFRESH_BUFFER_MS, outcome)
      == TokenStep(Ok(stored.accessToken), Some(stored), false)
  {
  }

  /** The auth_tokens table, holding at most one row. */
  class CredentialStore {
    var slot: Option<StoredToken>
    /** The next value of the table's SERIAL id sequence. */
    var nextId: int

    constructor ()
      ensures slot == None && nextId == 1
    {
      slot := None;
      nextId := 1;
    }

    /** storeToken: delete every row, then insert the new credential. */
    method StoreToken(accessToken: string, refreshToken: string, expiresAt: int, db: StoreOutcome)
      returns (r: Result<()>)
      modifies this
      ensures db == Written ==>
        && r == Ok(()) && nextId == old(nextId) + 1
        && slot == Some(StoredToken(old(nextId), accessToken, refreshToken, expiresAt))
      ensures db == DeleteThrew ==> r == Err(StorageFailed) && slot == old(slot) && nextId == old(nextId)
      ensures db == InsertThrew ==> r == Err(StorageFailed) && slot == None && nextId == old(nextId)
    {
      if db == DeleteThrew {
        return Err(StorageFailed);
      }
      slot := None;
      if db == InsertThrew {
        return Err(StorageFailed);
      }
      slot := Some(StoredToken(nextId, accessToken, refreshToken, expiresAt));
      nextId := nextId + 1;
      r := Ok(());
    }

    /** getStoredToken: the row, if there is one. */
    method GetStoredToken() returns (t: Option<StoredToken>)
      ensures t == slot
    {
      t := slot;
    }

    /** updateToken: overwrite the access token and expiry of the row with this id. */
    method UpdateToken(id: int, accessToken: string, expiresAt: int)
      modifies this
      ensures slot == if old(slot).Some? && old(slot).value.id == id
                      then Some(old(slot).value.(accessToken := accessToken, expiresAt := expiresAt))
                      else old(slot)
      ensures nextId == old(nextId)
    {
      if slot.Some? && slot.value.id == id {
        slot := Some(slot.value.(accessToken := accessToken, expiresAt := expiresAt));
      }
    }

    /** refreshToken: call the grant with the stored refresh token and persist
      the new access token and expiry only once both came back. */
    method RefreshToken(stored: StoredToken, outcome: RefreshOutcome) returns (r: Result<string>)
      requires slot == Some(stored)
      modifies this
      ensures slot.Some? && (r, slot.value) == Refresh(stored, outcome)
      ensures nextId == old(nextId)
    {
      match outcome
      case RefreshThrew =>
        return Err(RefreshCallFailed);
      case Refreshed(access, expiry) =>
        if !Truthy(access) || !HasExpiry(expiry) {
          return Err(RefreshIncomplete);
        }
        UpdateToken(stored.id, access.value, expiry.value);
        r := Ok(access.value);
    }

    /** getValidToken at clock reading `now`. */
    method GetValidToken(now: int, outcome: RefreshOutcome) returns (r: Result<string>, refreshAttempted: bool)
      modifies this
      ensures TokenStep(r, slot, refreshAttempted) == ValidToken(old(slot), now, outcome)
      ensures nextId == old(nextId)
    {
      var stored := GetStoredToken();
      if stored.None? {
        return Err(NotAuthenticated), false;
      }
      if NeedsRefresh(stored.value.expiresAt, now) {
        r := RefreshToken(stored.value, outcome);
        refreshAttempted := true;
      } else {
        r, refreshAttempted := Ok(stored.value.accessToken), false;
      }
    }

    /** isAuthenticated: never throws; a refresh it triggers is persisted. */
    method IsAuthenticated(now: int, outcome: RefreshOutcome) returns (b: bool)
      modifies this
      ensures b == Authenticated(old(slot), now, outcome)
      ensures slot == ValidToken(old(slot), now, outcome).slot && nextId == old(nextId)
    {
      var stored := GetStoredToken();
      if stored.None? {
        return false;
      }
      var r, _ := GetValidToken(now, outcome);
      b := r.Ok?;
    }

    /** clearTokens: delete the row. */
    method ClearTokens()
      modifies this
      ensures slot == None && nextId == old(nextId)
    {
      slot := None;
    }
  }

  /** Signing in and then out leaves no credential behind: the next request for
      a token fails with NotAuthenticated and makes no refresh call. */
  method SignInThenOut(accessToken: string, refreshToken: string, expiresAt: int, now: int, outcome: RefreshOutcome)
    returns (r: Result<string>, refreshAttempted: bool)
    ensures r == Err(NotAuthenticated) && !refreshAttempted
  {
    var store := new CredentialStore();
    var _ := store.StoreToken(accessToken, refreshToken, expiresAt, Written);
    store.ClearTokens();
    r, refreshAttempted := store.GetValidToken(now, outcome);
  }
}
