/** The credential decisions of backend/index.js as pure functions:
    the lazy refresh of `refreshAccessTokenIfNeeded` and the state check
    and token exchange of the `/callback` handler. The clock is the
    parameter `now` (milliseconds); the remote token endpoint is the
    parameter that stands for its answer. */
module Credentials {
  import opened Js
  import opened Tokens

  /** A cached token is used only while more than this many milliseconds
      remain before its expiry. */
  const RefreshMarginMs := 5000

  /** Lifetime in seconds assumed when the refresh answer carries none. */
  const DefaultExpiresIn := 3600

  /** The stored access token may be used as it is. */
  predicate StillValid(t: Tokens, now: int) {
    now < t.expiresAt - RefreshMarginMs
  }

  /** The answer of the remote refresh endpoint. `refresh` is "" when the
      answer carries no new refresh token. */
  datatype RemoteRefresh =
    | Refreshed(access: string, expiresIn: Option<int>, refresh: string)
    | RefreshRejected

  /** `data.expires_in || 3600`: a missing or zero lifetime means 3600 s. */
  function EffectiveExpiresIn(e: Option<int>): (n: int)
    ensures n != 0
    ensures e.Some? && e.value != 0 ==> n == e.value
    ensures e.None? || e.value == 0 ==> n == DefaultExpiresIn
  {
    if e.Some? && e.value != 0 then e.value else DefaultExpiresIn
  }

  /** What one call of the refresher does: the value it returns (None for
      `null`), the refresh token it sends to the remote endpoint (None when
      it makes no remote call), and the row it upserts (None when it
      writes nothing). */
  datatype RefreshOutcome = RefreshOutcome(token: Option<string>, remoteCall: Option<string>, write: Option<Tokens>)

  /** `refreshAccessTokenIfNeeded` for a session whose stored row is `row`. */
  function Refresh(row: Option<Tokens>, now: int, remote: RemoteRefresh): (o: RefreshOutcome)
    // no row: null, no remote call, no write
    ensures row.None? ==> o == RefreshOutcome(None, None, None)
    // still valid: the cached token, no remote call, no write
    ensures row.Some? && StillValid(row.value, now) ==>
      o == RefreshOutcome(Some(row.value.access), None, None)
    // a remote call is made exactly when a row exists and is about to expire,
    // and it sends the stored refresh token
    ensures o.remoteCall.Some? <==> row.Some? && !StillValid(row.value, now)
    ensures o.remoteCall.Some? ==> o.remoteCall.value == row.value.refresh
    // success: the new row keeps the old refresh token unless a new one came
    ensures row.Some? && !StillValid(row.value, now) && remote.Refreshed? ==>
      o.token == Some(remote.access) &&
      o.write == Some(Record(now, remote.access, OrElse(remote.refresh, row.value.refresh),
                             EffectiveExpiresIn(remote.expiresIn)))
    // failure: null and nothing written
    ensures remote.RefreshRejected? ==> o.write.None?
    ensures remote.RefreshRejected? && o.remoteCall.Some? ==> o.token.None?
    // a write always follows a remote call, and the token returned is the one written
    ensures o.write.Some? ==> o.remoteCall.Some? && o.token == Some(o.write.value.access)
    // a refresh token once held is never lost
    ensures o.write.Some? && row.Some? && Truthy(row.value.refresh) ==> Truthy(o.write.value.refresh)
  {
    if row.None? then RefreshOutcome(None, None, None)
    else if StillValid(row.value, now) then RefreshOutcome(Some(row.value.access), None, None)
    else match remote
      case RefreshRejected => RefreshOutcome(None, Some(row.value.refresh), None)
      case Refreshed(access, expiresIn, refresh) =>
        var kept := OrElse(refresh, row.value.refresh);
        RefreshOutcome(Some(access), Some(row.value.refresh),
                       Some(Record(now, access, kept, EffectiveExpiresIn(expiresIn))))
  }

  /** The row after the refresher ran. */
  function RowAfter(row: Option<Tokens>, o: RefreshOutcome): (after: Option<Tokens>) {
    if o.write.Some? then o.write else row
  }

  /** A refresh attempt: the time it runs and what the remote would answer. */
  datatype Attempt = Attempt(now: int, remote: RemoteRefresh)

  /** A session's row after a sequence of refresh attempts. */
  function RefreshAll(row: Option<Tokens>, attempts: seq<Attempt>): (after: Option<Tokens>)
  {
    if attempts == [] then row
    else
      var before := RefreshAll(row, attempts[..|attempts| - 1]);
      var a := attempts[|attempts| - 1];
      RowAfter(before, Refresh(before, a.now, a.remote))
  }

  /** Refreshing never creates a row for an unauthenticated session, never
      deletes one, and never loses a refresh token once one is held. */
  lemma {:induction false} RefreshAllKeepsRow(row: Option<Tokens>, attempts: seq<Attempt>)
    ensures RefreshAll(row, attempts).Some? <==> row.Some?
    ensures row.Some? && Truthy(row.value.refresh) ==> Truthy(RefreshAll(row, attempts).value.refresh)
  {
    if attempts != [] {
      RefreshAllKeepsRow(row, attempts[..|attempts| - 1]);
    }
  }

  /** Rejected refreshes leave the row exactly as it was, however many. */
  lemma {:induction false} RejectedRefreshesChangeNothing(row: Option<Tokens>, attempts: seq<Attempt>)
    requires forall i :: 0 <= i < |attempts| ==> attempts[i].remote.RefreshRejected?
    ensures RefreshAll(row, attempts) == row
  {
    if attempts != [] {
      RejectedRefreshesChangeNothing(row, attempts[..|attempts| - 1]);
    }
  }

  /** With a lifetime above the margin, a successful refresh makes the
      following calls use the cached token until the new margin is reached. */
  lemma CachedAfterRefresh(row: Tokens, now: int, remote: RemoteRefresh, later: int, next: RemoteRefresh)
    requires !StillValid(row, now) && remote.Refreshed?
    requires EffectiveExpiresIn(remote.expiresIn) * 1000 > RefreshMarginMs
    requires now <= later < now + EffectiveExpiresIn(remote.expiresIn) * 1000 - RefreshMarginMs
    ensures var after := RowAfter(Some(row), Refresh(Some(row), now, remote));
      Refresh(after, later, next) == RefreshOutcome(Some(remote.access), None, None)
  {
  }

  /** A successful refresh moves the expiry forward when the new lifetime
      exceeds the margin ... */
  lemma RefreshExtendsExpiry(row: Tokens, now: int, remote: RemoteRefresh)
    requires !StillValid(row, now) && remote.Refreshed?
    requires EffectiveExpiresIn(remote.expiresIn) * 1000 > RefreshMarginMs
    ensures Refresh(Some(row), now, remote).write.value.expiresAt > row.expiresAt
  {
  }

  /** ... but not for every lifetime the remote may send. */
  lemma RefreshMayShortenExpiry()
    ensures Refresh(Some(Tokens("A", "R", 10000)), 5000, Refreshed("A2", Some(1), "")).write
         == Some(Tokens("A2", "R", 6000))
  {
  }

  /** A row about to expire, refreshed with an answer that carries no
      refresh token: the old refresh token is kept, the lifetime is
      3600 seconds from now. */
  lemma RefreshKeepsRefreshTokenExample(now: int)
    ensures Refresh(Some(Tokens("A", "R", now + 1)), now, Refreshed("A2", Some(3600), "")).write
         == Some(Tokens("A2", "R", now + 3600000))
  {
  }

  /** The answer of the remote authorization-code exchange. */
  datatype Exchange =
    | Exchanged(access: string, refresh: string, expiresIn: int)
    | ExchangeFailed

  /** HTTP statuses the handlers answer with. */
  const StatusOk := 200
  const StatusRedirect := 302
  const StatusBadRequest := 400
  const StatusUnauthorized := 401
  const StatusServerError := 500

  /** The `state` check of `/callback`: `req.query.state || null` must be a
      non-empty string equal to the state stored in the session by `/login`. */
  predicate StateAccepted(sessionState: Option<string>, queryState: Option<string>) {
    TruthyOpt(queryState) && sessionState == queryState
  }

  /** What `/callback` does: its status, whether it called the exchange
      endpoint, and the row it saves for the session. */
  datatype CallbackOutcome = CallbackOutcome(status: int, exchanged: bool, write: Option<Tokens>)

  function Callback(sessionState: Option<string>, queryState: Option<string>, now: int, exchange: Exchange): (o: CallbackOutcome)
    ensures o.status == StatusBadRequest <==> !StateAccepted(sessionState, queryState)
    ensures o.exchanged <==> StateAccepted(sessionState, queryState)
    ensures !o.exchanged ==> o.write.None?
    ensures o.write.Some? <==> StateAccepted(sessionState, queryState) && exchange.Exchanged?
    ensures o.write.Some? ==>
      && o.status == StatusRedirect
      && o.write.value == Record(now, exchange.access, exchange.refresh, exchange.expiresIn)
    ensures o.status == StatusServerError <==> StateAccepted(sessionState, queryState) && exchange.ExchangeFailed?
  {
    if !StateAccepted(sessionState, queryState) then CallbackOutcome(StatusBadRequest, false, None)
    else match exchange
      case ExchangeFailed => CallbackOutcome(StatusServerError, true, None)
      case Exchanged(access, refresh, expiresIn) =>
        CallbackOutcome(StatusRedirect, true, Some(Record(now, access, refresh, expiresIn)))
  }
}
