/** The credential side of backend/index.js as a mutable object: the
    `tokens` table, its two accessors, the refresher and the two HTTP
    handlers that use it. Each method is proved against the pure
    decisions of modules Credentials and Commands. */
module Backend {
  import opened Js
  import opened Tokens
  import opened Credentials
  import opened Commands

  /** The table after an optional upsert for `sid`. */
  function Written(table: Table, sid: SessionId, write: Option<Tokens>): (t: Table)
    ensures write.None? ==> t == table
    ensures write.Some? ==> t.Keys == table.Keys + {sid} && t[sid] == write.value
    ensures forall k :: k in table && k != sid ==> k in t && t[k] == table[k]
  {
    if write.Some? then table[sid := write.value] else table
  }

  class Store {
    /** The `tokens` table, keyed by its primary key `session_id`. */
    var rows: Table

    constructor ()
      ensures rows == map[]
    {
      rows := map[];
    }

    /** `saveTokensForSession`: upsert with `expires_at = now + expires_in * 1000`. */
    method Save(sid: SessionId, now: int, access: string, refresh: string, expiresIn: int)
      modifies this
      ensures rows == Upsert(old(rows), SaveCall(sid, now, access, refresh, expiresIn))
    {
      var expiresAt := now + expiresIn * 1000;
      rows := rows[sid := Tokens(access, refresh, expiresAt)];
    }

    /** `getTokensForSession`: the row, or nothing. */
    method Get(sid: SessionId) returns (row: Option<Tokens>)
      ensures row.Some? <==> sid in rows
      ensures row.Some? ==> row.value == rows[sid]
    {
      if sid in rows {
        row := Some(rows[sid]);
      } else {
        row := None;
      }
    }

    /** `refreshAccessTokenIfNeeded`: returns the token (None for `null`)
        and the refresh token sent to the remote endpoint, if one was. */
    method RefreshIfNeeded(sid: SessionId, now: int, remote: RemoteRefresh)
      returns (token: Option<string>, remoteCall: Option<string>)
      modifies this
      ensures var o := Refresh(Lookup(old(rows), sid), now, remote);
        && token == o.token
        && remoteCall == o.remoteCall
        && rows == Written(old(rows), sid, o.write)
    {
      var row := Get(sid);
      if row.None? {
        return None, None;
      }
      var t := row.value;
      if now < t.expiresAt - RefreshMarginMs {
        return Some(t.access), None;
      }
      remoteCall := Some(t.refresh);
      match remote {
        case RefreshRejected =>
          token := None;
        case Refreshed(access, expiresIn, refresh) =>
          var lifetime := if expiresIn.Some? && expiresIn.value != 0 then expiresIn.value else DefaultExpiresIn;
          var kept := if refresh != "" then refresh else t.refresh;
          Save(sid, now, access, kept, lifetime);
          token := Some(access);
      }
    }

    /** The `/callback` handler for session `sid`. */
    method HandleCallback(sid: SessionId, sessionState: Option<string>, queryState: Option<string>,
                          now: int, exchange: Exchange)
      returns (status: int, exchanged: bool)
      modifies this
      ensures var o := Callback(sessionState, queryState, now, exchange);
        && status == o.status
        && exchanged == o.exchanged
        && rows == Written(old(rows), sid, o.write)
    {
      if queryState.None? || queryState.value == "" || sessionState != queryState {
        return StatusBadRequest, false;
      }
      exchanged := true;
      match exchange {
        case ExchangeFailed =>
          status := StatusServerError;
        case Exchanged(access, refresh, expiresIn) =>
          Save(sid, now, access, refresh, expiresIn);
          status := StatusRedirect;
      }
    }

    /** The `/spotify/command` handler for session `sid`: the refresher
        runs first, whatever the action. */
    method HandleCommand(sid: SessionId, now: int, remote: RemoteRefresh, req: CommandRequest, failAt: Option<nat>)
      returns (r: Response, remoteCall: Option<string>)
      modifies this
      ensures var o := Refresh(Lookup(old(rows), sid), now, remote);
        && r == Respond(o.token, req, failAt)
        && remoteCall == o.remoteCall
        && rows == Written(old(rows), sid, o.write)
    {
      var token;
      token, remoteCall := RefreshIfNeeded(sid, now, remote);
      r := Respond(token, req, failAt);
    }

    /** `/session-info`: authenticated exactly when a row exists. */
    method SessionInfo(sid: SessionId) returns (authenticated: bool)
      ensures authenticated <==> sid in rows
    {
      var row := Get(sid);
      authenticated := row.Some?;
    }
  }

  /** An unknown action is answered 400 with no actuator call, yet the
      token may already have been refreshed and stored. */
  lemma UnknownActionStillRefreshes(row: Tokens, now: int, remote: RemoteRefresh, req: CommandRequest, failAt: Option<nat>)
    requires !StillValid(row, now) && remote.Refreshed? && Truthy(remote.access)
    requires !KnownAction(req.action)
    ensures var o := Refresh(Some(row), now, remote);
      && Respond(o.token, req, failAt) == Response(StatusBadRequest, [], "")
      && o.write.Some? && o.write.value.access == remote.access
  {
  }
}
