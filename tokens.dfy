/** The `tokens` table of backend/index.js: one credential record per
    session id (the table's primary key), written by `INSERT OR REPLACE`. */
module Tokens {
  import opened Js

  type SessionId = string

  /** A row of the table: access token, refresh token, absolute expiry in
      milliseconds since the epoch. */
  datatype Tokens = Tokens(access: string, refresh: string, expiresAt: int)

  /** The table as a value: at most one row per session id by construction. */
  type Table = map<SessionId, Tokens>

  /** The row `saveTokensForSession` writes when called at time `now` (ms)
      with a lifetime of `expiresIn` seconds. */
  function Record(now: int, access: string, refresh: string, expiresIn: int): (t: Tokens)
    ensures t.access == access && t.refresh == refresh
    ensures t.expiresAt - now == expiresIn * 1000
  {
    Tokens(access, refresh, now + expiresIn * 1000)
  }

  /** `getTokensForSession`: the row, or nothing. */
  function Lookup(table: Table, sid: SessionId): (r: Option<Tokens>)
    ensures r.Some? <==> sid in table
    ensures r.Some? ==> r.value == table[sid]
  {
    if sid in table then Some(table[sid]) else None
  }

  /** One call of `saveTokensForSession`. */
  datatype SaveCall = SaveCall(sid: SessionId, now: int, access: string, refresh: string, expiresIn: int)

  /** `INSERT OR REPLACE`: the row for the save's session is replaced, the
      rest of the table is kept. */
  function Upsert(table: Table, s: SaveCall): (t: Table)
    ensures t.Keys == table.Keys + {s.sid}
    ensures t[s.sid] == Record(s.now, s.access, s.refresh, s.expiresIn)
    ensures forall k :: k in table && k != s.sid ==> t[k] == table[k]
  {
    table[s.sid := Record(s.now, s.access, s.refresh, s.expiresIn)]
  }

  /** A sequence of saves applied in order (e.g. two concurrent refreshes of
      the same session, each upserting when it completes). */
  function ApplySaves(table: Table, saves: seq<SaveCall>): (t: Table)
  {
    if saves == [] then table
    else Upsert(ApplySaves(table, saves[..|saves| - 1]), saves[|saves| - 1])
  }

  /** The last save for `sid` in `saves`, if any. */
  function LastSaveFor(saves: seq<SaveCall>, sid: SessionId): (last: Option<SaveCall>)
  {
    if saves == [] then None
    else if saves[|saves| - 1].sid == sid then Some(saves[|saves| - 1])
    else LastSaveFor(saves[..|saves| - 1], sid)
  }

  /** Last writer wins: after any sequence of saves, a session's row is the
      one written by its last save, or the original row when no save touched
      it; no row is ever deleted. */
  lemma {:induction false} LastWriterWins(table: Table, saves: seq<SaveCall>, sid: SessionId)
    ensures table.Keys <= ApplySaves(table, saves).Keys
    ensures match LastSaveFor(saves, sid)
      case Some(s) =>
        Lookup(ApplySaves(table, saves), sid) == Some(Record(s.now, s.access, s.refresh, s.expiresIn))
      case None =>
        Lookup(ApplySaves(table, saves), sid) == Lookup(table, sid)
  {
    if saves != [] {
      LastWriterWins(table, saves[..|saves| - 1], sid);
    }
  }
}
