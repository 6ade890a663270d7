/** The `/spotify/command` handler of backend/index.js after the token has
    been obtained: which actuator calls each action issues, in which order,
    and which HTTP status answers the request. The remote actuator is the
    parameter `failAt`: the index of the first call it rejects, if any. */
module Commands {
  import opened Js
  import opened Credentials

  /** The request's `position_ms`: a JSON number, some other value (kept
      as its text), or absent. */
  datatype Position = Number(ms: int) | Text(text: string) | Undefined

  /** The request body `{ action, track_uri?, position_ms?, device_id? }`. */
  datatype CommandRequest = CommandRequest(action: string, trackUri: Option<string>, positionMs: Position, deviceId: Option<string>)

  /** One call to the remote player. `StartPlayback(None)` sends the body
      `{}`, `StartPlayback(Some(u))` sends `{ uris: [u] }`. */
  datatype ActuatorCall =
    | StartPlayback(uri: Option<string>)
    | SeekTo(position: Position)
    | PausePlayback
    | TransferPlayback(deviceIds: seq<Option<string>>, play: bool)

  predicate KnownAction(action: string) {
    action == "play" || action == "pause" || action == "seek" || action == "transfer"
  }

  /** The calls an action issues, in order, when none fails; None for an
      unknown action. */
  function Plan(req: CommandRequest): (p: Option<seq<ActuatorCall>>)
    ensures p.None? <==> !KnownAction(req.action)
    ensures p.Some? ==> 1 <= |p.value| <= 2
    // play: one start call, then a seek only when position_ms is a number
    ensures req.action == "play" ==>
      && p.Some? && p.value[0].StartPlayback?
      && (p.value[0].uri.Some? <==> TruthyOpt(req.trackUri))
      && (p.value[0].uri.Some? ==> p.value[0].uri == req.trackUri)
      && (|p.value| == 2 <==> req.positionMs.Number?)
      && (|p.value| == 2 ==> p.value[1] == SeekTo(req.positionMs))
    // every other known action: exactly one call
    ensures req.action == "pause" ==> p == Some([PausePlayback])
    ensures req.action == "seek" ==> p == Some([SeekTo(req.positionMs)])
    ensures req.action == "transfer" ==> p == Some([TransferPlayback([req.deviceId], false)])
  {
    if req.action == "play" then
      var start := StartPlayback(if TruthyOpt(req.trackUri) then req.trackUri else None);
      if req.positionMs.Number? then Some([start, SeekTo(req.positionMs)]) else Some([start])
    else if req.action == "pause" then Some([PausePlayback])
    else if req.action == "seek" then Some([SeekTo(req.positionMs)])
    else if req.action == "transfer" then Some([TransferPlayback([req.deviceId], false)])
    else None
  }

  /** The calls actually sent when the calls are awaited one after the
      other and the first rejected one aborts the rest. */
  datatype Execution = Execution(issued: seq<ActuatorCall>, ok: bool)

  function Execute(calls: seq<ActuatorCall>, failAt: Option<nat>): (e: Execution)
    ensures e.issued <= calls
    ensures e.ok <==> e.issued == calls && (failAt.None? || failAt.value >= |calls|)
    ensures !e.ok ==> failAt.Some? && |e.issued| == failAt.value + 1
  {
    if failAt.Some? && failAt.value < |calls| then Execution(calls[..failAt.value + 1], false)
    else Execution(calls, true)
  }

  /** The answer to a command: HTTP status, the calls sent and the bearer
      token they carry. */
  datatype Response = Response(status: int, issued: seq<ActuatorCall>, bearer: string)

  /** The handler once `refreshAccessTokenIfNeeded` returned `token`. */
  function Respond(token: Option<string>, req: CommandRequest, failAt: Option<nat>): (r: Response)
    ensures r.status == StatusOk || r.status == StatusBadRequest
         || r.status == StatusUnauthorized || r.status == StatusServerError
    // no usable token: 401 before any call
    ensures r.status == StatusUnauthorized <==> !TruthyOpt(token)
    // unknown action: 400 with no call
    ensures r.status == StatusBadRequest <==> TruthyOpt(token) && !KnownAction(req.action)
    ensures r.status == StatusUnauthorized || r.status == StatusBadRequest ==> r.issued == []
    // known action: the planned calls, cut after a rejected one
    ensures TruthyOpt(token) && KnownAction(req.action) ==>
      && r.issued <= Plan(req).value
      && r.bearer == token.value
      && (r.status == StatusOk <==> r.issued == Plan(req).value && (failAt.None? || failAt.value >= |r.issued|))
      && (r.status == StatusServerError <==> failAt.Some? && failAt.value < |Plan(req).value|)
      // a rejected call was sent, every call before it too, and none after it
      && (r.status == StatusServerError ==> |r.issued| == failAt.value + 1)
  {
    if !TruthyOpt(token) then Response(StatusUnauthorized, [], "")
    else match Plan(req)
      case None => Response(StatusBadRequest, [], "")
      case Some(calls) =>
        var e := Execute(calls, failAt);
        Response(if e.ok then StatusOk else StatusServerError, e.issued, token.value)
  }
}
