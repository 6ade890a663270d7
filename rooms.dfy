/** The Socket.IO relay of backend/index.js: room membership, the one
    `userName` each connection carries, and the broadcasts the handlers
    emit. A broadcast is recorded as one emission with its set of
    recipients; Socket.IO's delivery is not modelled beyond that set. */
module Rooms {
  import opened Js

  type ConnId = string
  type RoomId = string

  /** Room id to its members. Socket.IO drops a room when its last member
      leaves, so no room is ever mapped to the empty set. */
  type Rooms = map<RoomId, set<ConnId>>

  predicate NoEmptyRooms(rooms: Rooms) {
    forall r :: r in rooms ==> rooms[r] != {}
  }

  /** The members of a room; a room nobody joined has none. */
  function Members(rooms: Rooms, r: RoomId): (members: set<ConnId>) {
    if r in rooms then rooms[r] else {}
  }

  /** `socket.join(roomId)`. */
  function AddMember(rooms: Rooms, r: RoomId, c: ConnId): (rs: Rooms)
    ensures NoEmptyRooms(rooms) ==> NoEmptyRooms(rs)
    ensures Members(rs, r) == Members(rooms, r) + {c}
    ensures forall q :: q != r ==> Members(rs, q) == Members(rooms, q)
  {
    rooms[r := Members(rooms, r) + {c}]
  }

  /** `socket.leave(roomId)`; a room left empty disappears. */
  function RemoveMember(rooms: Rooms, r: RoomId, c: ConnId): (rs: Rooms)
    ensures NoEmptyRooms(rooms) ==> NoEmptyRooms(rs)
    ensures Members(rs, r) == Members(rooms, r) - {c}
    ensures forall q :: q != r ==> Members(rs, q) == Members(rooms, q)
  {
    var left := Members(rooms, r) - {c};
    if left == {} then rooms - {r} else rooms[r := left]
  }

  /** What Socket.IO does to the rooms when a connection closes. */
  function RemoveEverywhere(rooms: Rooms, c: ConnId): (rs: Rooms)
    ensures NoEmptyRooms(rs)
    ensures forall q :: Members(rs, q) == Members(rooms, q) - {c}
  {
    map q | q in rooms && rooms[q] - {c} != {} :: rooms[q] - {c}
  }

  /** A `playback-event` payload: its `roomId` and the rest of the object,
      relayed untouched. */
  datatype Payload = Payload(roomId: Option<string>, rest: string)

  /** The events the server emits. `PeerLeft` carries the connection's
      `userName`, None when it never joined a room. */
  datatype Event =
    | PeerJoined(id: ConnId, userName: string)
    | PeerLeft(id: ConnId, leaverName: Option<string>)
    | PlaybackEvent(payload: Payload)
    | PlaybackCommand(command: string)

  /** Which handler emitted: a connection's Socket.IO handler or the HTTP
      `/room/:roomId/command` handler. */
  datatype Origin = FromSocket(conn: ConnId) | FromHttp

  /** One `emit` to a room, with the connections it reaches. */
  datatype Emission = Emission(origin: Origin, room: RoomId, to: set<ConnId>, event: Event)

  /** The relay's whole state: membership, `socket.data.userName` per
      connection, and every emission so far. */
  datatype State = State(rooms: Rooms, names: map<ConnId, string>, log: seq<Emission>)

  /** The inbound messages the relay handles. */
  datatype Op =
    | Join(conn: ConnId, room: RoomId, userName: string)
    | Leave(conn: ConnId, room: RoomId)
    | Playback(conn: ConnId, payload: Payload)
    | RoomCommand(room: RoomId, command: string)
    | Disconnect(conn: ConnId)

  function NameOf(names: map<ConnId, string>, c: ConnId): (name: Option<string>) {
    if c in names then Some(names[c]) else None
  }

  /** One handler run. */
  function Step(s: State, op: Op): (t: State)
    ensures NoEmptyRooms(s.rooms) ==> NoEmptyRooms(t.rooms)
    ensures s.log <= t.log && |t.log| <= |s.log| + 1
  {
    match op
    case Join(c, r, n) =>
      var rs := AddMember(s.rooms, r, c);
      State(rs, s.names[c := n], s.log + [Emission(FromSocket(c), r, Members(rs, r), PeerJoined(c, n))])
    case Leave(c, r) =>
      var rs := RemoveMember(s.rooms, r, c);
      State(rs, s.names, s.log + [Emission(FromSocket(c), r, Members(rs, r), PeerLeft(c, NameOf(s.names, c)))])
    case Playback(c, p) =>
      if !TruthyOpt(p.roomId) then s
      else
        var r := p.roomId.value;
        State(s.rooms, s.names, s.log + [Emission(FromSocket(c), r, Members(s.rooms, r) - {c}, PlaybackEvent(p))])
    case RoomCommand(r, cmd) =>
      State(s.rooms, s.names, s.log + [Emission(FromHttp, r, Members(s.rooms, r), PlaybackCommand(cmd))])
    case Disconnect(c) =>
      State(RemoveEverywhere(s.rooms, c), s.names - {c}, s.log)
  }

  /** The handlers run one after another. */
  function Run(s: State, ops: seq<Op>): (t: State)
  {
    if ops == [] then s else Step(Run(s, ops[..|ops| - 1]), ops[|ops| - 1])
  }

  /** What every emission satisfies: a joiner hears its own `peer-joined`,
      a leaver does not hear its own `peer-left`, a playback event never
      echoes to its sender and is sent to the room its payload names, and
      only the HTTP handler emits `playback-command`. */
  predicate WellFormed(e: Emission) {
    match e.event
    case PeerJoined(c, _) => e.origin == FromSocket(c) && c in e.to
    case PeerLeft(c, _) => e.origin == FromSocket(c) && c !in e.to
    case PlaybackEvent(p) => e.origin.FromSocket? && e.origin.conn !in e.to && p.roomId == Some(e.room)
    case PlaybackCommand(_) => e.origin == FromHttp
  }

  predicate LogWellFormed(log: seq<Emission>) {
    forall i :: 0 <= i < |log| ==> WellFormed(log[i])
  }

  /** Every emission the handlers ever make is well formed, and the log
      only grows. */
  lemma {:induction false} RunKeepsLogWellFormed(s: State, ops: seq<Op>)
    requires LogWellFormed(s.log)
    ensures LogWellFormed(Run(s, ops).log)
    ensures s.log <= Run(s, ops).log
  {
    if ops != [] {
      var before := Run(s, ops[..|ops| - 1]);
      RunKeepsLogWellFormed(s, ops[..|ops| - 1]);
      var t := Step(before, ops[|ops| - 1]);
      forall i | 0 <= i < |t.log|
        ensures WellFormed(t.log[i])
      {
        if i >= |before.log| {
          match ops[|ops| - 1]
          case Join(c, r, n) =>
            assert t.log[i].to == Members(AddMember(before.rooms, r, c), r);
          case Leave(c, r) =>
            assert t.log[i].to == Members(RemoveMember(before.rooms, r, c), r);
          case _ =>
        }
      }
    }
  }

  /** Whether `c` is in room `r` after `ops`, read off the last message
      that can change it: a join of `r`, a leave of `r`, or a disconnect. */
  function MemberAfter(initially: bool, ops: seq<Op>, r: RoomId, c: ConnId): (member: bool)
  {
    if ops == [] then initially
    else match ops[|ops| - 1]
      case Join(c', r', _) =>
        if c' == c && r' == r then true else MemberAfter(initially, ops[..|ops| - 1], r, c)
      case Leave(c', r') =>
        if c' == c && r' == r then false else MemberAfter(initially, ops[..|ops| - 1], r, c)
      case Disconnect(c') =>
        if c' == c then false else MemberAfter(initially, ops[..|ops| - 1], r, c)
      case _ => MemberAfter(initially, ops[..|ops| - 1], r, c)
  }

  /** Membership is derived from join, leave and disconnect alone:
      playback events and room commands never change it, and joins and
      leaves of other rooms or other connections do not either. */
  lemma {:induction false} RunMembership(s: State, ops: seq<Op>, r: RoomId, c: ConnId)
    ensures c in Members(Run(s, ops).rooms, r) <==> MemberAfter(c in Members(s.rooms, r), ops, r, c)
  {
    if ops != [] {
      RunMembership(s, ops[..|ops| - 1], r, c);
    }
  }

  /** The `userName` of `c` after `ops`: the name of its latest join, in
      whichever room, or none once it has disconnected. */
  function NameAfter(initially: Option<string>, ops: seq<Op>, c: ConnId): (name: Option<string>)
  {
    if ops == [] then initially
    else match ops[|ops| - 1]
      case Join(c', _, n) =>
        if c' == c then Some(n) else NameAfter(initially, ops[..|ops| - 1], c)
      case Disconnect(c') =>
        if c' == c then None else NameAfter(initially, ops[..|ops| - 1], c)
      case _ => NameAfter(initially, ops[..|ops| - 1], c)
  }

  /** A connection holds one `userName` for all its rooms: the one given
      in its latest join. */
  lemma {:induction false} RunUserName(s: State, ops: seq<Op>, c: ConnId)
    ensures NameOf(Run(s, ops).names, c) == NameAfter(NameOf(s.names, c), ops, c)
  {
    if ops != [] {
      RunUserName(s, ops[..|ops| - 1], c);
    }
  }

  /** Joining a room the connection was not in and leaving it again
      restores the membership exactly. */
  lemma JoinLeaveRoundTrip(rooms: Rooms, r: RoomId, c: ConnId)
    requires NoEmptyRooms(rooms)
    requires c !in Members(rooms, r)
    ensures RemoveMember(AddMember(rooms, r, c), r, c) == rooms
  {
  }

  /** A joiner that was already in the room is removed by the leave all the
      same, so the round trip does not restore it. */
  lemma JoinLeaveDropsPriorMember(rooms: Rooms, r: RoomId, c: ConnId)
    requires c in Members(rooms, r)
    ensures c !in Members(RemoveMember(AddMember(rooms, r, c), r, c), r)
  {
  }

  /** c1 and c2 join "xyz" as Alice and Bob; c1's pause reaches c2 only. */
  lemma PauseReachesOtherMember()
    ensures var s := Run(State(map[], map[], []),
                         [Join("c1", "xyz", "Alice"), Join("c2", "xyz", "Bob"),
                          Playback("c1", Payload(Some("xyz"), "pause"))]);
      && |s.log| == 3
      && s.log[2].to == {"c2"}
      && s.log[2].event == PlaybackEvent(Payload(Some("xyz"), "pause"))
  {
    var s0 := State(map[], map[], []);
    var o1 := [Join("c1", "xyz", "Alice")];
    var o2 := o1 + [Join("c2", "xyz", "Bob")];
    var o3 := o2 + [Playback("c1", Payload(Some("xyz"), "pause"))];
    assert o1[..0] == [] && o2[..1] == o1 && o3[..2] == o2;
    var s1 := Run(s0, o1);
    assert s1 == Step(Run(s0, []), o1[0]);
    var s2 := Run(s0, o2);
    assert s2 == Step(s1, o2[1]);
    assert Run(s0, o3) == Step(s2, o3[2]);
    assert Members(s2.rooms, "xyz") == {"c1", "c2"};
    assert |s2.log| == 2;
  }

  /** The `peer-left` of one room carries the name given in the latest
      join of any room, not the name used to join the room being left. */
  lemma LeaveAnnouncesLatestName(s: State, c: ConnId, r1: RoomId, r2: RoomId, n1: string, n2: string)
    ensures var t := Step(Step(Step(s, Join(c, r1, n1)), Join(c, r2, n2)), Leave(c, r1));
      t.log[|t.log| - 1].event == PeerLeft(c, Some(n2))
  {
  }

  /** The relay as the mutable object the Socket.IO server is. */
  class Relay {
    var rooms: Rooms
    var names: map<ConnId, string>
    var log: seq<Emission>

    /** The invariant every method keeps: no room is mapped to an empty
        set, and every emission so far is well formed. No method's other
        postconditions depend on it. */
    ghost predicate Valid()
      reads this
    {
      NoEmptyRooms(rooms) && LogWellFormed(log)
    }

    function Snapshot(): State
      reads this
    {
      State(rooms, names, log)
    }

    constructor ()
      ensures Valid() && rooms == map[] && names == map[] && log == []
    {
      rooms, names, log := map[], map[], [];
    }

    /** `join-room`: join, overwrite the one `userName`, then announce to
        the whole room, the joiner included. */
    method Join(c: ConnId, r: RoomId, userName: string)
      requires Valid()
      modifies this
      ensures Valid()
      ensures Snapshot() == Step(old(Snapshot()), Op.Join(c, r, userName))
      ensures Members(rooms, r) == Members(old(rooms), r) + {c}
      ensures forall q :: q != r ==> Members(rooms, q) == Members(old(rooms), q)
      ensures names == old(names)[c := userName]
      ensures log == old(log) + [Emission(FromSocket(c), r, Members(rooms, r), PeerJoined(c, userName))]
    {
      var members := if r in rooms then rooms[r] else {};
      rooms := rooms[r := members + {c}];
      names := names[c := userName];
      log := log + [Emission(FromSocket(c), r, members + {c}, PeerJoined(c, userName))];
    }

    /** `leave-room`: leave first, then announce to those still in the
        room, with the connection's current `userName`. */
    method Leave(c: ConnId, r: RoomId)
      requires Valid()
      modifies this
      ensures Valid()
      ensures Snapshot() == Step(old(Snapshot()), Op.Leave(c, r))
      ensures Members(rooms, r) == Members(old(rooms), r) - {c}
      ensures forall q :: q != r ==> Members(rooms, q) == Members(old(rooms), q)
      ensures names == old(names)
      ensures log == old(log) + [Emission(FromSocket(c), r, Members(old(rooms), r) - {c},
                                          PeerLeft(c, NameOf(old(names), c)))]
    {
      var members := if r in rooms then rooms[r] else {};
      var left := members - {c};
      if left == {} {
        rooms := rooms - {r};
      } else {
        rooms := rooms[r := left];
      }
      var userName := if c in names then Some(names[c]) else None;
      log := log + [Emission(FromSocket(c), r, left, PeerLeft(c, userName))];
    }

    /** `playback-event`: dropped without a `roomId`, otherwise sent to
        every member of that room but the sender. */
    method PlaybackEvent(c: ConnId, payload: Payload)
      requires Valid()
      modifies this
      ensures Valid()
      ensures Snapshot() == Step(old(Snapshot()), Playback(c, payload))
      ensures rooms == old(rooms) && names == old(names)
      ensures !TruthyOpt(payload.roomId) ==> log == old(log)
      ensures TruthyOpt(payload.roomId) ==>
        log == old(log) + [Emission(FromSocket(c), payload.roomId.value,
                                    Members(rooms, payload.roomId.value) - {c}, Event.PlaybackEvent(payload))]
    {
      if payload.roomId.None? || payload.roomId.value == "" {
        return;
      }
      var r := payload.roomId.value;
      var members := if r in rooms then rooms[r] else {};
      log := log + [Emission(FromSocket(c), r, members - {c}, Event.PlaybackEvent(payload))];
    }

    /** `POST /room/:roomId/command`: sent to every member; answers 200. */
    method RoomCommand(r: RoomId, command: string) returns (status: int)
      requires Valid()
      modifies this
      ensures Valid()
      ensures Snapshot() == Step(old(Snapshot()), Op.RoomCommand(r, command))
      ensures status == 200
      ensures rooms == old(rooms) && names == old(names)
      ensures log == old(log) + [Emission(FromHttp, r, Members(rooms, r), PlaybackCommand(command))]
    {
      var members := if r in rooms then rooms[r] else {};
      log := log + [Emission(FromHttp, r, members, PlaybackCommand(command))];
      status := 200;
    }

    /** `disconnect`: the handler emits nothing; Socket.IO itself removes
        the connection from every room and discards its data. */
    method Disconnect(c: ConnId)
      requires Valid()
      modifies this
      ensures Valid()
      ensures Snapshot() == Step(old(Snapshot()), Op.Disconnect(c))
      ensures forall q :: Members(rooms, q) == Members(old(rooms), q) - {c}
      ensures names == old(names) - {c}
      ensures log == old(log)
    {
      rooms := map q | q in rooms && rooms[q] - {c} != {} :: rooms[q] - {c};
      names := names - {c};
    }
  }
}
