/**
  The two indexes over sessions, as pure maps: the registry (one session per user id) and the
  room index (per room, one session per user id). They are generic in what identifies a session:
  the classes use the object itself, the protocol a session number.
 */
module SessionIndex {
  import opened MapOrders

  type Registry<C> = map<string, C>
  type RoomIndex<C> = map<string, map<string, C>>

  /** Deletes the entry of id only when it is still c's own. */
  function Unregister<C(==)>(clients: Registry<C>, id: string, c: C): Registry<C> {
    if id in clients && clients[id] == c then clients - {id} else clients
  }

  /** Makes c the member of room under id, creating the room when it is missing. */
  function Enter<C>(rooms: RoomIndex<C>, room: string, id: string, c: C): RoomIndex<C> {
    var members := if room in rooms then rooms[room] else map[];
    rooms[room := members[id := c]]
  }

  /** Removes c from room if it is the member under id; a room left empty disappears. */
  function Leave<C(==)>(rooms: RoomIndex<C>, room: string, id: string, c: C): RoomIndex<C> {
    if IsMember(rooms, room, id, c) then
      var members := rooms[room] - {id};
      if |members| == 0 then rooms - {room} else rooms[room := members]
    else
      rooms
  }

  predicate IsMember<C(==)>(rooms: RoomIndex<C>, room: string, id: string, c: C) {
    room in rooms && id in rooms[room] && rooms[room][id] == c
  }

  /** No room is kept without members, and the empty string never names a room. */
  ghost predicate WellFormed<C>(rooms: RoomIndex<C>) {
    && "" !in rooms
    && forall room | room in rooms :: rooms[room] != map[]
  }

  lemma EnterKeepsWellFormed<C>(rooms: RoomIndex<C>, room: string, id: string, c: C)
    requires WellFormed(rooms) && room != ""
    ensures WellFormed(Enter(rooms, room, id, c))
  {
    assert id in Enter(rooms, room, id, c)[room];
  }

  /** Entering changes who holds (room, id), and nothing else. */
  lemma EnterMembers<C>(rooms: RoomIndex<C>, room: string, id: string, c: C, r: string, u: string, d: C)
    ensures IsMember(Enter(rooms, room, id, c), r, u, d)
       <==> if r == room && u == id then d == c else IsMember(rooms, r, u, d)
  {
  }

  /** Leaving removes exactly c's own entry, and keeps the index well formed. */
  lemma LeaveMembers<C>(rooms: RoomIndex<C>, room: string, id: string, c: C, r: string, u: string, d: C)
    ensures IsMember(Leave(rooms, room, id, c), r, u, d)
       <==> IsMember(rooms, r, u, d) && !(r == room && u == id && d == c)
    ensures WellFormed(rooms) ==> WellFormed(Leave(rooms, room, id, c))
  {
    if IsMember(rooms, room, id, c) {
      var members := rooms[room] - {id};
      if |members| == 0 {
        assert members == map[];
        assert forall v | v in rooms[room] :: v == id || v in members;
      }
    }
  }

  /** users names the members of room once each, its owner (named like the room) first. */
  predicate Lists(users: seq<string>, members: set<string>, room: string) {
    && Enumerates(users, members)
    && (room in members ==> |users| > 0 && users[0] == room)
  }
}
