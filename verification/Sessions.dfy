/** The objects behind the protocol: sessions, their registry, and the rooms. */
module Sessions {
  import opened MachineInts
  import opened SessionIndex
  import opened Pconnector

  /** The counter of logged-in sessions. */
  class Info {
    var loginUsers: int

    constructor ()
      ensures loginUsers == 0
    {
      loginUsers := 0;
    }
  }

  class Client {
    const ID: string
    var roomId: string
    var level: int
    var version: int
    var queue: seq<ToClientMessage>
    var q: bool
    var stopped: bool

    constructor (id: string, info: Info)
      modifies info
      ensures ID == id && roomId == "" && level == 0 && version == 0 && queue == [] && !q && !stopped
      ensures info.loginUsers == Wrap32(old(info.loginUsers) + 1)
    {
      ID := id;
      roomId := "";
      level := 0;
      version := 0;
      queue := [];
      q := false;
      stopped := false;
      new;
      info.loginUsers := Wrap32(info.loginUsers + 1);
    }

    method Close()
      modifies this`stopped
      ensures stopped
    {
      stopped := true;
    }

    method ServerHello(hello: ToClientMessage)
      modifies this`queue
      ensures queue == old(queue) + [hello]
    {
      queue := queue + [hello];
    }

    /** Give up the current room, the registration if it is still this session's, and the login. */
    method Ending(room: RoomManager, clientM: ClientManager, info: Info)
      requires clientM.Valid() && room.Valid()
      modifies this`q, room`clients, clientM`clients, info
      ensures clientM.Valid() && room.Valid()
      ensures room.clients == Leave(old(room.clients), roomId, ID, this)
      ensures clientM.clients == Unregister(old(clientM.clients), ID, this)
      ensures q && info.loginUsers == Wrap32(old(info.loginUsers) - 1)
    {
      room.Ending(roomId, this);
      clientM.RemoveClient(this);
      q := true;
      info.loginUsers := Wrap32(info.loginUsers - 1);
    }
  }

  ghost predicate OwnKeys(clients: Registry<Client>) {
    forall id | id in clients :: clients[id].ID == id
  }

  type Queues = map<string, seq<ToClientMessage>>

  /** The queues of the registered sessions. */
  ghost function QueuesOf(clients: Registry<Client>): Queues
    reads clients.Values`queue
  {
    map id | id in clients :: clients[id].queue
  }

  /** The queues once m has been appended to those of the audience. */
  ghost function Extended(queues: Queues, audience: set<string>, m: ToClientMessage): Queues {
    map id | id in queues :: if id in audience then queues[id] + [m] else queues[id]
  }

  class ClientManager {
    var clients: Registry<Client>

    /** Every session is registered under its own id. */
    ghost predicate Valid()
      reads this
    {
      OwnKeys(clients)
    }

    constructor ()
      ensures Valid() && clients == map[]
    {
      clients := map[];
    }

    /** Admits a newcomer, unless its token is refused: then nothing happens. */
    method ClientIn(id: string, version: int, tokenOk: bool, info: Info) returns (c: Client?)
      requires Valid()
      modifies this, info, (if id in clients then {clients[id]} else {})`stopped
      ensures Valid()
      ensures !tokenOk ==> c == null && unchanged(this) && unchanged(info)
      ensures !tokenOk && id in clients ==> clients[id].stopped == old(clients[id].stopped)
      ensures tokenOk ==>
                && c != null && fresh(c)
                && c.ID == id && c.version == version && c.queue == [] && c.roomId == "" && !c.stopped && !c.q
                && clients == old(clients)[id := c]
                && (old(id in clients) ==> old(clients)[id].stopped)
                && info.loginUsers == Wrap32(old(info.loginUsers) + 1)
    {
      if !tokenOk {
        return null;
      }
      if id in clients {
        clients[id].Close();
      }
      var t := new Client(id, info);
      t.version := version;
      clients := clients[id := t];
      c := t;
    }

    method RemoveClient(c: Client)
      requires Valid()
      modifies this`clients
      ensures Valid() && clients == Unregister(old(clients), c.ID, c)
    {
      if c.ID in clients && clients[c.ID] == c {
        clients := clients - {c.ID};
      }
    }

    method Lookup(id: string) returns (c: Client?)
      ensures if id in clients then c == clients[id] else c == null
    {
      c := if id in clients then clients[id] else null;
    }
  }

  ghost predicate OwnIds(rooms: RoomIndex<Client>) {
    forall room, id | room in rooms && id in rooms[room] :: rooms[room][id].ID == id
  }

  lemma LeaveKeepsOwnIds(rooms: RoomIndex<Client>, room: string, c: Client)
    requires WellFormed(rooms) && OwnIds(rooms)
    ensures var left := Leave(rooms, room, c.ID, c);
            && WellFormed(left) && OwnIds(left)
            && (forall r | r in left && r != room :: r in rooms && left[r] == rooms[r])
            && (forall r | r in rooms && r != room :: r in left)
  {
    LeaveMembers(rooms, room, c.ID, c, "", "", c);
    var left: RoomIndex<Client> := Leave(rooms, room, c.ID, c);
    forall r, id | r in left && id in left[r] ensures left[r][id].ID == id {
      LeaveMembers(rooms, room, c.ID, c, r, id, left[r][id]);
    }
  }

  class RoomManager {
    var clients: RoomIndex<Client>

    /** No empty room, no unnamed room, and members under their own ids. */
    ghost predicate Valid()
      reads this
    {
      WellFormed(clients) && OwnIds(clients)
    }

    constructor ()
      ensures Valid() && clients == map[]
    {
      clients := map[];
    }

    /** Enters c into roomId. Only a previous membership in that same room is given up first. */
    method ClientIn(c: Client, roomId: string)
      requires Valid()
      modifies this, c`roomId
      ensures Valid()
      ensures roomId == "" ==> unchanged(this) && c.roomId == old(c.roomId)
      ensures roomId != "" ==> c.roomId == roomId && IsMember(clients, roomId, c.ID, c)
      ensures roomId != "" ==> forall room, id, d ::
                IsMember(clients, room, id, d) <==>
                  if room == roomId && id == c.ID then d == c else IsMember(old(clients), room, id, d)
    {
      if roomId != "" {
        ghost var before := clients;
        Ending(roomId, c);
        ghost var left := clients;
        if roomId !in clients {
          clients := clients[roomId := map[]];
        }
        if !(c.ID in clients[roomId] && clients[roomId][c.ID] == c) {
          clients := clients[roomId := clients[roomId][c.ID := c]];
        }
        c.roomId := roomId;
        assert clients == Enter(left, roomId, c.ID, c);
        EnterKeepsWellFormed(left, roomId, c.ID, c);
        forall room, id, d: Client
          ensures IsMember(clients, room, id, d) <==>
                    if room == roomId && id == c.ID then d == c else IsMember(before, room, id, d)
        {
          LeaveMembers(before, roomId, c.ID, c, room, id, d);
          EnterMembers(left, roomId, c.ID, c, room, id, d);
        }
      }
    }

    method Ending(roomId: string, c: Client)
      requires Valid()
      modifies this`clients
      ensures Valid() && clients == Leave(old(clients), roomId, c.ID, c)
    {
      LeaveKeepsOwnIds(clients, roomId, c);
      if roomId in clients && c.ID in clients[roomId] && clients[roomId][c.ID] == c {
        var members := clients[roomId] - {c.ID};
        if |members| == 0 {
          clients := clients - {roomId};
        } else {
          clients := clients[roomId := members];
        }
      }
    }
  }
}
