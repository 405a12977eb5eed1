/** The delivery of one router message, undisturbed: who gets it, and how often. */
module FanOut {
  import opened MapOrders
  import opened SessionIndex
  import opened Pconnector
  import opened Sessions

  class Service {
    const clientM: ClientManager
    const roomM: RoomManager

    constructor (clientM: ClientManager, roomM: RoomManager)
      ensures this.clientM == clientM && this.roomM == roomM
    {
      this.clientM := clientM;
      this.roomM := roomM;
    }

    method HelloTo(client: Client, m: ToClientMessage)
      requires clientM.Valid() && client.ID in clientM.clients && clientM.clients[client.ID] == client
      modifies client`queue
      ensures QueuesOf(clientM.clients) == Extended(old(QueuesOf(clientM.clients)), {client.ID}, m)
    {
      client.ServerHello(m);
    }

    method DeliverToSingleClient(userId: string, m: ToClientMessage)
      requires clientM.Valid()
      modifies clientM.clients.Values`queue
      ensures QueuesOf(clientM.clients) == Extended(old(QueuesOf(clientM.clients)), {userId}, m)
    {
      var client := clientM.Lookup(userId);
      if client != null {
        HelloTo(client, m);
      }
    }

    method DeliverToUser(message: FromRouterMessage) returns (m: ToClientMessage)
      requires clientM.Valid()
      modifies clientM.clients.Values`queue
      ensures fresh(m) && m.IsConvertedFrom(message)
      ensures QueuesOf(clientM.clients) == Extended(old(QueuesOf(clientM.clients)), {message.toUserId}, m)
    {
      m := new ToClientMessage.Convert(message);
      DeliverToSingleClient(message.toUserId, m);
    }

    /** The members of a room, its owner first, each once; order is the map's iteration order. */
    method UserIds(members: map<string, Client>, roomId: string, order: seq<string>) returns (userIds: seq<string>)
      requires Enumerates(order, members.Keys)
      ensures Lists(userIds, members.Keys, roomId)
      ensures |userIds| == |members| && forall id | id in members :: id in userIds
      ensures roomId in members ==> userIds[0] == roomId
    {
      userIds := [];
      if roomId in members {
        userIds := [roomId];
      }
      for i := 0 to |order|
        invariant NoDuplicates(userIds)
        invariant roomId in members ==> |userIds| > 0 && userIds[0] == roomId
        invariant forall u :: u in userIds <==> u in order[..i] || (u == roomId && u in members)
      {
        assert order[..i + 1] == order[..i] + [order[i]];
        if order[i] != roomId {
          assert order[i] !in order[..i];
          assert order[i] !in userIds;
          userIds := userIds + [order[i]];
        }
      }
      assert order[..|order|] == order;
      OnceEach(userIds, members.Keys);
    }

    /** Delivers one object to each of the users that has a session. */
    method DeliverToEach(userIds: seq<string>, m: ToClientMessage)
      requires clientM.Valid() && NoDuplicates(userIds)
      modifies clientM.clients.Values`queue
      ensures QueuesOf(clientM.clients) == Extended(old(QueuesOf(clientM.clients)), Elements(userIds), m)
    {
      ghost var before := QueuesOf(clientM.clients);
      for i := 0 to |userIds|
        invariant QueuesOf(clientM.clients) == Extended(before, Elements(userIds[..i]), m)
      {
        OneMoreUser(before, userIds, i, m);
        DeliverToSingleClient(userIds[i], m);
      }
      assert userIds[..|userIds|] == userIds;
    }

    method DeliverToRoom(message: FromRouterMessage, order: seq<string>) returns (m: ToClientMessage)
      requires clientM.Valid()
      requires message.toRoomId in roomM.clients ==> Enumerates(order, roomM.clients[message.toRoomId].Keys)
      modifies clientM.clients.Values`queue
      ensures fresh(m) && m.IsConvertedFrom(message)
      ensures QueuesOf(clientM.clients) ==
              Extended(old(QueuesOf(clientM.clients)), MemberKeys(roomM.clients, message.toRoomId), m)
    {
      ghost var before := QueuesOf(clientM.clients);
      m := new ToClientMessage.Convert(message);
      if message.toRoomId in roomM.clients {
        var userIds := UserIds(roomM.clients[message.toRoomId], message.toRoomId, order);
        assert Elements(userIds) == MemberKeys(roomM.clients, message.toRoomId);
        DeliverToEach(userIds, m);
      }
    }

    /** Delivers one object to every registered session. */
    method HelloToAll(order: seq<string>, m: ToClientMessage)
      requires clientM.Valid() && Enumerates(order, clientM.clients.Keys)
      modifies clientM.clients.Values`queue
      ensures QueuesOf(clientM.clients) == Extended(old(QueuesOf(clientM.clients)), clientM.clients.Keys, m)
    {
      ghost var before := QueuesOf(clientM.clients);
      for i := 0 to |order|
        invariant QueuesOf(clientM.clients) == Extended(before, Elements(order[..i]), m)
      {
        assert order[..i + 1] == order[..i] + [order[i]];
        assert order[i] !in order[..i];
        assert Elements(order[..i + 1]) == Elements(order[..i]) + {order[i]};
        ExtendedTwice(before, Elements(order[..i]), order[i], m);
        HelloTo(clientM.clients[order[i]], m);
      }
      assert order[..|order|] == order;
      assert Elements(order) == clientM.clients.Keys;
    }

    method DeliverToWorld(message: FromRouterMessage, order: seq<string>) returns (m: ToClientMessage)
      requires clientM.Valid() && Enumerates(order, clientM.clients.Keys)
      modifies clientM.clients.Values`queue
      ensures fresh(m) && m.IsConvertedFrom(message)
      ensures QueuesOf(clientM.clients) == Extended(old(QueuesOf(clientM.clients)), clientM.clients.Keys, m)
    {
      m := new ToClientMessage.Convert(message);
      HelloToAll(order, m);
    }

    /** The part of the delivery that the addressed user causes. */
    method HandleUser(message: FromRouterMessage) returns (toUser: ToClientMessage?)
      requires clientM.Valid()
      modifies clientM.clients.Values`queue
      ensures toUser != null <==> message.toUserId != ""
      ensures toUser != null ==> fresh(toUser) && toUser.IsConvertedFrom(message)
      ensures forall id | id in clientM.clients ::
                QueuesOf(clientM.clients)[id] == old(QueuesOf(clientM.clients))[id]
                  + (if toUser != null && id == message.toUserId then [toUser] else [])
    {
      toUser := null;
      if message.toUserId != "" {
        toUser := DeliverToUser(message);
      }
    }

    /** The part of the delivery that the addressed room, or the world, causes. */
    method HandleRoom(message: FromRouterMessage, order: seq<string>) returns (toRoom: ToClientMessage?)
      requires clientM.Valid() && roomM.Valid()
      requires message.toRoomId == "world" ==> Enumerates(order, clientM.clients.Keys)
      requires message.toRoomId != "world" && message.toRoomId in roomM.clients ==>
                 Enumerates(order, roomM.clients[message.toRoomId].Keys)
      modifies clientM.clients.Values`queue
      ensures toRoom != null <==> message.toRoomId != ""
      ensures toRoom != null ==> fresh(toRoom) && toRoom.IsConvertedFrom(message)
      ensures forall id | id in clientM.clients ::
                QueuesOf(clientM.clients)[id] == old(QueuesOf(clientM.clients))[id]
                  + (if toRoom != null && InAudience(message.toRoomId, id) then [toRoom] else [])
    {
      toRoom := null;
      if message.toRoomId == "world" {
        toRoom := DeliverToWorld(message, order);
      } else if message.toRoomId != "" {
        toRoom := DeliverToRoom(message, order);
      }
    }

    /**
      Delivers one router message. A registered session gets it once for being the addressed
      user, and once for being addressed by the world or for its user id being a key of the
      addressed room, in that order; nothing else happens. The two are different objects.
     */
    method HandleSubscription(message: FromRouterMessage, order: seq<string>)
      returns (toUser: ToClientMessage?, toRoom: ToClientMessage?)
      requires clientM.Valid() && roomM.Valid()
      requires message.toRoomId == "world" ==> Enumerates(order, clientM.clients.Keys)
      requires message.toRoomId != "world" && message.toRoomId in roomM.clients ==>
                 Enumerates(order, roomM.clients[message.toRoomId].Keys)
      modifies clientM.clients.Values`queue
      ensures toUser != null <==> message.toUserId != ""
      ensures toRoom != null <==> message.toRoomId != ""
      ensures toUser != null ==> fresh(toUser) && toUser.IsConvertedFrom(message)
      ensures toRoom != null ==> fresh(toRoom) && toRoom.IsConvertedFrom(message) && toRoom != toUser
      ensures forall id | id in clientM.clients ::
                clientM.clients[id].queue == old(clientM.clients[id].queue)
                  + (if toUser != null && id == message.toUserId then [toUser] else [])
                  + (if toRoom != null
                        && (message.toRoomId == "world"
                            || (message.toRoomId in roomM.clients && id in roomM.clients[message.toRoomId]))
                     then [toRoom] else [])
    {
      toUser := HandleUser(message);
      toRoom := HandleRoom(message, order);
    }

    /** Whether a message to this room reaches the registered session of this user. */
    predicate InAudience(roomId: string, userId: string)
      reads roomM
    {
      roomId == "world" || userId in MemberKeys(roomM.clients, roomId)
    }
  }

  lemma {:induction false} OnceEach(ids: seq<string>, keys: set<string>)
    requires Enumerates(ids, keys)
    ensures |ids| == |keys|
  {
    if ids == [] {
      assert keys == {};
    } else {
      WithoutOne(ids, 0, keys);
      OnceEach(ids[..0] + ids[1..], keys - {ids[0]});
    }
  }

  lemma ExtendedTwice(queues: Queues, audience: set<string>, id: string, m: ToClientMessage)
    requires id !in audience
    ensures Extended(Extended(queues, audience, m), {id}, m) == Extended(queues, audience + {id}, m)
  {
  }

  lemma OneMoreUser(queues: Queues, userIds: seq<string>, i: nat, m: ToClientMessage)
    requires NoDuplicates(userIds) && i < |userIds|
    ensures Extended(Extended(queues, Elements(userIds[..i]), m), {userIds[i]}, m)
         == Extended(queues, Elements(userIds[..i + 1]), m)
  {
    assert userIds[..i + 1] == userIds[..i] + [userIds[i]];
    assert userIds[i] !in userIds[..i];
    ExtendedTwice(queues, Elements(userIds[..i]), userIds[i], m);
    assert Elements(userIds[..i + 1]) == Elements(userIds[..i]) + {userIds[i]};
  }

  function MemberKeys(rooms: RoomIndex<Client>, roomId: string): set<string> {
    if roomId in rooms then rooms[roomId].Keys else {}
  }
}
