/** The handlers and the consumer that tie sessions, rooms, queues and the sender together. */
module Connectsvc {
  import opened MachineInts
  import opened MapOrders
  import opened SessionIndex
  import opened Sessions
  import opened RoomQueues
  import PlainRpc

  datatype Chat = Chat(roomId: string, content: string, nickname: string, level: int64)

  method HandleEnterRoom(c: Client, roomM: RoomManager, roomId: string, level: int)
    requires roomM.Valid()
    modifies roomM, c`roomId, c`level
    ensures roomM.Valid()
    ensures c.level == level && c.roomId == if roomId == "" then old(c.roomId) else roomId
    ensures roomId == "" ==> roomM.clients == old(roomM.clients)
    ensures roomId != "" ==> forall room, id, d ::
              IsMember(roomM.clients, room, id, d) <==>
                if room == roomId && id == c.ID then d == c else IsMember(old(roomM.clients), room, id, d)
  {
    roomM.ClientIn(c, roomId);
    c.level := level;
  }

  /**
    A chat message is queued for the room its sender is in once it has been handled; a chat that
    names another room makes the sender enter that room first.
   */
  method HandleMsg(c: Client, roomM: RoomManager, group: MessageQueueGroup, chat: Chat, messageId: string, now: int64)
    requires roomM.Valid() && group.Valid()
    modifies roomM, c`roomId, group, group.group.Values
    ensures roomM.Valid() && group.Valid()
    ensures c.roomId == if chat.roomId != "" then chat.roomId else old(c.roomId)
    ensures chat.roomId != "" && chat.roomId != old(c.roomId) ==> forall room, id, d ::
              IsMember(roomM.clients, room, id, d) <==>
                if room == chat.roomId && id == c.ID then d == c else IsMember(old(roomM.clients), room, id, d)
    ensures c.roomId == old(c.roomId) ==> roomM.clients == old(roomM.clients)
    ensures var msg := Message(messageId, c.roomId, c.ID, chat.nickname, now, Wrap32(chat.level), 1,
                               map["content" := chat.content]);
            var before := old(group.Queues());
            group.Queues() ==
              before[c.roomId := Enqueue(if c.roomId in before then before[c.roomId] else [], msg, 100)]
  {
    var roomId := c.roomId;
    if chat.roomId != "" && chat.roomId != roomId {
      roomId := chat.roomId;
      roomM.ClientIn(c, roomId);
    }
    assert group.Queues() == old(group.Queues());
    group.Add(Message(messageId, roomId, c.ID, chat.nickname, now, Wrap32(chat.level), 1,
                      map["content" := chat.content]));
  }

  /**
    One tick: all rooms are drained into a batch, and the batch is sent unless it is empty. With
    no server address the send panics and the batch is gone; the panic is recovered here.
   */
  method Consume(group: MessageQueueGroup, rpc: PlainRpc.RpcClient, order: seq<string>,
                 encode: seq<Message> -> Bytes, fortunes: seq<PlainRpc.Fortune>)
    returns (batch: seq<Message>, ok: bool)
    requires group.Valid() && rpc.Valid() && Enumerates(order, group.group.Keys) && |fortunes| == 3
    modifies group.group.Values, rpc
    ensures group.Valid() && rpc.Valid()
    ensures var d := DrainAll(old(group.Queues()), order, [], 10000);
            group.Queues() == d.queues && batch == d.batch
    ensures batch == [] ==> ok && unchanged(rpc)
    ensures batch != [] && old(rpc.availableAddresses) == [] ==> !ok && unchanged(rpc)
    ensures batch != [] && old(rpc.availableAddresses) != [] ==>
              rpc.State(PlainRpc.Finished(encode(batch), rpc.availableAddresses, ok))
              == PlainRpc.Attempts(
                   PlainRpc.Apply(old(rpc.State(PlainRpc.Idle)), PlainRpc.Begin(encode(batch), 3)),
                   fortunes)
  {
    var restCount;
    batch, restCount := group.DrainTo([], MAX_BATCH, order);
    if batch == [] {
      return batch, true;
    }
    if rpc.availableAddresses == [] {
      return batch, false;
    }
    ok := rpc.TrySend(encode(batch), PlainRpc.RETRIES, fortunes);
  }
}
