/** The router's message, and the message object that one delivery shares between its recipients. */
module Pconnector {
  import opened Wrappers
  import opened MachineInts

  datatype FromRouterMessage = FromRouterMessage(
    messageId: string,
    time: int,
    timeText: string,
    toUserId: string,
    toRoomId: string,
    params: map<string, string>)

  class ToClientMessage {
    const messageId: string
    const toUserId: string
    const toRoomId: string
    const params: map<string, string>
    const time: int
    const timeText: string
    const userId: string
    const roomId: string
    const content: string
    const importance: int
    var serializedBytes: Option<Bytes>

    /** Carries everything over and leaves the importance at its default. */
    constructor Convert(m: FromRouterMessage)
      ensures IsConvertedFrom(m) && serializedBytes == None
    {
      messageId := m.messageId;
      toUserId := m.toUserId;
      toRoomId := m.toRoomId;
      params := m.params;
      time := m.time;
      timeText := m.timeText;
      userId := m.toUserId;
      roomId := m.toRoomId;
      content := if "content" in m.params then m.params["content"] else "";
      importance := 0;
      serializedBytes := None;
    }

    predicate IsConvertedFrom(m: FromRouterMessage) {
      && messageId == m.messageId && time == m.time && timeText == m.timeText && params == m.params
      && toUserId == userId == m.toUserId && toRoomId == roomId == m.toRoomId
      && content == (if "content" in m.params then m.params["content"] else "")
      && importance == 0
    }

    /**
      The bytes to push: the cached ones, or else those made from json, the message's own JSON
      (None when that cannot be produced, which caches nothing).
     */
    method Marshal(json: Option<Bytes>, compress: Bytes -> Bytes) returns (bytes: Option<Bytes>)
      modifies this`serializedBytes
      ensures old(serializedBytes) != None ==> bytes == serializedBytes == old(serializedBytes)
      ensures old(serializedBytes) == None && json == None ==> bytes == serializedBytes == None
      ensures old(serializedBytes) == None && json != None ==>
                bytes == serializedBytes == Some([1] + compress(json.value))
    {
      bytes := serializedBytes;
      if bytes == None && json != None {
        serializedBytes := Some([1] + compress(json.value));
        bytes := serializedBytes;
      }
    }
  }

  /** A marker byte and the compressed JSON. */
  function Serialized(json: Bytes, compress: Bytes -> Bytes): Bytes {
    [1] + compress(json)
  }
}
