/** The message structures a heartbeat handler reads and writes: a header whose
    `msgType` and `code` classify the message, and an opaque body. */
module Struct {

  /** One byte of an opaque message body. */
  newtype byte = x: int | 0 <= x < 256

  /** The integer values of MessageType.REQUEST / RESPONSE and of
      MessageCode.HEARTBEAT_REQ / HEARTBEAT_RESP. Their concrete values are not
      part of this model, so every operation takes them as a parameter. */
  datatype Codes = Codes(request: int, response: int, heartbeatReq: int, heartbeatResp: int)

  /** A message header. `others` stands for every header field besides the type
      and the code; the handler never reads or changes them. */
  datatype Header = Header(msgType: int, code: int, others: seq<int>)

  datatype Message = Message(header: Header, body: seq<byte>)

  /** The header `h` with its type and code overwritten (Header.setType(..).setCode(..)). */
  function Stamp(h: Header, msgType: int, code: int): Header {
    h.(msgType := msgType, code := code)
  }

  /** A heartbeat message as the handler builds it: a stamped header and no body. */
  function Heartbeat(h: Header, msgType: int, code: int): Message {
    Message(Stamp(h, msgType, code), [])
  }

  predicate IsPing(c: Codes, m: Message) {
    m.header.code == c.heartbeatReq
  }

  predicate IsPong(c: Codes, m: Message) {
    m.header.code == c.heartbeatResp
  }

  /** A message the heartbeat layer consumes instead of passing on. */
  predicate IsHeartbeat(c: Codes, m: Message) {
    IsPing(c, m) || IsPong(c, m)
  }

  /** A PING or a PONG exactly as the handler writes them: right type for the
      code, and an empty body. */
  predicate IsOutgoingHeartbeat(c: Codes, m: Message) {
    && m.body == []
    && ((m.header.msgType == c.request && m.header.code == c.heartbeatReq)
        || (m.header.msgType == c.response && m.header.code == c.heartbeatResp))
  }
}
