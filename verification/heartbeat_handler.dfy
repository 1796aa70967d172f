/** The per-connection heartbeat handler: answers a PING with a PONG, observes a
    PONG, passes every other message on, sends a PING on request, and routes
    idle events to one of three hooks.

    The connection the handler acts on is abstracted to what it can observe:
    the heartbeat counter, the messages written to the peer, the messages
    forwarded to the next handler, and the idle hooks that fired. */
module HeartbeatHandler {
  import opened Struct

  /** The three states an idle event can report. */
  datatype IdleState = ReaderIdle | WriterIdle | AllIdle

  /** A user event: an idle event carrying its state, or any other event. */
  datatype UserEvent = IdleStateEvent(state: IdleState) | OtherEvent

  /** The idle hooks; each entry of `idleLog` records one of them running. */
  datatype Hook = ReaderIdleHook | WriterIdleHook | AllIdleHook

  /** What a connection's handler has done so far. */
  datatype Conn = Conn(counter: nat, written: seq<Message>, forwarded: seq<Message>, idleLog: seq<Hook>)

  const Initial: Conn := Conn(0, [], [], [])

  /** The hook that is meant to handle idle state `st`, stated as a relation
      independent of the routing in UserEventTriggered. */
  predicate Handles(h: Hook, st: IdleState) {
    match h
    case ReaderIdleHook => st == ReaderIdle
    case WriterIdleHook => st == WriterIdle
    case AllIdleHook => st == AllIdle
  }

  /** Writes `m` to the peer and counts it as a heartbeat sent. */
  function Send(s: Conn, m: Message): Conn {
    s.(written := s.written + [m], counter := s.counter + 1)
  }

  /** ping(ctx): writes one REQUEST / HEARTBEAT_REQ message built on the custom
      header, and increments the counter. */
  function Ping(c: Codes, s: Conn, custom: Header): (t: Conn)
    ensures |t.written| == |s.written| + 1 && t.written[..|s.written|] == s.written
    ensures t.written[|s.written|].header.msgType == c.request
    ensures t.written[|s.written|].header.code == c.heartbeatReq
    ensures t.written[|s.written|].header.others == custom.others
    ensures IsOutgoingHeartbeat(c, t.written[|s.written|])
    ensures t.counter == s.counter + 1
    ensures t.forwarded == s.forwarded && t.idleLog == s.idleLog
  {
    Send(s, Heartbeat(custom, c.request, c.heartbeatReq))
  }

  /** pong(ctx): writes one RESPONSE / HEARTBEAT_RESP message built on the
      custom header, and increments the counter. */
  function Pong(c: Codes, s: Conn, custom: Header): (t: Conn)
    ensures |t.written| == |s.written| + 1 && t.written[..|s.written|] == s.written
    ensures t.written[|s.written|].header.msgType == c.response
    ensures t.written[|s.written|].header.code == c.heartbeatResp
    ensures t.written[|s.written|].header.others == custom.others
    ensures IsOutgoingHeartbeat(c, t.written[|s.written|])
    ensures t.counter == s.counter + 1
    ensures t.forwarded == s.forwarded && t.idleLog == s.idleLog
  {
    Send(s, Heartbeat(custom, c.response, c.heartbeatResp))
  }

  /** channelRead0(ctx, message): the code decides. A PING is answered with a
      PONG and not passed on; a PONG is only observed; anything else is passed
      on unchanged. The PING test comes first, so if the PING and PONG codes
      coincide, a message carrying that code is answered (the first ensures
      needs only IsPing). */
  function ChannelRead(c: Codes, s: Conn, msg: Message, custom: Header): (t: Conn)
    ensures IsPing(c, msg) ==>
      && t.forwarded == s.forwarded
      && |t.written| == |s.written| + 1 && t.written[..|s.written|] == s.written
      && t.written[|s.written|].header.msgType == c.response
      && t.written[|s.written|].header.code == c.heartbeatResp
      && t.written == s.written + [Heartbeat(custom, c.response, c.heartbeatResp)]
      && t.counter == s.counter + 1
    ensures !IsPing(c, msg) && IsPong(c, msg) ==> t == s
    ensures !IsHeartbeat(c, msg) ==>
      t.forwarded == s.forwarded + [msg] && t.written == s.written && t.counter == s.counter
    ensures t.idleLog == s.idleLog
  {
    if msg.header.code == c.heartbeatReq then
      Pong(c, s, custom)
    else if msg.header.code == c.heartbeatResp then
      s
    else
      s.(forwarded := s.forwarded + [msg])
  }

  /** The default reader-idle hook: it only logs, which the model records. */
  function HandleReaderIdle(s: Conn): (t: Conn)
    ensures t.idleLog == s.idleLog + [ReaderIdleHook]
    ensures t.written == s.written && t.forwarded == s.forwarded && t.counter == s.counter
  {
    s.(idleLog := s.idleLog + [ReaderIdleHook])
  }

  /** The default writer-idle hook: it only logs, which the model records. */
  function HandleWriterIdle(s: Conn): (t: Conn)
    ensures t.idleLog == s.idleLog + [WriterIdleHook]
    ensures t.written == s.written && t.forwarded == s.forwarded && t.counter == s.counter
  {
    s.(idleLog := s.idleLog + [WriterIdleHook])
  }

  /** The default all-idle hook: it only logs, which the model records. */
  function HandleAllIdle(s: Conn): (t: Conn)
    ensures t.idleLog == s.idleLog + [AllIdleHook]
    ensures t.written == s.written && t.forwarded == s.forwarded && t.counter == s.counter
  {
    s.(idleLog := s.idleLog + [AllIdleHook])
  }

  /** userEventTriggered(ctx, event): an idle event runs the hook for its state;
      any other event runs none. */
  function UserEventTriggered(s: Conn, ev: UserEvent): (t: Conn)
    ensures ev.IdleStateEvent? ==>
      |t.idleLog| == |s.idleLog| + 1 && t.idleLog[..|s.idleLog|] == s.idleLog
      && Handles(t.idleLog[|s.idleLog|], ev.state)
    ensures ev.OtherEvent? ==> t == s
    ensures t.written == s.written && t.forwarded == s.forwarded && t.counter == s.counter
  {
    match ev
    case OtherEvent => s
    case IdleStateEvent(st) =>
      match st
      case ReaderIdle => HandleReaderIdle(s)
      case WriterIdle => HandleWriterIdle(s)
      case AllIdle => HandleAllIdle(s)
  }

  /** An idle event runs exactly one hook, and the hooks that ran are exactly
      those that handle its state. */
  lemma IdleRoutesToExactlyOneHook(s: Conn, st: IdleState)
    ensures var t := UserEventTriggered(s, IdleStateEvent(st));
      && |t.idleLog| == |s.idleLog| + 1
      && forall h: Hook :: h in t.idleLog[|s.idleLog|..] <==> Handles(h, st)
  {
  }

  /** One heartbeat exchange between two handlers: the local side pings, the
      peer reads the PING and answers, the local side reads the PONG. Each side
      writes exactly one message and counts it, and neither passes anything on. */
  lemma PingPongExchange(c: Codes, local: Conn, peer: Conn, h1: Header, h2: Header, h3: Header)
    requires c.heartbeatReq != c.heartbeatResp
    ensures var a1 := Ping(c, local, h1);
      var ping := a1.written[|local.written|];
      var b1 := ChannelRead(c, peer, ping, h2);
      var pong := b1.written[|peer.written|];
      var a2 := ChannelRead(c, a1, pong, h3);
      && b1.written == peer.written + [Heartbeat(h2, c.response, c.heartbeatResp)]
      && b1.counter == peer.counter + 1 && b1.forwarded == peer.forwarded
      && a2.written == local.written + [Heartbeat(h1, c.request, c.heartbeatReq)]
      && a2.counter == local.counter + 1 && a2.forwarded == local.forwarded
  {
  }
}
