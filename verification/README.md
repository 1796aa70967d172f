# Cynomys heartbeat handler, modelled in Dafny

This project models the heartbeat handler of the Cynomys monitoring transport
(`HeartbeatHandler`). One handler sits on each connection between a monitoring
agent and its collector, and does four things:

- It answers every PING it reads (a message whose code is `HEARTBEAT_REQ`)
  with a PONG: type `RESPONSE`, code `HEARTBEAT_RESP`.
- It reads a PONG and only observes it.
- It passes every other message on to the next handler, unchanged.
- `ping` sends a PING: type `REQUEST`, code `HEARTBEAT_REQ`.

Every PING or PONG the handler writes increments the heartbeat counter. Each
idle event runs one of three hooks: reader idle, writer idle or all idle.

The model is functional. The connection is reduced to what the handler can
observe, the record `Conn(counter, written, forwarded, idleLog)`:

- `counter`: the heartbeat counter.
- `written`: the messages written to the peer.
- `forwarded`: the messages passed on to the next handler.
- `idleLog`: the idle hooks that have run.

Each handler entry point is a pure function from one `Conn` to the next.
`Pipeline` hands a sequence of events to the handler in arrival order. It
states what a whole run does against independent reference definitions:

- the non-heartbeat messages read, in order;
- the number of PINGs read;
- the number of `ping` calls;
- the idle states reported.

Files:

- `struct.dfy` (module `Struct`): headers, messages, and the message type and
  code values. `Header` and `Message` are defined elsewhere in the repository,
  outside the code this project models. The values are not fixed: every
  operation takes them as a `Codes` parameter. The one property that needs the
  two heartbeat codes to differ requires it.
- `heartbeat_handler.dfy` (module `HeartbeatHandler`): `channelRead0`, `ping`,
  `pong`, `userEventTriggered` and the three default idle hooks.
- `pipeline.dfy` (module `Pipeline`): the event loop that drives the handler,
  the reference definitions, and the properties of a run.

`customHeader()` is abstract in the source. Subclasses supply it. In the model
it is an input. A single step takes the `Header` it returns. A run takes a
function `custom: nat -> Header`, and the k-th header built on the connection
is `custom(k)`. The handler overwrites only the type and the code of that
header and keeps every other field.

## Model

| member | source | states |
|---|---|---|
| HeartbeatHandler.Ping | cynomys-net/src/main/java/cn/howardliu/monitor/cynomys/net/handler/HeartbeatHandler.java:49-62 | writes exactly one message with type REQUEST, code HEARTBEAT_REQ and an empty body. That message keeps the other fields of the custom header, whatever its type and code were. Earlier writes are unchanged, the counter grows by one, and nothing is passed on |
| HeartbeatHandler.Pong | cynomys-net/src/main/java/cn/howardliu/monitor/cynomys/net/handler/HeartbeatHandler.java:64-76 | writes exactly one message with type RESPONSE, code HEARTBEAT_RESP and the other fields of the custom header. The counter grows by one, and nothing is passed on |
| HeartbeatHandler.ChannelRead | cynomys-net/src/main/java/cn/howardliu/monitor/cynomys/net/handler/HeartbeatHandler.java:32-47 | a PING is not passed on, and exactly one message is written: the PONG built on the custom header (type RESPONSE, code HEARTBEAT_RESP, its other fields kept, no body), with the counter up by one. A PONG (that is not also a PING) changes nothing. Any other message is passed on once, unchanged, with nothing written and the counter unchanged. No idle hook runs |
| HeartbeatHandler.PingPongExchange | cynomys-net/src/main/java/cn/howardliu/monitor/cynomys/net/handler/HeartbeatHandler.java:32-76 | with distinct heartbeat codes, one full exchange (ping, the peer reads it, the local side reads the PONG) writes exactly one PING locally and one PONG at the peer. Each counter grows by one, and neither side passes anything on |
| HeartbeatHandler.HandleReaderIdle | cynomys-net/src/main/java/cn/howardliu/monitor/cynomys/net/handler/HeartbeatHandler.java:107-109 | the default reader-idle hook writes nothing, passes nothing on and leaves the counter unchanged; it only records that it ran |
| HeartbeatHandler.HandleWriterIdle | cynomys-net/src/main/java/cn/howardliu/monitor/cynomys/net/handler/HeartbeatHandler.java:111-113 | the default writer-idle hook writes nothing, passes nothing on and leaves the counter unchanged; it only records that it ran |
| HeartbeatHandler.HandleAllIdle | cynomys-net/src/main/java/cn/howardliu/monitor/cynomys/net/handler/HeartbeatHandler.java:115-117 | the default all-idle hook writes nothing, passes nothing on and leaves the counter unchanged; it only records that it ran |
| HeartbeatHandler.UserEventTriggered | cynomys-net/src/main/java/cn/howardliu/monitor/cynomys/net/handler/HeartbeatHandler.java:80-99 | an idle event appends one hook to the log, and it is the hook that handles the event's state. A non-idle event changes nothing. Messages and counter are never touched |
| HeartbeatHandler.IdleRoutesToExactlyOneHook | cynomys-net/src/main/java/cn/howardliu/monitor/cynomys/net/handler/HeartbeatHandler.java:83-98 | an idle event runs exactly one hook, and a hook runs if and only if it handles the reported state |
| Pipeline.Step | cynomys-net/src/main/java/cn/howardliu/monitor/cynomys/net/handler/HeartbeatHandler.java:32-99 | one event passes on exactly the non-heartbeat message it reads, if any. A ping call writes exactly one REQUEST/HEARTBEAT_REQ message built on the custom header, a PING read writes exactly one RESPONSE/HEARTBEAT_RESP message built on it, and any other event writes nothing. A user event does what userEventTriggered does, and no other event runs an idle hook. The counter grows by one per message written, and earlier history is kept |
| Pipeline.Run | cynomys-net/src/main/java/cn/howardliu/monitor/cynomys/net/handler/HeartbeatHandler.java:32-99 | over any event sequence, the counter grows by exactly as much as the number of messages written. Histories only grow, and everything written is an outgoing heartbeat |
| Pipeline.RunWritten | cynomys-net/src/main/java/cn/howardliu/monitor/cynomys/net/handler/HeartbeatHandler.java:32-76 | the messages written during a run are, in event order, one REQUEST/HEARTBEAT_REQ per ping call and one RESPONSE/HEARTBEAT_RESP per PING read. The k-th message written on the connection is built on the k-th custom header |
| Pipeline.RunFromInitial | cynomys-net/src/main/java/cn/howardliu/monitor/cynomys/net/handler/HeartbeatHandler.java:32-76 | from a fresh connection, the counter equals the number of messages written, which is the number of PINGs read plus ping calls. What is written and what is passed on are fixed by the events and the custom headers alone |
| Pipeline.RunForwarded | cynomys-net/src/main/java/cn/howardliu/monitor/cynomys/net/handler/HeartbeatHandler.java:32-47 | the messages passed on during a run equal the messages read, filtered to non-heartbeat codes, in arrival order |
| Pipeline.RunForwardsNoHeartbeat | cynomys-net/src/main/java/cn/howardliu/monitor/cynomys/net/handler/HeartbeatHandler.java:36-46 | no message passed on during a run carries a heartbeat code, and each one was read during the run |
| Pipeline.RunCounter | cynomys-net/src/main/java/cn/howardliu/monitor/cynomys/net/handler/HeartbeatHandler.java:32-76 | the counter grows by exactly the number of PINGs read plus the number of ping calls |
| Pipeline.RunIdleHooks | cynomys-net/src/main/java/cn/howardliu/monitor/cynomys/net/handler/HeartbeatHandler.java:80-99 | the hooks that ran are, one for one and in order, the hooks that handle the idle states reported |
| Pipeline.ReadAll | cynomys-net/src/main/java/cn/howardliu/monitor/cynomys/net/handler/HeartbeatHandler.java:32-76 | reading a sequence of messages passes on exactly its non-heartbeat messages, in order. It writes one PONG per PING and nothing else, grows the counter by the number of PINGs, and runs no idle hook |
| Pipeline.ReadsWritesPongs | cynomys-net/src/main/java/cn/howardliu/monitor/cynomys/net/handler/HeartbeatHandler.java:36-38 | when only messages are read, every message written is a RESPONSE/HEARTBEAT_RESP |
| Pipeline.AppMessagesAppend | cynomys-net/src/main/java/cn/howardliu/monitor/cynomys/net/handler/HeartbeatHandler.java:44-46 | filtering commutes with concatenation, so messages that arrive later are passed on later |
| Pipeline.AppMessagesMembership | cynomys-net/src/main/java/cn/howardliu/monitor/cynomys/net/handler/HeartbeatHandler.java:36-46 | a message is passed on if and only if it was read and is not a heartbeat |
| Pipeline.AppMessagesMultiplicity | cynomys-net/src/main/java/cn/howardliu/monitor/cynomys/net/handler/HeartbeatHandler.java:36-46 | each non-heartbeat message is passed on exactly as many times as it was read, and a heartbeat never is |
| Pipeline.Replay | cynomys-net/src/main/java/cn/howardliu/monitor/cynomys/net/handler/HeartbeatHandler.java:32-99 | delivering events one by one in a loop gives the state of `Run`. The messages passed on are the filtered inbound messages, and the counter and the number of messages written both grow by PINGs read plus ping calls |

## Left out

- Netty integration: the channel context, `writeAndFlush`, `fireChannelRead` and remote addresses. Writing and passing on are appends to `written` and `forwarded`.
- `super.userEventTriggered`: the model does not record that the event is also passed down the pipeline.
- `exceptionCaught`: it only delegates to the superclass and logs.
- Logging, and the handler's `name` field: they have no effect on state. Running an idle hook is recorded in `idleLog`, which stands for the hook's warning log line.
- The `assert message != null` and `message.getHeader() != null` checks (HeartbeatHandler.java:33-34): a Dafny datatype value is never null. Java runs these asserts only when the JVM is started with `-ea`. By default a message without a header is not stopped there: it throws at line 36, the exception goes to `exceptionCaught`, and the message is neither answered nor passed on. The model has no header-less message.
- The `default` branch of the idle-state switch: Netty's idle state has exactly the three values modelled, so that branch cannot be reached.
- Heartbeat counter atomicity and process-wide sharing: the counter is a plain, unbounded natural number owned by one handler, and steps are sequential. Its declaration, including its width, is not part of this model.
- Subclass overrides of the idle hooks: only the default hooks are modelled. A subclass that pings on idleness is modelled as a `SendPing` event.
- Message bodies: a heartbeat is built without a body, which the model represents as an empty body.
- The wire format (encoding and decoding) and the full layout of `Header`: their classes are not part of this model, and the fields other than type and code are an opaque sequence.
- The client manager, client connection and reconnection (exercised by `CynomysClientManagerTest.java`): blocking network I/O whose implementation classes are not part of this model.
- `MonitorAgent.premain`: JVM instrumentation bootstrap.
- A type test on PINGs, and a PING sent from an idle hook: neither exists in the handler. It answers any message whose code is the PING code, whatever its type (HeartbeatHandler.java:36). The default writer-idle and all-idle hooks only log and send no PING (HeartbeatHandler.java:111-117).
- `customHeader()` is assumed to return a header, and no two messages share it. The source stamps the type and code onto whatever object it returns (HeartbeatHandler.java:53-55, 68-70), so a subclass that returns the same object each time would re-stamp a message already handed to `writeAndFlush`; the model treats each header as an immutable value. It is abstract (HeartbeatHandler.java:78), so a subclass may return null or throw. Then `ping` or `pong` fails before anything is written and before the counter is incremented. For a PING that was read, the exception goes to `exceptionCaught`, and the PING is neither answered nor passed on. The one-PONG-and-one-increment-per-PING properties hold only for a `customHeader()` that returns.
