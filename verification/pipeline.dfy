/** The heartbeat handler driven by its connection: events arrive one at a
    time, in order, and each is handed to the matching handler operation.
    The aggregate behaviour over a run is stated against reference
    definitions: the messages read, filtered to the non-heartbeat ones; the
    number of PINGs read; the number of PINGs sent; the idle states reported. */
module Pipeline {
  import opened Struct
  import opened HeartbeatHandler

  /** An event delivered to the handler: a message read from the peer, a call
      to ping (made by a subclass, typically from an idle hook), or a user event. */
  datatype Event = Read(msg: Message) | SendPing | User(ev: UserEvent)

  /** Hands one event to the handler. `custom` is what customHeader() returns
      if the handler builds a message during this event. */
  function Step(c: Codes, s: Conn, e: Event, custom: Header): (t: Conn)
    ensures t.forwarded == s.forwarded + AppMessages(c, ReadOf(e))
    ensures t.counter == s.counter + CountPings(c, ReadOf(e)) + (if e.SendPing? then 1 else 0)
    ensures e.SendPing? ==> t.written == s.written + [Heartbeat(custom, c.request, c.heartbeatReq)]
    ensures e.Read? && IsPing(c, e.msg) ==>
      t.written == s.written + [Heartbeat(custom, c.response, c.heartbeatResp)]
    ensures !e.SendPing? && !(e.Read? && IsPing(c, e.msg)) ==> t.written == s.written
    ensures e.User? ==> t == UserEventTriggered(s, e.ev)
    ensures !e.User? ==> t.idleLog == s.idleLog
    ensures t.written == s.written + SentBy(c, e, custom)
    ensures t.counter - |t.written| == s.counter - |s.written|
    ensures s.written <= t.written && s.forwarded <= t.forwarded && s.idleLog <= t.idleLog
    ensures forall i :: |s.written| <= i < |t.written| ==> IsOutgoingHeartbeat(c, t.written[i])
  {
    assert forall m: Message :: [m][..0] == [];
    match e
    case Read(m) => ChannelRead(c, s, m, custom)
    case SendPing => Ping(c, s, custom)
    case User(ev) => UserEventTriggered(s, ev)
  }

  /** Hands `events` to the handler in order. The k-th header the handler asks
      for (counting every message written on the connection) is `custom(k)`. */
  function Run(c: Codes, s: Conn, events: seq<Event>, custom: nat -> Header): (t: Conn)
    ensures t.counter - |t.written| == s.counter - |s.written|
    ensures s.written <= t.written && s.forwarded <= t.forwarded && s.idleLog <= t.idleLog
    ensures forall i :: |s.written| <= i < |t.written| ==> IsOutgoingHeartbeat(c, t.written[i])
    decreases |events|
  {
    if |events| == 0 then s
    else
      var p := Run(c, s, events[..|events| - 1], custom);
      Step(c, p, events[|events| - 1], custom(|p.written|))
  }

  // ----- Reference definitions -----

  /** The message an event reads, if any. */
  function ReadOf(e: Event): seq<Message> {
    if e.Read? then [e.msg] else []
  }

  /** The messages read during `events`, in arrival order. */
  function Inbound(events: seq<Event>): seq<Message>
    decreases |events|
  {
    if |events| == 0 then []
    else Inbound(events[..|events| - 1]) + ReadOf(events[|events| - 1])
  }

  /** The messages of `msgs` that are not heartbeats, in order. */
  function AppMessages(c: Codes, msgs: seq<Message>): seq<Message>
    decreases |msgs|
  {
    if |msgs| == 0 then []
    else
      var last := msgs[|msgs| - 1];
      AppMessages(c, msgs[..|msgs| - 1]) + (if IsHeartbeat(c, last) then [] else [last])
  }

  /** How many messages of `msgs` carry the PING code. */
  function CountPings(c: Codes, msgs: seq<Message>): nat
    decreases |msgs|
  {
    if |msgs| == 0 then 0
    else CountPings(c, msgs[..|msgs| - 1]) + (if IsPing(c, msgs[|msgs| - 1]) then 1 else 0)
  }

  /** How many calls to ping occur in `events`. */
  function PingCalls(events: seq<Event>): nat
    decreases |events|
  {
    if |events| == 0 then 0
    else PingCalls(events[..|events| - 1]) + (if events[|events| - 1].SendPing? then 1 else 0)
  }

  /** The idle states reported by the idle events of `events`, in order. */
  function IdleStates(events: seq<Event>): seq<IdleState>
    decreases |events|
  {
    if |events| == 0 then []
    else
      var last := events[|events| - 1];
      IdleStates(events[..|events| - 1])
        + (if last.User? && last.ev.IdleStateEvent? then [last.ev.state] else [])
  }

  /** The heartbeat an event makes the handler write, built on header `h`: a
      PING for a ping call, a PONG for a PING read, nothing otherwise. */
  function SentBy(c: Codes, e: Event, h: Header): seq<Message> {
    if e.SendPing? then [Heartbeat(h, c.request, c.heartbeatReq)]
    else if e.Read? && IsPing(c, e.msg) then [Heartbeat(h, c.response, c.heartbeatResp)]
    else []
  }

  /** The heartbeats written during `events`, in event order, when `base`
      messages were written before: the k-th one overall is built on `custom(k)`. */
  function Sent(c: Codes, events: seq<Event>, base: nat, custom: nat -> Header): seq<Message>
    decreases |events|
  {
    if |events| == 0 then []
    else
      var prev := Sent(c, events[..|events| - 1], base, custom);
      prev + SentBy(c, events[|events| - 1], custom(base + |prev|))
  }

  /** Only inbound messages. */
  function Reads(msgs: seq<Message>): (events: seq<Event>)
    ensures |events| == |msgs|
    ensures forall i :: 0 <= i < |msgs| ==> events[i] == Read(msgs[i])
  {
    seq(|msgs|, i requires 0 <= i < |msgs| => Read(msgs[i]))
  }

  // ----- Properties of the reference definitions -----

  /** Filtering commutes with concatenation: what arrives later is passed on later. */
  lemma {:induction false} AppMessagesAppend(c: Codes, a: seq<Message>, b: seq<Message>)
    ensures AppMessages(c, a + b) == AppMessages(c, a) + AppMessages(c, b)
    decreases |b|
  {
    if |b| == 0 {
      assert a + b == a;
    } else {
      var b' := b[..|b| - 1];
      assert (a + b)[..|a + b| - 1] == a + b';
      assert (a + b)[|a + b| - 1] == b[|b| - 1];
      AppMessagesAppend(c, a, b');
    }
  }

  /** The PING count of a concatenation is the sum of the counts. */
  lemma {:induction false} CountPingsAppend(c: Codes, a: seq<Message>, b: seq<Message>)
    ensures CountPings(c, a + b) == CountPings(c, a) + CountPings(c, b)
    decreases |b|
  {
    if |b| == 0 {
      assert a + b == a;
    } else {
      var b' := b[..|b| - 1];
      assert (a + b)[..|a + b| - 1] == a + b';
      assert (a + b)[|a + b| - 1] == b[|b| - 1];
      CountPingsAppend(c, a, b');
    }
  }

  /** A message is passed on exactly when it arrived and is not a heartbeat. */
  lemma {:induction false} AppMessagesMembership(c: Codes, msgs: seq<Message>, m: Message)
    ensures m in AppMessages(c, msgs) <==> m in msgs && !IsHeartbeat(c, m)
    decreases |msgs|
  {
    if |msgs| > 0 {
      var init := msgs[..|msgs| - 1];
      assert msgs == init + [msgs[|msgs| - 1]];
      AppMessagesMembership(c, init, m);
    }
  }

  /** Every non-heartbeat message is passed on as many times as it arrived, and
      a heartbeat never is. */
  lemma {:induction false} AppMessagesMultiplicity(c: Codes, msgs: seq<Message>, m: Message)
    ensures multiset(AppMessages(c, msgs))[m] == if IsHeartbeat(c, m) then 0 else multiset(msgs)[m]
    decreases |msgs|
  {
    if |msgs| > 0 {
      var init := msgs[..|msgs| - 1];
      assert msgs == init + [msgs[|msgs| - 1]];
      AppMessagesMultiplicity(c, init, m);
    }
  }

  lemma {:induction false} ReadsInbound(msgs: seq<Message>)
    ensures Inbound(Reads(msgs)) == msgs
    ensures PingCalls(Reads(msgs)) == 0
    ensures IdleStates(Reads(msgs)) == []
    decreases |msgs|
  {
    if |msgs| > 0 {
      var init := msgs[..|msgs| - 1];
      assert Reads(msgs)[..|msgs| - 1] == Reads(init);
      ReadsInbound(init);
    }
  }

  // ----- Properties of a run -----

  /** The messages passed on are exactly the non-heartbeat messages read, in
      arrival order. */
  lemma {:induction false} RunForwarded(c: Codes, s: Conn, events: seq<Event>, custom: nat -> Header)
    ensures Run(c, s, events, custom).forwarded == s.forwarded + AppMessages(c, Inbound(events))
    decreases |events|
  {
    if |events| > 0 {
      var init := events[..|events| - 1];
      var last := events[|events| - 1];
      var p := Run(c, s, init, custom);
      RunForwarded(c, s, init, custom);
      RunSnoc(c, s, events, custom);
      assert Inbound(events) == Inbound(init) + ReadOf(last);
      AppMessagesAppend(c, Inbound(init), ReadOf(last));
    }
  }

  /** No heartbeat is ever passed on, and every message passed on was read. */
  lemma RunForwardsNoHeartbeat(c: Codes, s: Conn, events: seq<Event>, custom: nat -> Header)
    ensures var t := Run(c, s, events, custom);
      forall i :: |s.forwarded| <= i < |t.forwarded| ==>
        !IsHeartbeat(c, t.forwarded[i]) && t.forwarded[i] in Inbound(events)
  {
    var t := Run(c, s, events, custom);
    RunForwarded(c, s, events, custom);
    forall i | |s.forwarded| <= i < |t.forwarded|
      ensures !IsHeartbeat(c, t.forwarded[i]) && t.forwarded[i] in Inbound(events)
    {
      var app := AppMessages(c, Inbound(events));
      assert t.forwarded[i] == app[i - |s.forwarded|];
      AppMessagesMembership(c, Inbound(events), t.forwarded[i]);
    }
  }

  lemma AppendAssoc<T>(a: seq<T>, b: seq<T>, c: seq<T>)
    ensures (a + b) + c == a + (b + c)
  {
  }

  /** Unfolds Sent at its last event. */
  lemma SentSnoc(c: Codes, events: seq<Event>, base: nat, custom: nat -> Header, k: nat)
    requires |events| > 0
    requires k == base + |Sent(c, events[..|events| - 1], base, custom)|
    ensures Sent(c, events, base, custom)
      == Sent(c, events[..|events| - 1], base, custom) + SentBy(c, events[|events| - 1], custom(k))
  {
  }

  /** Unfolds Run at its last event. */
  lemma RunSnoc(c: Codes, s: Conn, events: seq<Event>, custom: nat -> Header)
    requires |events| > 0
    ensures var p := Run(c, s, events[..|events| - 1], custom);
      Run(c, s, events, custom) == Step(c, p, events[|events| - 1], custom(|p.written|))
  {
  }

  /** The messages written during a run are, in event order, one PING per
      ping call and one PONG per PING read, the k-th built on `custom(k)`. */
  lemma {:induction false} RunWritten(c: Codes, s: Conn, events: seq<Event>, custom: nat -> Header)
    ensures Run(c, s, events, custom).written == s.written + Sent(c, events, |s.written|, custom)
    decreases |events|
  {
    if |events| > 0 {
      var init := events[..|events| - 1];
      var last := events[|events| - 1];
      var p := Run(c, s, init, custom);
      var prev := Sent(c, init, |s.written|, custom);
      RunWritten(c, s, init, custom);
      assert |p.written| == |s.written| + |prev|;
      SentSnoc(c, events, |s.written|, custom, |p.written|);
      RunSnoc(c, s, events, custom);
      AppendAssoc(s.written, prev, SentBy(c, last, custom(|p.written|)));
    }
  }

  /** The counter grows by the PINGs read (each answered) plus the PINGs sent. */
  lemma {:induction false} RunCounter(c: Codes, s: Conn, events: seq<Event>, custom: nat -> Header)
    ensures Run(c, s, events, custom).counter == s.counter + CountPings(c, Inbound(events)) + PingCalls(events)
    decreases |events|
  {
    if |events| > 0 {
      var init := events[..|events| - 1];
      var last := events[|events| - 1];
      var p := Run(c, s, init, custom);
      RunCounter(c, s, init, custom);
      RunSnoc(c, s, events, custom);
      assert Inbound(events) == Inbound(init) + ReadOf(last);
      CountPingsAppend(c, Inbound(init), ReadOf(last));
    }
  }

  /** The hooks that ran are, one for one and in order, the hooks that handle
      the idle states reported. */
  lemma {:induction false} RunIdleHooks(c: Codes, s: Conn, events: seq<Event>, custom: nat -> Header)
    ensures var t := Run(c, s, events, custom);
      && |t.idleLog| == |s.idleLog| + |IdleStates(events)|
      && forall i :: 0 <= i < |IdleStates(events)| ==> Handles(t.idleLog[|s.idleLog| + i], IdleStates(events)[i])
    decreases |events|
  {
    if |events| > 0 {
      var init := events[..|events| - 1];
      var last := events[|events| - 1];
      RunIdleHooks(c, s, init, custom);
      var p := Run(c, s, init, custom);
      var t := Run(c, s, events, custom);
      assert p.idleLog <= t.idleLog;
    }
  }

  /** Reading a sequence of messages: the non-heartbeat ones are passed on in
      order, one PONG is written per PING read and nothing else is written,
      the counter grows by the number of PINGs, and no idle hook runs. */
  lemma {:induction false} ReadAll(c: Codes, s: Conn, msgs: seq<Message>, custom: nat -> Header)
    ensures var t := Run(c, s, Reads(msgs), custom);
      && t.forwarded == s.forwarded + AppMessages(c, msgs)
      && t.counter == s.counter + CountPings(c, msgs)
      && |t.written| == |s.written| + CountPings(c, msgs)
      && PongsFrom(c, t.written, |s.written|)
      && t.idleLog == s.idleLog
  {
    ReadsInbound(msgs);
    RunForwarded(c, s, Reads(msgs), custom);
    RunCounter(c, s, Reads(msgs), custom);
    RunIdleHooks(c, s, Reads(msgs), custom);
    ReadsWritesPongs(c, s, msgs, custom);
  }

  /** Every message of `written` from index `from` on is a PONG. */
  predicate PongsFrom(c: Codes, written: seq<Message>, from: nat) {
    forall i :: from <= i < |written| ==>
      written[i].header.msgType == c.response && written[i].header.code == c.heartbeatResp
  }

  /** When only messages are read, everything written is a PONG. */
  lemma {:induction false} ReadsWritesPongs(c: Codes, s: Conn, msgs: seq<Message>, custom: nat -> Header)
    ensures PongsFrom(c, Run(c, s, Reads(msgs), custom).written, |s.written|)
    decreases |msgs|
  {
    if |msgs| > 0 {
      var init := msgs[..|msgs| - 1];
      var last := msgs[|msgs| - 1];
      assert Reads(msgs)[..|msgs| - 1] == Reads(init);
      ReadsWritesPongs(c, s, init, custom);
      var p := Run(c, s, Reads(init), custom);
      var t := Run(c, s, Reads(msgs), custom);
      assert t == ChannelRead(c, p, last, custom(|p.written|));
      forall i | |s.written| <= i < |t.written|
        ensures t.written[i].header.msgType == c.response && t.written[i].header.code == c.heartbeatResp
      {
        if i < |p.written| {
          assert t.written[i] == p.written[i];
        } else {
          assert IsPing(c, last) && i == |p.written|;
        }
      }
    }
  }

  /** From a fresh connection, the counter equals the number of messages
      written, and what is written and passed on is fixed by the events alone. */
  lemma RunFromInitial(c: Codes, events: seq<Event>, custom: nat -> Header)
    ensures var t := Run(c, Initial, events, custom);
      && t.counter == |t.written| == CountPings(c, Inbound(events)) + PingCalls(events)
      && t.written == Sent(c, events, 0, custom)
      && t.forwarded == AppMessages(c, Inbound(events))
  {
    RunWritten(c, Initial, events, custom);
    RunCounter(c, Initial, events, custom);
    RunForwarded(c, Initial, events, custom);
  }

  /** The connection's event loop: delivers `events` to the handler one by one. */
  method Replay(c: Codes, s: Conn, events: seq<Event>, custom: nat -> Header) returns (t: Conn)
    ensures t.forwarded == s.forwarded + AppMessages(c, Inbound(events))
    ensures t.counter == s.counter + CountPings(c, Inbound(events)) + PingCalls(events)
    ensures |t.written| == |s.written| + CountPings(c, Inbound(events)) + PingCalls(events)
    ensures t == Run(c, s, events, custom)
  {
    t := s;
    var i := 0;
    while i < |events|
      invariant 0 <= i <= |events|
      invariant t == Run(c, s, events[..i], custom)
    {
      assert events[..i + 1][..i] == events[..i];
      t := Step(c, t, events[i], custom(|t.written|));
      i := i + 1;
    }
    assert events[..i] == events;
    RunForwarded(c, s, events, custom);
    RunCounter(c, s, events, custom);
  }
}
