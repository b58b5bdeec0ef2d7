/** The session loop both board agents run (client() in hv_client.py and
    rc_client.py).  The agent pings the console every PING_INTERVAL
    seconds and polls for at most PING_TIMEOUT seconds.  When the console
    answers "Alive", the agent confirms and serves commands until told to go
    back.  When a poll times out, it sleeps, then disconnects and reconnects.
    Sockets and the clock are replaced by a sequence of events, and the
    loop by a state machine over them. */
module AgentSession {
  import opened Text
  import opened Json

  /** The constants of one agent: its socket identity, the two periods in
      seconds and the console address. */
  datatype Config = Config(identity: string, pingInterval: nat, pingTimeout: nat, address: string)

  /** What the agent does on its socket and its clock, in order. */
  datatype Action = Send(payload: Payload) | Sleep(seconds: nat) | Disconnect(address: string) | Connect(address: string)

  /** Where the loop is. Waiting is the outer heartbeat loop, Commands the
      inner `while connected` loop, and Stopped means an exception escaped
      client(). */
  datatype Phase = Waiting | Commands | Stopped(error: PyError)

  /** The loop's variables (phase, last_ping) and the actions so far. */
  datatype AgentState = AgentState(phase: Phase, lastPing: int, log: seq<Action>)

  /** One step of the world. While Waiting it is one pass of the outer loop:
      the clock reading at its top and what the bounded poll returned (None
      when it timed out). In Commands it is the frame the blocking recv
      returned (None: nothing yet); the clock is not consulted there. */
  datatype Event = Event(now: int, frame: Option<Payload>)

  /** What one handle_commands call did: the reply it sent, if any, and
      whether to stay in the command loop; or the exception it raised. */
  datatype Dispatch = Handled(reply: Option<Value>, stay: bool) | Crashed(error: PyError)

  const PING: Payload := Token("Ping")
  const ALIVE: Payload := Token("Alive")
  const CONFIRM: Payload := Token("Connection successful")

  /** {"response": tag, "result": result}, the shape of every reply. */
  function Reply(tag: string, result: Value): (v: Value)
    ensures Field(v, "response") == Str(tag) && Field(v, "result") == result
  {
    var fields := [("response", Str(tag)), ("result", result)];
    assert fields[..1] == [("response", Str(tag))];
    assert "response"[3] != "result"[3];
    assert Lookup(fields[..1], "response") == Str(tag);
    assert Lookup(fields, "response") == Lookup(fields[..1], "response");
    Obj(fields)
  }

  /** client() up to its loop: connect, and start the ping timer. */
  function Start(cfg: Config, now: int): AgentState {
    AgentState(Waiting, now, [Connect(cfg.address)])
  }

  /** One pass of the outer loop: ping if the interval has elapsed, then act
      on the poll. "Alive" is confirmed and opens the command loop; any other
      frame is dropped; a timeout sleeps one interval and reconnects. */
  function HeartbeatStep(cfg: Config, s: AgentState, e: Event): (r: AgentState)
    requires s.phase == Waiting
    ensures r.phase == Waiting || r.phase == Commands
  {
    var due := e.now - s.lastPing >= cfg.pingInterval;
    var log := if due then s.log + [Send(PING)] else s.log;
    var last := if due then e.now else s.lastPing;
    match e.frame
    case Some(p) =>
      if p == ALIVE then AgentState(Commands, last, log + [Send(CONFIRM)])
      else AgentState(Waiting, last, log)
    case None =>
      AgentState(Waiting, last, log + [Sleep(cfg.pingInterval), Disconnect(cfg.address), Connect(cfg.address)])
  }

  /** One handle_commands call: its reply is sent, and False ends the
      command loop; an exception ends client(). */
  function CommandStep(s: AgentState, d: Dispatch): (r: AgentState)
    requires s.phase == Commands
  {
    match d
    case Crashed(e) => s.(phase := Stopped(e))
    case Handled(reply, stay) =>
      AgentState(if stay then Commands else Waiting, s.lastPing,
                 s.log + (if reply.Some? then [Send(Doc(reply.value))] else []))
  }

  /** A Ping goes out exactly when at least the interval has passed since
      the last one, and sending it restarts the timer. */
  lemma PingWhenDue(cfg: Config, s: AgentState, e: Event)
    requires s.phase == Waiting
    ensures var r := HeartbeatStep(cfg, s, e);
      && (e.now - s.lastPing >= cfg.pingInterval ==> r.log[|s.log|] == Send(PING) && r.lastPing == e.now)
      && (e.now - s.lastPing < cfg.pingInterval ==> r.lastPing == s.lastPing && Send(PING) !in r.log[|s.log|..])
  {
  }

  /** The poll's outcome: exactly "Alive" opens the command loop, after
      "Connection successful" is sent; a timeout sleeps, disconnects and
      reconnects to the same address and keeps waiting; any other frame is
      dropped without reconnecting. */
  lemma PollOutcome(cfg: Config, s: AgentState, e: Event)
    requires s.phase == Waiting
    ensures var r := HeartbeatStep(cfg, s, e);
      var pinged := if e.now - s.lastPing >= cfg.pingInterval then [Send(PING)] else [];
      && (r.phase == Commands <==> e.frame == Some(ALIVE))
      && (e.frame == Some(ALIVE) ==> r.log == s.log + pinged + [Send(CONFIRM)])
      && (e.frame.None? ==> r.log == s.log + pinged + [Sleep(cfg.pingInterval), Disconnect(cfg.address), Connect(cfg.address)])
      && (e.frame.Some? && e.frame != Some(ALIVE) ==> r.log == s.log + pinged)
  {
  }

  /** A handled command sends at most its one reply; one that returns False
      goes back to waiting. */
  lemma CommandOutcome(s: AgentState, d: Dispatch)
    requires s.phase == Commands
    ensures d.Handled? ==> CommandStep(s, d).log == s.log + (if d.reply.Some? then [Send(Doc(d.reply.value))] else [])
    ensures d.Handled? ==> (CommandStep(s, d).phase == Waiting <==> !d.stay)
    ensures d.Crashed? ==> CommandStep(s, d).phase == Stopped(d.error) && CommandStep(s, d).log == s.log
  {
  }

  // ---------------------------------------------------------------------
  // The session invariant
  // ---------------------------------------------------------------------

  function Connects(log: seq<Action>): nat {
    if log == [] then 0 else Connects(log[..|log| - 1]) + (if log[|log| - 1].Connect? then 1 else 0)
  }

  function Disconnects(log: seq<Action>): nat {
    if log == [] then 0 else Disconnects(log[..|log| - 1]) + (if log[|log| - 1].Disconnect? then 1 else 0)
  }

  /** Every JSON reply in the log comes after a "Connection successful". */
  predicate RepliesAfterConfirm(log: seq<Action>) {
    forall i :: 0 <= i < |log| && log[i].Send? && log[i].payload.Doc? ==> Send(CONFIRM) in log[..i]
  }

  /** What holds between steps: the socket is connected once more than it
      was disconnected (so it is connected), no command was answered before
      a handshake completed, and the command loop is only ever entered with
      a handshake behind it. */
  predicate Invariant(s: AgentState) {
    && Connects(s.log) == Disconnects(s.log) + 1
    && RepliesAfterConfirm(s.log)
    && (s.phase == Commands ==> Send(CONFIRM) in s.log)
  }

  lemma StartInvariant(cfg: Config, now: int)
    ensures Invariant(Start(cfg, now))
  {
    assert Start(cfg, now).log[..0] == [];
  }

  lemma {:induction false} CountsAppend(a: seq<Action>, b: seq<Action>)
    ensures Connects(a + b) == Connects(a) + Connects(b)
    ensures Disconnects(a + b) == Disconnects(a) + Disconnects(b)
  {
    if b != [] {
      CountsAppend(a, b[..|b| - 1]);
      assert (a + b)[..|a + b| - 1] == a + b[..|b| - 1];
    } else {
      assert a + b == a;
    }
  }

  /** Appending actions that are not JSON replies keeps the invariant's
      reply condition. */
  lemma TokensKeepReplies(log: seq<Action>, more: seq<Action>)
    requires RepliesAfterConfirm(log)
    requires forall k :: 0 <= k < |more| ==> !(more[k].Send? && more[k].payload.Doc?)
    ensures RepliesAfterConfirm(log + more)
  {
    var l := log + more;
    forall i | 0 <= i < |l| && l[i].Send? && l[i].payload.Doc? ensures Send(CONFIRM) in l[..i] {
      assert i < |log| && l[..i] == log[..i];
    }
  }

  /** The counts of a one-action log. */
  lemma CountsOne(a: Action)
    ensures Connects([a]) == (if a.Connect? then 1 else 0)
    ensures Disconnects([a]) == (if a.Disconnect? then 1 else 0)
  {
    assert [a][..0] == [];
  }

  /** Sleeping, disconnecting and connecting again keeps one connection. */
  lemma ReconnectCounts(t: nat, address: string)
    ensures Connects([Sleep(t), Disconnect(address), Connect(address)]) == 1
    ensures Disconnects([Sleep(t), Disconnect(address), Connect(address)]) == 1
  {
    CountsOne(Sleep(t));
    CountsOne(Disconnect(address));
    CountsOne(Connect(address));
    CountsAppend([Sleep(t)], [Disconnect(address)]);
    CountsAppend([Sleep(t), Disconnect(address)], [Connect(address)]);
    assert [Sleep(t)] + [Disconnect(address)] == [Sleep(t), Disconnect(address)];
    assert [Sleep(t), Disconnect(address)] + [Connect(address)] == [Sleep(t), Disconnect(address), Connect(address)];
  }

  /** Appending socket tokens that connect as often as they disconnect keeps
      the invariant's log conditions. */
  lemma AppendTokens(log: seq<Action>, more: seq<Action>)
    requires Connects(log) == Disconnects(log) + 1 && RepliesAfterConfirm(log)
    requires Connects(more) == Disconnects(more)
    requires forall k :: 0 <= k < |more| ==> !(more[k].Send? && more[k].payload.Doc?)
    ensures Connects(log + more) == Disconnects(log + more) + 1 && RepliesAfterConfirm(log + more)
  {
    CountsAppend(log, more);
    TokensKeepReplies(log, more);
  }

  lemma HeartbeatKeepsInvariant(cfg: Config, s: AgentState, e: Event)
    requires s.phase == Waiting && Invariant(s)
    ensures Invariant(HeartbeatStep(cfg, s, e))
  {
    var pinged: seq<Action> := if e.now - s.lastPing >= cfg.pingInterval then [Send(PING)] else [];
    PollOutcome(cfg, s, e);
    if e.frame == Some(ALIVE) {
      ConfirmKeeps(s, pinged, HeartbeatStep(cfg, s, e));
    } else if e.frame.Some? {
      PingedTokens(pinged);
      AppendTokens(s.log, pinged);
    } else {
      TimeoutKeeps(s, pinged, cfg.pingInterval, cfg.address, HeartbeatStep(cfg, s, e));
    }
  }

  /** Confirming the handshake keeps the invariant and opens the command
      loop with the confirmation in the log. */
  lemma ConfirmKeeps(s: AgentState, pinged: seq<Action>, r: AgentState)
    requires Invariant(s)
    requires pinged == [] || pinged == [Send(PING)]
    requires r.phase == Commands && r.log == s.log + pinged + [Send(CONFIRM)]
    ensures Invariant(r)
  {
    var more := pinged + [Send(CONFIRM)];
    PingedTokens(pinged);
    CountsOne(Send(CONFIRM));
    CountsAppend(pinged, [Send(CONFIRM)]);
    assert r.log == s.log + more;
    AppendTokens(s.log, more);
    assert r.log[|r.log| - 1] == Send(CONFIRM);
  }

  /** A timeout's reconnection keeps the invariant. */
  lemma TimeoutKeeps(s: AgentState, pinged: seq<Action>, t: nat, address: string, r: AgentState)
    requires Invariant(s)
    requires pinged == [] || pinged == [Send(PING)]
    requires r.phase == Waiting && r.log == s.log + pinged + [Sleep(t), Disconnect(address), Connect(address)]
    ensures Invariant(r)
  {
    var tail := [Sleep(t), Disconnect(address), Connect(address)];
    TimeoutTokens(pinged, t, address);
    assert r.log == s.log + (pinged + tail);
    AppendTokens(s.log, pinged + tail);
  }

  /** The optional Ping followed by the reconnection is balanced and holds
      no reply. */
  lemma TimeoutTokens(pinged: seq<Action>, t: nat, address: string)
    requires pinged == [] || pinged == [Send(PING)]
    ensures var more := pinged + [Sleep(t), Disconnect(address), Connect(address)];
      && Connects(more) == Disconnects(more)
      && forall k :: 0 <= k < |more| ==> !(more[k].Send? && more[k].payload.Doc?)
  {
    PingedTokens(pinged);
    ReconnectCounts(t, address);
    CountsAppend(pinged, [Sleep(t), Disconnect(address), Connect(address)]);
  }

  /** The optional Ping neither connects nor disconnects, and is no reply. */
  lemma PingedTokens(pinged: seq<Action>)
    requires pinged == [] || pinged == [Send(PING)]
    ensures Connects(pinged) == Disconnects(pinged) == 0
    ensures forall k :: 0 <= k < |pinged| ==> !(pinged[k].Send? && pinged[k].payload.Doc?)
  {
    if pinged != [] {
      CountsOne(Send(PING));
    }
  }

  lemma CommandKeepsInvariant(s: AgentState, d: Dispatch)
    requires s.phase == Commands && Invariant(s)
    ensures Invariant(CommandStep(s, d))
  {
    var r := CommandStep(s, d);
    var more := r.log[|s.log|..];
    assert r.log == s.log + more;
    CountsAppend(s.log, more);
    if d.Handled? && d.reply.Some? {
      assert more == [Send(Doc(d.reply.value))];
      assert more[..0] == [];
      forall i | 0 <= i < |r.log| && r.log[i].Send? && r.log[i].payload.Doc? ensures Send(CONFIRM) in r.log[..i] {
        if i < |s.log| {
          assert r.log[..i] == s.log[..i];
        } else {
          assert r.log[..i] == s.log;
        }
      }
    } else {
      assert more == [];
    }
  }

  // ---------------------------------------------------------------------
  // A whole session
  // ---------------------------------------------------------------------

  /** One event for an agent whose handle_commands is h over device state
      S: heartbeat passes while waiting; in the command loop each frame is
      decoded and handled; after an exception nothing more happens. */
  function Step<S>(cfg: Config, h: (S, Value) -> (Dispatch, S), a: AgentState, dev: S, e: Event): (r: (AgentState, S))
    ensures a.phase != Commands ==> r.1 == dev
    ensures a.phase.Stopped? ==> r.0 == a
  {
    match a.phase
    case Waiting => (HeartbeatStep(cfg, a, e), dev)
    case Commands =>
      if e.frame.None? then (a, dev)
      else
        var (d, dev1) := h(dev, ReceiveJson(e.frame.value));
        (CommandStep(a, d), dev1)
    case Stopped(_) => (a, dev)
  }

  /** The agent and its device after a sequence of events. */
  function Run<S>(cfg: Config, h: (S, Value) -> (Dispatch, S), a: AgentState, dev: S, events: seq<Event>): (r: (AgentState, S))
  {
    if events == [] then (a, dev)
    else
      var (a1, dev1) := Run(cfg, h, a, dev, events[..|events| - 1]);
      Step(cfg, h, a1, dev1, events[|events| - 1])
  }

  /** Whatever the handler does, the session invariant holds after every
      event: connected, and no reply before a handshake. */
  lemma {:induction false} RunKeepsInvariant<S>(cfg: Config, h: (S, Value) -> (Dispatch, S), a: AgentState, dev: S, events: seq<Event>)
    requires Invariant(a)
    ensures Invariant(Run(cfg, h, a, dev, events).0)
  {
    if events != [] {
      RunKeepsInvariant(cfg, h, a, dev, events[..|events| - 1]);
      var (a1, dev1) := Run(cfg, h, a, dev, events[..|events| - 1]);
      var e := events[|events| - 1];
      match a1.phase
      case Waiting => HeartbeatKeepsInvariant(cfg, a1, e);
      case Commands =>
        if e.frame.Some? {
          CommandKeepsInvariant(a1, h(dev1, ReceiveJson(e.frame.value)).0);
        }
      case Stopped(_) =>
    }
  }

  /** The log only grows: nothing once sent is taken back. */
  lemma {:induction false} RunExtendsLog<S>(cfg: Config, h: (S, Value) -> (Dispatch, S), a: AgentState, dev: S, events: seq<Event>)
    ensures a.log <= Run(cfg, h, a, dev, events).0.log
  {
    if events != [] {
      RunExtendsLog(cfg, h, a, dev, events[..|events| - 1]);
    }
  }

  /** Once an exception has escaped, the session is over. */
  lemma {:induction false} StoppedStays<S>(cfg: Config, h: (S, Value) -> (Dispatch, S), a: AgentState, dev: S, events: seq<Event>)
    requires a.phase.Stopped?
    ensures Run(cfg, h, a, dev, events) == (a, dev)
  {
    if events != [] {
      StoppedStays(cfg, h, a, dev, events[..|events| - 1]);
    }
  }
}
