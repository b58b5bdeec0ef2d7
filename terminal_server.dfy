/** The operator console (class ServerTerminal of terminal_server.py): which
    agent page it is on, the handshake that opens a page, and the commands
    that send envelopes to the agent and check its reply.  The ROUTER socket
    becomes the frames received (in order) and the log of frames sent; the
    terminal becomes a log of output lines. */
module TerminalServer {
  import opened Text
  import opened Json
  import AgentSession

  /** A frame received on the ROUTER socket: the sender's identity, the
      payload, and the clock reading taken after it arrived. */
  datatype Frame = Frame(identity: string, payload: Payload, at: int)

  /** A frame sent: the identity it is routed to and the payload. */
  datatype Outgoing = Outgoing(to: string, payload: Payload)

  const CLIENTS: seq<string> := ["RC", "HV"]
  const CONNECT_TIMEOUT: int := 10
  const MAIN_PROMPT: string := "|Main>"

  const PING_RECEIVED: string := "Ping signal received"
  const NOT_POSSIBLE: string := "It was not possible to connect with the client selected"
  const INVALID_NAME: string := "Invalid client name. Available clients: ['RC', 'HV']"
  const DECODE_FAILED: string := "Failed to decode the response."

  /** The prompt of an agent's page. */
  function PagePrompt(name: string): string { "|" + name + ">" }

  function Connected(name: string): string { "Connection was successful with client: " + name }

  function Envelope2(t: string, command: string): Value {
    Obj([("type", Str(t)), ("command", Str(command))])
  }

  /** {"type": "clients", "command": "back"}. */
  const BACK: Value := Envelope2("clients", "back")

  /** The envelope of read: register address as an integer. */
  function ReadEnvelope(addr: int): Value {
    Obj([("type", Str("rc_command")), ("command", Str("read_address")), ("address", Int(addr))])
  }

  /** The envelope of write. */
  function WriteEnvelope(addr: int, value: int): Value {
    Obj([("type", Str("rc_command")), ("command", Str("write_address")), ("address", Int(addr)), ("value", Int(value))])
  }

  /** The envelope of power_on. */
  function PowerOnEnvelope(channels: string): Value {
    Obj([("type", Str("rc_command")), ("command", Str("rc_pwr_on")), ("channels", Str(channels))])
  }

  /** The envelope of print_message (the HV definition, the one that
      takes effect). */
  function PrintEnvelope(message: string): Value {
    Obj([("type", Str("hv_config")), ("command", Str("print_message")), ("message", Str(message))])
  }

  // ---------------------------------------------------------------------
  // The handshake of do_connect
  // ---------------------------------------------------------------------

  /** What the handshake loop has done so far: whether it connected, the
      lines it output and the frames it sent. */
  datatype Trace = Trace(connected: bool, output: seq<string>, sent: seq<Outgoing>)

  const NO_TRACE: Trace := Trace(false, [], [])

  /** Frames k and k + 1 are a Ping and a confirmation from the agent. */
  predicate HandshakeAt(frames: seq<Frame>, k: int, name: string)
    requires 0 <= k < |frames| - 1
  {
    && frames[k].identity == name && frames[k].payload == AgentSession.PING
    && frames[k + 1].identity == name && frames[k + 1].payload == AgentSession.CONFIRM
  }

  /** The handshake loop from clock reading now over the frames still to
      come.  The deadline is tested before each receive only, against the
      reading after the last frame; a Ping is answered with Alive and the
      very next frame must be the confirmation, else waiting goes on.  Once
      the frames run out the receive would block for good, which ends the
      model of the loop. */
  function Accept(name: string, start: int, now: int, frames: seq<Frame>, t: Trace): (r: Trace)
    ensures r.connected ==> t.connected || exists k :: 0 <= k < |frames| - 1 && HandshakeAt(frames, k, name)
    ensures t.sent <= r.sent && t.output <= r.output
    ensures forall j :: |t.sent| <= j < |r.sent| ==> r.sent[j] == Outgoing(name, AgentSession.ALIVE)
    decreases |frames|
  {
    if t.connected || now - start >= CONNECT_TIMEOUT || frames == [] then t
    else
      var f := frames[0];
      if f.identity == name && f.payload == AgentSession.PING then
        var t1 := t.(output := t.output + [PING_RECEIVED], sent := t.sent + [Outgoing(name, AgentSession.ALIVE)]);
        if |frames| == 1 then t1
        else
          var g := frames[1];
          if g.identity == name && g.payload == AgentSession.CONFIRM then
            assert HandshakeAt(frames, 0, name);
            Accept(name, start, g.at, frames[2..], t1.(connected := true, output := t1.output + [Connected(name)]))
          else
            var r := Accept(name, start, g.at, frames[2..], t1);
            assert r.connected && !t1.connected ==> exists k :: 0 <= k < |frames| - 1 && HandshakeAt(frames, k, name) by {
              if r.connected && !t1.connected {
                HandshakeShift(frames, 2, name);
              }
            }
            r
      else
        var r := Accept(name, start, f.at, frames[1..], t.(output := t.output + [NOT_POSSIBLE]));
        assert r.connected && !t.connected ==> exists k :: 0 <= k < |frames| - 1 && HandshakeAt(frames, k, name) by {
          if r.connected && !t.connected {
            HandshakeShift(frames, 1, name);
          }
        }
        r
  }

  /** A handshake in a suffix of the frames is a handshake in the frames. */
  lemma HandshakeShift(frames: seq<Frame>, d: nat, name: string)
    requires d <= |frames|
    requires exists k :: 0 <= k < |frames[d..]| - 1 && HandshakeAt(frames[d..], k, name)
    ensures exists k :: 0 <= k < |frames| - 1 && HandshakeAt(frames, k, name)
  {
    var k :| 0 <= k < |frames[d..]| - 1 && HandshakeAt(frames[d..], k, name);
    assert frames[k + d] == frames[d..][k] && frames[k + d + 1] == frames[d..][k + 1];
    assert HandshakeAt(frames, k + d, name);
  }

  /** do_connect(name): a known agent name runs the handshake from the
      start time; any other name is reported and nothing else happens. */
  function ConnectSpec(name: string, start: int, frames: seq<Frame>): (r: Trace)
    ensures name !in CLIENTS ==> r == Trace(false, [INVALID_NAME], [])
    ensures r.connected ==> name in CLIENTS
  {
    if name in CLIENTS then Accept(name, start, start, frames, NO_TRACE)
    else Trace(false, [INVALID_NAME], [])
  }

  /** A Ping from the agent followed by its confirmation opens the page,
      whatever the clock says once the first receive has begun. */
  lemma HandshakeConnects(name: string, start: int, a: int, b: int, rest: seq<Frame>)
    requires name in CLIENTS
    ensures var frames := [Frame(name, AgentSession.PING, a), Frame(name, AgentSession.CONFIRM, b)] + rest;
      ConnectSpec(name, start, frames) == Trace(true, [PING_RECEIVED, Connected(name)], [Outgoing(name, AgentSession.ALIVE)])
  {
    var frames := [Frame(name, AgentSession.PING, a), Frame(name, AgentSession.CONFIRM, b)] + rest;
    assert frames[0] == Frame(name, AgentSession.PING, a) && frames[1] == Frame(name, AgentSession.CONFIRM, b);
    assert frames[2..] == rest;
    var t1 := NO_TRACE.(output := [PING_RECEIVED], sent := [Outgoing(name, AgentSession.ALIVE)]);
    assert Accept(name, start, start, frames, NO_TRACE) == Accept(name, start, b, rest, t1.(connected := true, output := [PING_RECEIVED] + [Connected(name)]));
  }

  /** A frame that is not a Ping from the agent is reported and skipped;
      a Ping whose next frame is not the confirmation is answered and
      waiting resumes after both. */
  lemma StrayFrames(name: string, start: int, now: int, frames: seq<Frame>, t: Trace)
    requires !t.connected && now - start < CONNECT_TIMEOUT && |frames| >= 2
    ensures !(frames[0].identity == name && frames[0].payload == AgentSession.PING) ==>
      Accept(name, start, now, frames, t) == Accept(name, start, frames[0].at, frames[1..], t.(output := t.output + [NOT_POSSIBLE]))
    ensures frames[0].identity == name && frames[0].payload == AgentSession.PING && !HandshakeAt(frames, 0, name) ==>
      Accept(name, start, now, frames, t) == Accept(name, start, frames[1].at, frames[2..],
        t.(output := t.output + [PING_RECEIVED], sent := t.sent + [Outgoing(name, AgentSession.ALIVE)]))
  {
  }

  /** Past the deadline no further frame is received; before it, the
      first frame always is. */
  lemma DeadlineBetweenFrames(name: string, start: int, now: int, frames: seq<Frame>, t: Trace)
    requires !t.connected
    ensures now - start >= CONNECT_TIMEOUT ==> Accept(name, start, now, frames, t) == t
    ensures now - start < CONNECT_TIMEOUT && frames != [] ==> Accept(name, start, now, frames, t) != t
  {
  }

  // ---------------------------------------------------------------------
  // Replies
  // ---------------------------------------------------------------------

  /** do_read's handling of the reply frame: the lines it prints, or the
      exception that escapes.  A reply is looked at only when it comes from
      RC and its response is rc_read. */
  function ReadAccept(addr: int, reply: Frame): (r: Outcome<seq<string>>)
    ensures reply.payload.Token? ==> r == Ok([DECODE_FAILED])
    ensures reply.payload.Doc? && reply.identity != "RC" ==> r == Ok([])
    ensures r.Ok? && r.value != [] && r.value != [DECODE_FAILED] ==>
      reply.identity == "RC" && Field(reply.payload.value, "response") == Str("rc_read")
  {
    match reply.payload
    case Token(_) => Ok([DECODE_FAILED])
    case Doc(v) =>
      if reply.identity != "RC" then Ok([])
      else match Get(v, "response")
        case Raised(e) => Raised(e)
        case Ok(resp) =>
          if resp != Str("rc_read") then Ok([])
          else
            var result := Field(v, "result");
            match Subscript(result, 1)
            case Raised(e) => Raised(e)
            case Ok(value) =>
              match Subscript(result, 0)
              case Raised(e) => Raised(e)
              case Ok(hex) =>
                Ok(["The value of the register " + IntToString(addr) + " is: " + PyStr(value) + " (" + PyStr(hex) + ")"])
  }

  /** The reply handling of do_write: print the result of an rc_write
      reply from RC. */
  function WriteAccept(reply: Frame): (r: Outcome<seq<string>>)
    ensures reply.payload.Token? ==> r == Ok([DECODE_FAILED])
    ensures reply.payload.Doc? && reply.identity != "RC" ==> r == Ok([])
    ensures r.Ok? && r.value != [] && r.value != [DECODE_FAILED] ==>
      reply.identity == "RC" && Field(reply.payload.value, "response") == Str("rc_write")
  {
    match reply.payload
    case Token(_) => Ok([DECODE_FAILED])
    case Doc(v) =>
      if reply.identity != "RC" then Ok([])
      else match Get(v, "response")
        case Raised(e) => Raised(e)
        case Ok(resp) => if resp == Str("rc_write") then Ok([PyStr(Field(v, "result"))]) else Ok([])
  }

  /** An rc_read reply carrying [hex, value] is printed as the register's
      value followed by its hex rendering. */
  lemma ReadAcceptsReply(addr: int, hex: string, w: int, at: int)
    ensures ReadAccept(addr, Frame("RC", Doc(AgentSession.Reply("rc_read", Arr([Str(hex), Int(w)]))), at))
      == Ok(["The value of the register " + IntToString(addr) + " is: " + IntToString(w) + " (" + hex + ")"])
  {
    var result := Arr([Str(hex), Int(w)]);
    var v := AgentSession.Reply("rc_read", result);
    assert Get(v, "response") == Ok(Str("rc_read"));
    assert Subscript(result, 1) == Ok(Int(w)) && Subscript(result, 0) == Ok(Str(hex));
  }

  /** An rc_write reply is printed as its result text. */
  lemma WriteAcceptsReply(text: string, at: int)
    ensures WriteAccept(Frame("RC", Doc(AgentSession.Reply("rc_write", Str(text))), at)) == Ok([text])
  {
  }

  /** The reply handling of do_power_on: .get is called on the received
      frame list instead of the decoded reply, so a reply from RC always
      raises. */
  function PowerOnAccept(reply: Frame): (r: Outcome<seq<string>>)
    ensures reply.payload.Doc? && reply.identity == "RC" ==> r == Raised(AttributeError("get"))
    ensures r.Ok? ==> r.value == [] || r.value == [DECODE_FAILED]
  {
    match reply.payload
    case Token(_) => Ok([DECODE_FAILED])
    case Doc(v) => if reply.identity != "RC" then Ok([]) else Raised(AttributeError("get"))
  }

  // ---------------------------------------------------------------------
  // The console
  // ---------------------------------------------------------------------

  class ServerTerminal {
    /** The agent page the console is on (self.client), None on the main page. */
    var client: Option<string>
    var prompt: string
    /** Every frame the console sent, in order. */
    var sent: seq<Outgoing>
    /** Every line written to the terminal. */
    var output: seq<string>
    /** False once quit has been entered. */
    var running: bool

    constructor ()
      ensures client == None && prompt == MAIN_PROMPT && sent == [] && output == [] && running
    {
      client, prompt, sent, output, running := None, MAIN_PROMPT, [], [], true;
    }

    /** do_connect(name) over the frames received while it runs. */
    method Connect(name: string, start: int, frames: seq<Frame>)
      modifies this
      ensures var r := ConnectSpec(name, start, frames);
        && output == old(output) + r.output && sent == old(sent) + r.sent && running == old(running)
        && (r.connected ==> client == Some(name) && prompt == PagePrompt(name))
        && (!r.connected ==> client == old(client) && prompt == old(prompt))
    {
      if name !in CLIENTS {
        output := output + [INVALID_NAME];
        return;
      }
      var t := NO_TRACE;
      var now := start;
      var i := 0;
      while !t.connected && now - start < CONNECT_TIMEOUT && i < |frames|
        invariant 0 <= i <= |frames|
        invariant Accept(name, start, now, frames[i..], t) == Accept(name, start, start, frames, NO_TRACE)
        decreases |frames| - i
      {
        var f := frames[i];
        if f.identity == name && f.payload == AgentSession.PING {
          t := t.(output := t.output + [PING_RECEIVED], sent := t.sent + [Outgoing(name, AgentSession.ALIVE)]);
          if i + 1 == |frames| {
            i := i + 1;
            break;
          }
          var g := frames[i + 1];
          assert frames[i..][2..] == frames[i + 2..];
          if g.identity == name && g.payload == AgentSession.CONFIRM {
            t := t.(connected := true, output := t.output + [Connected(name)]);
          }
          now := g.at;
          i := i + 2;
        } else {
          assert frames[i..][1..] == frames[i + 1..];
          t := t.(output := t.output + [NOT_POSSIBLE]);
          now := f.at;
          i := i + 1;
        }
      }
      output := output + t.output;
      sent := sent + t.sent;
      if t.connected {
        client := Some(name);
        prompt := PagePrompt(name);
      }
    }

    /** _check_client(required): the page guard, with its message when the
        console is on another page. */
    method CheckClient(required: string) returns (ok: bool)
      modifies this
      ensures ok <==> client == Some(required)
      ensures client == old(client) && prompt == old(prompt) && sent == old(sent) && running == old(running)
      ensures output == old(output) + (if ok then [] else ["This command is only available in the " + required + " client page."])
    {
      ok := client == Some(required);
      if !ok {
        output := output + ["This command is only available in the " + required + " client page."];
      }
    }

    /** do_back: send the back envelope to the current agent, without
        waiting for a reply, and return to the main page.  On the main page
        there is no client to encode and the command fails. */
    method Back() returns (err: Option<PyError>)
      modifies this
      ensures old(client).None? ==>
        err == Some(AttributeError("encode")) && client == None && prompt == old(prompt) && sent == old(sent) && output == old(output)
      ensures old(client).Some? ==>
        && err == None && client == None && prompt == MAIN_PROMPT
        && sent == old(sent) + [Outgoing(old(client).value, Doc(BACK))]
        && output == old(output) + ["Returned to the main menu"]
      ensures running == old(running)
    {
      if client.None? {
        return Some(AttributeError("encode"));
      }
      sent := sent + [Outgoing(client.value, Doc(BACK))];
      client := None;
      prompt := MAIN_PROMPT;
      output := output + ["Returned to the main menu"];
      err := None;
    }

    /** do_quit: on an agent page the agent is sent back first; the page
        itself is left as it is. */
    method Quit()
      modifies this
      ensures sent == old(sent) + (if old(client).Some? && old(client).value != "" then [Outgoing(old(client).value, Doc(BACK))] else [])
      ensures output == old(output) + ["Quit command received. Shutting down..."]
      ensures client == old(client) && prompt == old(prompt) && !running
    {
      if client.Some? && client.value != "" {
        sent := sent + [Outgoing(client.value, Doc(BACK))];
      }
      output := output + ["Quit command received. Shutting down..."];
      running := false;
    }

    /** do_print_message(message) on the HV page. */
    method PrintMessage(message: string)
      modifies this
      ensures client == old(client) && prompt == old(prompt) && running == old(running)
      ensures old(client) == Some("HV") ==> sent == old(sent) + [Outgoing("HV", Doc(PrintEnvelope(message)))] && output == old(output)
      ensures old(client) != Some("HV") ==>
        sent == old(sent) && output == old(output) + ["This command is only available in the HV client page."]
    {
      var ok := CheckClient("HV");
      assert "This command is only available in the " + "HV" + " client page." == "This command is only available in the HV client page.";
      if ok {
        sent := sent + [Outgoing("HV", Doc(PrintEnvelope(message)))];
      }
    }

    /** Sending a command on the RC page and handling the reply. */
    method RcCommand(envelope: Value, accepted: Outcome<seq<string>>) returns (err: Option<PyError>)
      modifies this
      ensures client == old(client) && prompt == old(prompt) && running == old(running)
      ensures old(client) == Some("RC") ==>
        && sent == old(sent) + [Outgoing("RC", Doc(envelope))]
        && (accepted.Ok? ==> err == None && output == old(output) + accepted.value)
        && (accepted.Raised? ==> err == Some(accepted.error) && output == old(output))
      ensures old(client) != Some("RC") ==>
        err == None && sent == old(sent) && output == old(output) + ["This command is only available in the RC client page."]
    {
      var ok := CheckClient("RC");
      assert "This command is only available in the " + "RC" + " client page." == "This command is only available in the RC client page.";
      if !ok {
        return None;
      }
      sent := sent + [Outgoing("RC", Doc(envelope))];
      if accepted.Raised? {
        return Some(accepted.error);
      }
      output := output + accepted.value;
      err := None;
    }

    /** do_read(addr), given the frame the receive returns. */
    method Read(addr: int, reply: Frame) returns (err: Option<PyError>)
      modifies this
      ensures client == old(client) && prompt == old(prompt) && running == old(running)
      ensures old(client) == Some("RC") ==>
        && sent == old(sent) + [Outgoing("RC", Doc(ReadEnvelope(addr)))]
        && (ReadAccept(addr, reply).Ok? ==> err == None && output == old(output) + ReadAccept(addr, reply).value)
        && (ReadAccept(addr, reply).Raised? ==> err == Some(ReadAccept(addr, reply).error) && output == old(output))
      ensures old(client) != Some("RC") ==>
        err == None && sent == old(sent) && output == old(output) + ["This command is only available in the RC client page."]
    {
      err := RcCommand(ReadEnvelope(addr), ReadAccept(addr, reply));
    }

    /** do_write(addr, value), given the frame the receive returns. */
    method Write(addr: int, value: int, reply: Frame) returns (err: Option<PyError>)
      modifies this
      ensures client == old(client) && prompt == old(prompt) && running == old(running)
      ensures old(client) == Some("RC") ==>
        && sent == old(sent) + [Outgoing("RC", Doc(WriteEnvelope(addr, value)))]
        && (WriteAccept(reply).Ok? ==> err == None && output == old(output) + WriteAccept(reply).value)
        && (WriteAccept(reply).Raised? ==> err == Some(WriteAccept(reply).error) && output == old(output))
      ensures old(client) != Some("RC") ==>
        err == None && sent == old(sent) && output == old(output) + ["This command is only available in the RC client page."]
    {
      err := RcCommand(WriteEnvelope(addr, value), WriteAccept(reply));
    }

    /** do_power_on(channels), given the frame the receive returns. */
    method PowerOn(channels: string, reply: Frame) returns (err: Option<PyError>)
      modifies this
      ensures client == old(client) && prompt == old(prompt) && running == old(running)
      ensures old(client) == Some("RC") ==>
        && sent == old(sent) + [Outgoing("RC", Doc(PowerOnEnvelope(channels)))]
        && (PowerOnAccept(reply).Ok? ==> err == None && output == old(output) + PowerOnAccept(reply).value)
        && (PowerOnAccept(reply).Raised? ==> err == Some(PowerOnAccept(reply).error) && output == old(output))
      ensures old(client) != Some("RC") ==>
        err == None && sent == old(sent) && output == old(output) + ["This command is only available in the RC client page."]
    {
      err := RcCommand(PowerOnEnvelope(channels), PowerOnAccept(reply));
    }
  }
}
