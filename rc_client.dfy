/** The run-control agent (rc_client.py): the session loop of AgentSession
    around an RC object, and handle_commands for reads, writes and channel
    power-on. */
module RcClient {
  import opened Text
  import opened Json
  import opened RegisterBuffer
  import opened RcConf
  import opened AgentSession
  import TerminalServer

  /** PING_INTERVAL, PING_TIMEOUT, the socket identity and the console
      address on port 8005. */
  function AgentConfig(ip: string): (cfg: Config)
    ensures cfg.pingInterval == 6 && cfg.pingTimeout == 10 && cfg.identity == "RC"
  {
    Config("RC", 6, 10, "tcp://" + ip + ":8005")
  }

  /** The command {"type": "clients", "command": "back"}. */
  predicate IsBack(cmd: Value) {
    cmd.Obj? && Field(cmd, "type") == Str("clients") && Field(cmd, "command") == Str("back")
  }

  /** The rc_command cmd of a given name. */
  predicate IsCommand(cmd: Value, name: string) {
    cmd.Obj? && Field(cmd, "type") == Str("rc_command") && Field(cmd, "command") == Str(name)
  }

  /** The two rc_write texts, with value and address as str() renders them. */
  function WriteText(ok: bool, value: Value, addr: Value): (s: string)
    ensures |s| >= 13 && (ok <==> s[..13] == "Successufully")
    ensures |s| >= |PyStr(addr)| && s[|s| - |PyStr(addr)|..] == PyStr(addr)
  {
    var head := if ok then "Successufully wrote the value " else "It was not possible to write the value ";
    var mid := PyStr(value) + " in register ";
    assert head[0] == if ok then 'S' else 'I';
    HeadTail(head + mid, PyStr(addr));
    assert (head + mid)[..13] == head[..13];
    head + mid + PyStr(addr)
  }

  /** The heads of the two rc_power_on texts; the second is written in two
      pieces, which the verifier takes apart more cheaply. */
  const POWER_ON_DONE := "Successufully powered on the channels: "
  const POWER_ON_FAILED := "It was not possible" + " to power on the channels: "

  /** The two rc_power_on texts. */
  function PowerOnText(ok: bool, channels: Value): (s: string)
    ensures |s| >= 13 && (ok <==> s[..13] == "Successufully")
    ensures |s| >= |PyStr(channels)| && s[|s| - |PyStr(channels)|..] == PyStr(channels)
  {
    var p := PyStr(channels);
    if ok then
      assert POWER_ON_DONE[..13] == "Successufully";
      HeadTail(POWER_ON_DONE, p);
      POWER_ON_DONE + p
    else
      assert POWER_ON_FAILED[0] == 'I';
      HeadTail(POWER_ON_FAILED, p);
      POWER_ON_FAILED + p
  }

  /** A text that starts with a head of at least 13 characters keeps that
      head's first 13, and ends with its tail. */
  lemma HeadTail(h: string, p: string)
    requires |h| >= 13
    ensures |h + p| >= 13 && (h + p)[..13] == h[..13] && (h + p)[|h + p| - |p|..] == p
  {
    assert (h + p)[..13] == h[..13];
  }

  /** rc_pwr_on as written: the tuple is tested, not its flag, and the
      (flag, detail) tuple init_data returns, having two elements, is
      always true. */
  function PowerOnReply(buf: Buffer, channels: Value): (r: (Value, Buffer))
    ensures r.1 == InitDataSpec(buf, channels).1
  {
    var (_, after) := InitDataSpec(buf, channels);
    (Reply("rc_power_on", Str(PowerOnText(true, channels))), after)
  }

  /** rc_pwr_on as intended: the flag of init_data decides the text. */
  function PowerOnReplyIntended(buf: Buffer, channels: Value): (r: (Value, Buffer))
    ensures r.1 == InitDataSpec(buf, channels).1
  {
    var (res, after) := InitDataSpec(buf, channels);
    (Reply("rc_power_on", Str(PowerOnText(res.ok, channels))), after)
  }

  /** handle_commands on a decoded command (Null when decoding failed):
      what it sends and whether to stay, and the register window after it. */
  function Handle(buf: Buffer, cmd: Value): (r: (Dispatch, Buffer))
    ensures r.1 != buf ==> IsCommand(cmd, "write_address") || IsCommand(cmd, "rc_pwr_on")
    ensures r.0.Handled? && !r.0.stay <==> IsBack(cmd)
    ensures r.0.Handled? && r.0.reply.Some? ==>
      IsCommand(cmd, "read_address") || IsCommand(cmd, "write_address") || IsCommand(cmd, "rc_pwr_on")
  {
    if cmd == Null then (Handled(None, true), buf)
    else match Get(cmd, "type")
      case Raised(e) => (Crashed(e), buf)
      case Ok(t) =>
        if t == Str("clients") then (Handled(None, Field(cmd, "command") != Str("back")), buf)
        else if t == Str("rc_command") then HandleRc(buf, cmd)
        else (Handled(None, true), buf)
  }

  /** The rc_command branch of handle_commands. */
  function HandleRc(buf: Buffer, cmd: Value): (r: (Dispatch, Buffer))
    requires cmd.Obj? && Field(cmd, "type") == Str("rc_command")
    ensures r.1 != buf ==> IsCommand(cmd, "write_address") || IsCommand(cmd, "rc_pwr_on")
    ensures r.0.Handled? ==> r.0.stay
    ensures r.0.Handled? && r.0.reply.Some? ==>
      IsCommand(cmd, "read_address") || IsCommand(cmd, "write_address") || IsCommand(cmd, "rc_pwr_on")
  {
    var command := Field(cmd, "command");
    if command == Str("read_address") then
      match ReadSpec(buf, Field(cmd, "address"))
      case Raised(e) => (Crashed(e), buf)
      case Ok(o) => (Handled(Some(Reply("rc_read", ReadingValue(o))), true), buf)
    else if command == Str("write_address") then
      var addr := Field(cmd, "address");
      var value := Field(cmd, "value");
      match WriteSpec(buf, addr, value)
      case Raised(e) => (Crashed(e), buf)
      case Ok(ok) => (Handled(Some(Reply("rc_write", Str(WriteText(ok, value, addr)))), true), AfterWrite(buf, addr, value))
    else if command == Str("rc_pwr_on") then
      var (reply, after) := PowerOnReply(buf, Field(cmd, "channels"));
      (Handled(Some(reply), true), after)
    else (Handled(None, true), buf)
  }

  /** A frame that is not JSON changes nothing and keeps the loop going; a
      decoded value that is not a dict crashes on .get. */
  lemma UndecodableStays(buf: Buffer, frame: Payload)
    requires frame.Token?
    ensures Handle(buf, ReceiveJson(frame)) == (Handled(None, true), buf)
    ensures forall v: Value :: v != Null && !v.Obj? ==> Handle(buf, v) == (Crashed(AttributeError("get")), buf)
  {
  }

  /** {"type": "clients", "command": "back"} ends the command loop without a
      reply, and any other clients command is ignored. */
  lemma BackEndsCommands(buf: Buffer, cmd: Value)
    requires cmd.Obj? && Field(cmd, "type") == Str("clients")
    ensures Handle(buf, cmd) == (Handled(None, !IsBack(cmd)), buf)
  {
  }

  /** A command of an unknown type, or an rc_command that is not one of the
      three, is ignored: no reply, stay, nothing written. */
  lemma Unmatched(buf: Buffer, cmd: Value)
    requires cmd.Obj? && Field(cmd, "type") != Str("clients")
    requires !IsCommand(cmd, "read_address") && !IsCommand(cmd, "write_address") && !IsCommand(cmd, "rc_pwr_on")
    ensures Handle(buf, cmd) == (Handled(None, true), buf)
  {
    if Field(cmd, "type") == Str("rc_command") {
      RcCommandHandled(buf, cmd);
    }
  }

  /** read_address replies rc_read with the register as [hex, value], or
      null out of range; an address int() rejects ends the session. */
  lemma ReadReply(buf: Buffer, cmd: Value, a: int)
    requires IsCommand(cmd, "read_address") && AutoInt(Field(cmd, "address")) == Ok(a)
    ensures InRange(a) ==>
      Handle(buf, cmd) == (Handled(Some(Reply("rc_read", Arr([Str(HexWord(Word(buf, a))), Int(Word(buf, a))]))), true), buf)
    ensures !InRange(a) ==> Handle(buf, cmd) == (Handled(Some(Reply("rc_read", Null)), true), buf)
  {
    RcCommandHandled(buf, cmd);
  }

  /** write_address reports success exactly when the register was written,
      and then the register reads back as the value. */
  lemma WriteReply(buf: Buffer, cmd: Value)
    requires IsCommand(cmd, "write_address") && AutoInt(Field(cmd, "address")).Ok?
    ensures var addr := Field(cmd, "address");
      var value := Field(cmd, "value");
      var ok := (addr.Int? || addr.Bool?) && InRange(AsInt(addr)) && Encodable(value);
      && Handle(buf, cmd) == (Handled(Some(Reply("rc_write", Str(WriteText(ok, value, addr)))), true), AfterWrite(buf, addr, value))
      && (ok ==> Word(Handle(buf, cmd).1, AsInt(addr)) == AsInt(value))
      && (!ok ==> Handle(buf, cmd).1 == buf)
  {
    var addr := Field(cmd, "address");
    var value := Field(cmd, "value");
    WriteHandled(buf, cmd);
    var ok := (addr.Int? || addr.Bool?) && InRange(AsInt(addr)) && Encodable(value);
    assert WriteSpec(buf, addr, value) == Ok(ok);
    if ok {
      StoreThenWord(buf, AsInt(addr), AsInt(value));
    }
  }

  lemma WriteHandled(buf: Buffer, cmd: Value)
    requires IsCommand(cmd, "write_address") && AutoInt(Field(cmd, "address")).Ok?
    ensures var addr := Field(cmd, "address");
      var value := Field(cmd, "value");
      Handle(buf, cmd) == (Handled(Some(Reply("rc_write", Str(WriteText(WriteSpec(buf, addr, value).value, value, addr)))), true), AfterWrite(buf, addr, value))
  {
    RcCommandHandled(buf, cmd);
  }

  /** An rc_command goes to its own branch. */
  lemma RcCommandHandled(buf: Buffer, cmd: Value)
    requires cmd.Obj? && Field(cmd, "type") == Str("rc_command")
    ensures Handle(buf, cmd) == HandleRc(buf, cmd)
  {
  }

  /** As written, rc_pwr_on always reports success, whatever init_data did. */
  lemma PowerOnAlwaysSucceeds(buf: Buffer, channels: Value)
    ensures PowerOnReply(buf, channels).0 == Reply("rc_power_on", Str(PowerOnText(true, channels)))
  {
  }

  /** The discrepancy on one input: channel 9 is refused and nothing is
      written, yet the reply says it was powered on. */
  lemma PowerOnRefusedChannel(buf: Buffer)
    ensures InitDataSpec(buf, Str("9")) == (InitResult(false, IntArray([9])), buf)
    ensures PowerOnReply(buf, Str("9")).0 == Reply("rc_power_on", Str("Successufully powered on the channels: " + "9"))
  {
    NineRefused(buf);
    PowerOnAlwaysSucceeds(buf, Str("9"));
    assert PyStr(Str("9")) == "9";
  }

  /** Channel 9 is outside 0..7: init_data refuses it and writes nothing. */
  lemma NineRefused(buf: Buffer)
    ensures InitDataSpec(buf, Str("9")) == (InitResult(false, IntArray([9])), buf)
  {
    NineParses();
    assert InRangeChannels([9]) == InRangeChannels([]) == [];
    assert OutOfRange([9]) == [9];
    InitDataList(buf, "9");
  }

  lemma NineParses()
    ensures ParseIntList("9") == Some([9])
  {
    ParseIntListRoundTrip([9]);
    assert IntToString(9) == "9";
    assert IntStrings([9]) == ["9"];
  }

  /** Intended: the success text exactly when init_data succeeded. */
  lemma PowerOnIntendedHonest(buf: Buffer, channels: Value)
    ensures InitDataSpec(buf, channels).0.ok ==>
      PowerOnReplyIntended(buf, channels).0 == Reply("rc_power_on", Str(POWER_ON_DONE + PyStr(channels)))
    ensures !InitDataSpec(buf, channels).0.ok ==>
      PowerOnReplyIntended(buf, channels).0 == Reply("rc_power_on", Str(POWER_ON_FAILED + PyStr(channels)))
  {
  }

  // ---------------------------------------------------------------------
  // The console's envelopes at this agent
  // ---------------------------------------------------------------------

  /** The console's back envelope ends this agent's command loop without a
      reply. */
  lemma BackEnvelope(buf: Buffer)
    ensures IsBack(TerminalServer.BACK)
    ensures Handle(buf, TerminalServer.BACK) == (Handled(None, false), buf)
  {
    var b := TerminalServer.BACK.fields;
    assert "type"[0] != "command"[0];
    LookupAt(b, 0);
    LookupAt(b, 1);
    BackEndsCommands(buf, TerminalServer.BACK);
  }

  /** The console's read envelope is read_address with the address given. */
  lemma ReadEnvelopeCommand(a: int)
    ensures IsCommand(TerminalServer.ReadEnvelope(a), "read_address")
      && Field(TerminalServer.ReadEnvelope(a), "address") == Int(a)
  {
    var r := TerminalServer.ReadEnvelope(a).fields;
    assert "type"[0] != "command"[0] && "type"[0] != "address"[0] && "command"[0] != "address"[0];
    LookupAt(r, 0);
    LookupAt(r, 1);
    LookupAt(r, 2);
  }

  /** The console's write envelope is write_address with the address and
      the value given. */
  lemma WriteEnvelopeCommand(a: int, v: int)
    ensures IsCommand(TerminalServer.WriteEnvelope(a, v), "write_address")
      && Field(TerminalServer.WriteEnvelope(a, v), "address") == Int(a)
      && Field(TerminalServer.WriteEnvelope(a, v), "value") == Int(v)
  {
    var w := TerminalServer.WriteEnvelope(a, v).fields;
    assert "type"[0] != "command"[0] && "type"[0] != "address"[0] && "type"[0] != "value"[0];
    assert "command"[0] != "address"[0] && "command"[0] != "value"[0] && "address"[0] != "value"[0];
    LookupAt(w, 0);
    LookupAt(w, 1);
    LookupAt(w, 2);
    LookupAt(w, 3);
  }

  /** The console's power_on envelope is rc_pwr_on with the channel string
      given. */
  lemma PowerOnEnvelopeCommand(channels: string)
    ensures IsCommand(TerminalServer.PowerOnEnvelope(channels), "rc_pwr_on")
      && Field(TerminalServer.PowerOnEnvelope(channels), "channels") == Str(channels)
  {
    var p := TerminalServer.PowerOnEnvelope(channels).fields;
    assert "type"[0] != "command"[0] && "type"[0] != "channels"[0] && "command"[1] != "channels"[1];
    LookupAt(p, 0);
    LookupAt(p, 1);
    LookupAt(p, 2);
  }

  /** read on the console and read_address at the agent, end to end: for a
      register in 0..50 the console prints the register's value and its
      '0x%08x' rendering, and the window is untouched. */
  lemma ReadRoundTrip(buf: Buffer, a: int, at: int)
    requires InRange(a)
    ensures var (d, after) := Handle(buf, TerminalServer.ReadEnvelope(a));
      && d.Handled? && d.stay && d.reply.Some? && after == buf
      && TerminalServer.ReadAccept(a, TerminalServer.Frame("RC", Doc(d.reply.value), at))
         == Ok(["The value of the register " + IntToString(a) + " is: " + IntToString(Word(buf, a)) + " (" + HexWord(Word(buf, a)) + ")"])
  {
    var cmd := TerminalServer.ReadEnvelope(a);
    ReadEnvelopeCommand(a);
    ReadReply(buf, cmd, a);
    TerminalServer.ReadAcceptsReply(a, HexWord(Word(buf, a)), Word(buf, a), at);
  }

  /** write on the console and write_address at the agent, end to end: the
      console prints the agent's success text exactly for a register in
      0..50 and a value that fits in 32 bits, and then the register holds
      the value; otherwise it prints the failure text and nothing changes. */
  lemma WriteRoundTrip(buf: Buffer, a: int, v: int, at: int)
    ensures var (d, after) := Handle(buf, TerminalServer.WriteEnvelope(a, v));
      var ok := InRange(a) && 0 <= v < WORD_RANGE;
      && d.Handled? && d.stay && d.reply.Some?
      && TerminalServer.WriteAccept(TerminalServer.Frame("RC", Doc(d.reply.value), at)) == Ok([WriteText(ok, Int(v), Int(a))])
      && (ok ==> Word(after, a) == v)
      && (!ok ==> after == buf)
  {
    var cmd := TerminalServer.WriteEnvelope(a, v);
    WriteEnvelopeCommand(a, v);
    WriteReply(buf, cmd);
    var ok := InRange(a) && 0 <= v < WORD_RANGE;
    TerminalServer.WriteAcceptsReply(WriteText(ok, Int(v), Int(a)), at);
  }

  /** handle_commands(socket) on the agent's RC object. */
  method HandleCommands(rc: RC, frame: Payload) returns (d: Dispatch)
    requires rc.Valid()
    modifies rc.regs
    ensures (d, rc.Contents()) == Handle(old(rc.Contents()), ReceiveJson(frame))
  {
    var cmd := ReceiveJson(frame);
    if cmd == Null {
      return Handled(None, true);
    }
    var t := Get(cmd, "type");
    if t.Raised? {
      return Crashed(t.error);
    }
    if t.value == Str("clients") {
      return Handled(None, Field(cmd, "command") != Str("back"));
    }
    if t.value != Str("rc_command") {
      return Handled(None, true);
    }
    RcCommandHandled(rc.Contents(), cmd);
    var command := Field(cmd, "command");
    if command == Str("read_address") {
      var r := rc.Read(Field(cmd, "address"));
      if r.Raised? {
        return Crashed(r.error);
      }
      return Handled(Some(Reply("rc_read", ReadingValue(r.value))), true);
    }
    if command == Str("write_address") {
      var addr := Field(cmd, "address");
      var value := Field(cmd, "value");
      var w := rc.Write(addr, value);
      if w.Raised? {
        return Crashed(w.error);
      }
      return Handled(Some(Reply("rc_write", Str(WriteText(w.value, value, addr)))), true);
    }
    if command == Str("rc_pwr_on") {
      var channels := Field(cmd, "channels");
      var res := rc.InitData(channels);
      // The (flag, detail) tuple is tested, not its flag: it is always true.
      return Handled(Some(Reply("rc_power_on", Str(PowerOnText(true, channels)))), true);
    }
    d := Handled(None, true);
  }

  /** client(): connect, then serve events until the list runs out. */
  method Client(rc: RC, ip: string, start: int, events: seq<Event>) returns (a: AgentState)
    requires rc.Valid()
    modifies rc.regs
    ensures (a, rc.Contents()) == Run(AgentConfig(ip), Handle, Start(AgentConfig(ip), start), old(rc.Contents()), events)
    ensures Invariant(a)
  {
    var cfg := AgentConfig(ip);
    a := Start(cfg, start);
    StartInvariant(cfg, start);
    var i := 0;
    while i < |events|
      invariant 0 <= i <= |events|
      invariant rc.Valid()
      invariant (a, rc.Contents()) == Run(cfg, Handle, Start(cfg, start), old(rc.Contents()), events[..i])
    {
      var e := events[i];
      assert events[..i + 1][..i] == events[..i];
      match a.phase {
        case Waiting =>
          a := HeartbeatStep(cfg, a, e);
        case Commands =>
          if e.frame.Some? {
            var d := HandleCommands(rc, e.frame.value);
            a := CommandStep(a, d);
          }
        case Stopped(_) =>
      }
      i := i + 1;
    }
    assert events[..i] == events;
    RunKeepsInvariant(cfg, Handle, Start(cfg, start), old(rc.Contents()), events);
  }
}
