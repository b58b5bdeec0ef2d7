/** The high-voltage agent (hv_client.py): the session loop of AgentSession
    around an HV object, and handle_commands, which turns one console
    command into calls on that object and at most one reply. */
module HvClient {
  import opened Text
  import opened Json
  import opened HvConf
  import opened AgentSession
  import TerminalServer

  /** PING_INTERVAL, PING_TIMEOUT, the socket identity and the console
      address on port 8006. */
  function AgentConfig(ip: string): (cfg: Config)
    ensures cfg.pingInterval == 2 && cfg.pingTimeout == 5 && cfg.identity == "HV"
  {
    Config("HV", 2, 5, "tcp://" + ip + ":8006")
  }

  /** The eight optional parameters of set_init_configuration, by key. */
  function InitParams(cmd: Value): Params {
    Params(Field(cmd, "voltage_set"), Field(cmd, "threshold_set"), Field(cmd, "limit_trip_time"),
           Field(cmd, "limit_voltage"), Field(cmd, "limit_current"), Field(cmd, "limit_temperature"),
           Field(cmd, "rate_up"), Field(cmd, "rate_down"))
  }

  /** The single-parameter commands: the tag their reply would carry and the
      key their value is read from. */
  function Setter(command: Value): Option<(string, string)> {
    if command == Str("set_voltage") then Some(("hv_voltage_set", "voltage_set"))
    else if command == Str("set_limitV") then Some(("hv_voltage_limit", "lim_voltage"))
    else if command == Str("set_limitI") then Some(("hv_current_limit", "lim_current"))
    else if command == Str("set_limitTrip") then Some(("hv_triptime_limit", "lim_triptime"))
    else if command == Str("set_threshold") then Some(("hv_threshold", "threshold"))
    else None
  }

  /** The command {"type": "clients", "command": "back"}. */
  predicate IsBack(cmd: Value) {
    cmd.Obj? && Field(cmd, "type") == Str("clients") && Field(cmd, "command") == Str("back")
  }

  /** The command {"type": "hv_command", "command": "set_init_configuration", ...}. */
  predicate IsInitConfiguration(cmd: Value) {
    cmd.Obj? && Field(cmd, "type") == Str("hv_command") && Field(cmd, "command") == Str("set_init_configuration")
  }

  /** The hv_init_conf reply: the (valid, invalid) tuple as a JSON list. */
  function InitConfReply(valid: seq<int>, invalid: seq<int>): Value {
    Reply("hv_init_conf", Arr([IntArray(valid), IntArray(invalid)]))
  }

  /** handle_commands on a decoded command (Null when decoding failed):
      what it sends and whether to stay, and the HV state after it. */
  function Handle(s: HvState, cmd: Value): (r: (Dispatch, HvState))
    ensures r.1 != s ==> IsInitConfiguration(cmd)
    ensures r.0.Handled? && !r.0.stay <==> IsBack(cmd)
    ensures r.0.Handled? && r.0.reply.Some? ==> IsInitConfiguration(cmd) && Field(r.0.reply.value, "response") == Str("hv_init_conf")
  {
    if cmd == Null then (Handled(None, true), s)
    else match Get(cmd, "type")
      case Raised(e) => (Crashed(e), s)
      case Ok(t) =>
        if t == Str("clients") then (Handled(None, Field(cmd, "command") != Str("back")), s)
        else if t == Str("hv_command") then HandleHv(s, cmd)
        else (Handled(None, true), s)
  }

  /** The hv_command branch of handle_commands. */
  function HandleHv(s: HvState, cmd: Value): (r: (Dispatch, HvState))
    requires cmd.Obj? && Field(cmd, "type") == Str("hv_command")
    ensures r.1 != s ==> IsInitConfiguration(cmd)
    ensures r.0.Handled? ==> r.0.stay
    ensures r.0.Handled? && r.0.reply.Some? ==> IsInitConfiguration(cmd) && Field(r.0.reply.value, "response") == Str("hv_init_conf")
  {
    var command := Field(cmd, "command");
    if command == Str("set_init_configuration") then
      match ProcessChannelsSpec(s, Field(cmd, "channel"), Field(cmd, "port"), InitParams(cmd))
      case Raised(e) => (Crashed(e), s)
      case Ok((valid, invalid, s1)) => (Handled(Some(InitConfReply(valid, invalid)), true), s1)
    else if Setter(command).Some? then
      var value := Field(cmd, Setter(command).value.1);
      (Crashed(SetOneParameter(Field(cmd, "channel"), value, Field(cmd, "port")).error), s)
    else if command == Str("set_power_on") || command == Str("set_power_off") then
      // HV defines neither power_on nor power_off
      (Crashed(AttributeError("power")), s)
    else (Handled(None, true), s)
  }

  /** An hv_command goes to its own branch. */
  lemma HvCommandHandled(s: HvState, cmd: Value)
    requires cmd.Obj? && Field(cmd, "type") == Str("hv_command")
    ensures Handle(s, cmd) == HandleHv(s, cmd)
  {
  }

  /** A frame that is not JSON decodes to None: handle_commands sends
      nothing, stays, and touches nothing. A decoded value that is not a
      dict crashes on .get. */
  lemma UndecodableStays(s: HvState, frame: Payload)
    requires frame.Token?
    ensures Handle(s, ReceiveJson(frame)) == (Handled(None, true), s)
    ensures forall v: Value :: v != Null && !v.Obj? ==> Handle(s, v) == (Crashed(AttributeError("get")), s)
  {
  }

  /** {"type": "clients", "command": "back"} ends the command loop without a
      reply, and any other clients command is ignored. */
  lemma BackEndsCommands(s: HvState, cmd: Value)
    requires cmd.Obj? && Field(cmd, "type") == Str("clients")
    ensures Handle(s, cmd) == (Handled(None, !IsBack(cmd)), s)
  {
  }

  /** set_init_configuration replies hv_init_conf with the valid and the
      refused channels, which are the channels of the selector split into
      two, the valid ones all being addresses 1..20; a selector that is not
      a string crashes on split. */
  lemma InitConfiguration(s: HvState, cmd: Value)
    requires IsInitConfiguration(cmd)
    ensures var sel := Field(cmd, "channel");
      && (ChannelList(sel).Raised? ==> Handle(s, cmd) == (Crashed(AttributeError("split")), s))
      && (ChannelList(sel) == Ok(None) ==> Handle(s, cmd) == (Handled(Some(InitConfReply([], [])), true), s))
      && (ChannelList(sel).Ok? && ChannelList(sel).value.Some? ==>
            var xs := ChannelList(sel).value.value;
            var (valid, invalid, s1) := ProcessList(s, xs, Field(cmd, "port"), InitParams(cmd));
            && Handle(s, cmd) == (Handled(Some(InitConfReply(valid, invalid)), true), s1)
            && multiset(valid) + multiset(invalid) == multiset(xs)
            && (forall k :: 0 <= k < |valid| ==> CheckAddressBoundary(valid[k])))
  {
    InitConfHandled(s, cmd);
    ChannelsCases(s, Field(cmd, "channel"), Field(cmd, "port"), InitParams(cmd));
  }

  lemma InitConfHandled(s: HvState, cmd: Value)
    requires IsInitConfiguration(cmd)
    ensures var r := ProcessChannelsSpec(s, Field(cmd, "channel"), Field(cmd, "port"), InitParams(cmd));
      Handle(s, cmd) == if r.Raised? then (Crashed(r.error), s) else (Handled(Some(InitConfReply(r.value.0, r.value.1)), true), r.value.2)
  {
    HvCommandHandled(s, cmd);
  }

  /** The single-parameter setters and the power commands never reply: the
      call raises, the session ends, and no register is written. */
  lemma SettersRaise(s: HvState, cmd: Value)
    requires cmd.Obj? && Field(cmd, "type") == Str("hv_command")
    requires Setter(Field(cmd, "command")).Some?
      || Field(cmd, "command") == Str("set_power_on") || Field(cmd, "command") == Str("set_power_off")
    ensures Handle(s, cmd).0.Crashed? && Handle(s, cmd).1 == s
    ensures Setter(Field(cmd, "command")).Some? ==> Handle(s, cmd).0.error.TypeError?
  {
    HvCommandHandled(s, cmd);
    NotInitConfiguration(Field(cmd, "command"));
  }

  /** No setter and no power command is set_init_configuration. */
  lemma NotInitConfiguration(command: Value)
    requires Setter(command).Some? || command == Str("set_power_on") || command == Str("set_power_off")
    ensures command != Str("set_init_configuration")
  {
    if Setter(command).Some? {
      assert |command.s| < |"set_init_configuration"|;
    }
  }

  /** A command of another type, or an hv_command the handler does not
      know, is ignored: no reply, stay, nothing written. */
  lemma Unmatched(s: HvState, cmd: Value)
    requires cmd.Obj?
    requires Field(cmd, "type") != Str("clients")
    requires Field(cmd, "type") == Str("hv_command") ==>
      !IsInitConfiguration(cmd) && Setter(Field(cmd, "command")).None?
      && Field(cmd, "command") != Str("set_power_on") && Field(cmd, "command") != Str("set_power_off")
    ensures Handle(s, cmd) == (Handled(None, true), s)
  {
  }

  /** The five setters' reply tags and parameter keys. */
  lemma SetterTable()
    ensures Setter(Str("set_voltage")) == Some(("hv_voltage_set", "voltage_set"))
    ensures Setter(Str("set_limitV")) == Some(("hv_voltage_limit", "lim_voltage"))
    ensures Setter(Str("set_limitI")) == Some(("hv_current_limit", "lim_current"))
    ensures Setter(Str("set_limitTrip")) == Some(("hv_triptime_limit", "lim_triptime"))
    ensures Setter(Str("set_threshold")) == Some(("hv_threshold", "threshold"))
    ensures Setter(Str("set_init_configuration")) == None
  {
  }

  /** The console's back envelope ends this agent's command loop without a
      reply. */
  lemma BackEnvelope(s: HvState)
    ensures Handle(s, TerminalServer.BACK) == (Handled(None, false), s)
  {
    assert "type"[0] != "command"[0];
    LookupAt(TerminalServer.BACK.fields, 0);
    LookupAt(TerminalServer.BACK.fields, 1);
    BackEndsCommands(s, TerminalServer.BACK);
  }

  /** The console's print_message envelope (type hv_config) is ignored. */
  lemma PrintEnvelopeIgnored(s: HvState, message: string)
    ensures Handle(s, TerminalServer.PrintEnvelope(message)) == (Handled(None, true), s)
  {
    assert "type"[0] != "command"[0] && "type"[0] != "message"[0];
    LookupAt(TerminalServer.PrintEnvelope(message).fields, 0);
    Unmatched(s, TerminalServer.PrintEnvelope(message));
  }

  /** handle_commands(socket) on the agent's HV object. */
  method HandleCommands(hv: HV, frame: Payload) returns (d: Dispatch)
    modifies hv
    ensures (d, hv.Model()) == Handle(old(hv.Model()), ReceiveJson(frame))
  {
    var cmd := ReceiveJson(frame);
    if cmd == Null {
      return Handled(None, true);
    }
    var t := Get(cmd, "type");
    if t.Raised? {
      return Crashed(t.error);
    }
    if t.value == Str("clients") {
      return Handled(None, Field(cmd, "command") != Str("back"));
    }
    if t.value != Str("hv_command") {
      return Handled(None, true);
    }
    HvCommandHandled(hv.Model(), cmd);
    var command := Field(cmd, "command");
    if command == Str("set_init_configuration") {
      var result := hv.SetHvInitConfiguration(Field(cmd, "port"), Field(cmd, "channel"), InitParams(cmd));
      if result.Raised? {
        return Crashed(result.error);
      }
      return Handled(Some(InitConfReply(result.value.0, result.value.1)), true);
    }
    if Setter(command).Some? {
      var value := Field(cmd, Setter(command).value.1);
      var result := SetOneParameter(Field(cmd, "channel"), value, Field(cmd, "port"));
      return Crashed(result.error);
    }
    if command == Str("set_power_on") || command == Str("set_power_off") {
      return Crashed(AttributeError("power"));
    }
    d := Handled(None, true);
  }

  /** client(): connect, then serve events until the list runs out. */
  method Client(hv: HV, ip: string, start: int, events: seq<Event>) returns (a: AgentState)
    modifies hv
    ensures (a, hv.Model()) == Run(AgentConfig(ip), Handle, Start(AgentConfig(ip), start), old(hv.Model()), events)
    ensures Invariant(a)
  {
    var cfg := AgentConfig(ip);
    a := Start(cfg, start);
    StartInvariant(cfg, start);
    var i := 0;
    while i < |events|
      invariant 0 <= i <= |events|
      invariant (a, hv.Model()) == Run(cfg, Handle, Start(cfg, start), old(hv.Model()), events[..i])
    {
      var e := events[i];
      assert events[..i + 1][..i] == events[..i];
      match a.phase {
        case Waiting =>
          a := HeartbeatStep(cfg, a, e);
        case Commands =>
          if e.frame.Some? {
            var d := HandleCommands(hv, e.frame.value);
            a := CommandStep(a, d);
          }
        case Stopped(_) =>
      }
      i := i + 1;
    }
    assert events[..i] == events;
    RunKeepsInvariant(cfg, Handle, Start(cfg, start), old(hv.Model()), events);
  }
}
