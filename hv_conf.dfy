/** The high-voltage agent's view of the boards (class HV of hv_conf.py):
    channels are Modbus slaves on a serial port, opened one at a time and
    configured by writing holding registers.  The serial bus is abstract:
    whether a probe finds a board is an oracle answer, and register writes
    are appended to a log of bus transactions. */
module HvConf {
  import opened Text
  import opened Json

  const MIN_ADDRESS: int := 1
  const MAX_ADDRESS: int := 20

  // Holding registers of the HV board
  const REG_LIMIT_TRIPTIME: int := 0x22
  const REG_RATE_RAMPUP: int := 0x23
  const REG_RATE_RAMPDOWN: int := 0x24
  const REG_LIMIT_CURRENT: int := 0x25
  const REG_VOLTAGE_SET: int := 0x26
  const REG_LIMIT_VOLTAGE: int := 0x27
  const REG_THRESHOLD: int := 0x2D
  const REG_LIMIT_TEMPERATURE: int := 0x2F

  /** One register write on the bus: serial port, slave address, register,
      value. */
  datatype RegWrite = RegWrite(port: Value, slave: int, register: int, value: Value)

  /** The optional parameters of configure_channel; Null stands for None. */
  datatype Params = Params(
    voltageSet: Value, thresholdSet: Value, limitTripTime: Value, limitVoltage: Value,
    limitCurrent: Value, limitTemperature: Value, rateUp: Value, rateDown: Value)

  /** The registers configure_channel writes, in the order it writes them. */
  const WRITE_ORDER: seq<int> := [REG_VOLTAGE_SET, REG_THRESHOLD, REG_LIMIT_TRIPTIME, REG_LIMIT_VOLTAGE,
                                  REG_LIMIT_CURRENT, REG_LIMIT_TEMPERATURE, REG_RATE_RAMPUP, REG_RATE_RAMPDOWN]

  /** The parameters in that same order. */
  function ParamList(p: Params): (vs: seq<Value>)
    ensures |vs| == |WRITE_ORDER|
  {
    [p.voltageSet, p.thresholdSet, p.limitTripTime, p.limitVoltage,
     p.limitCurrent, p.limitTemperature, p.rateUp, p.rateDown]
  }

  /** The writes of the given parameters that are present, to the slave,
      keeping their order. */
  function PresentWrites(port: Value, slave: int, regs: seq<int>, vals: seq<Value>): (ws: seq<RegWrite>)
    requires |regs| == |vals|
    ensures |ws| <= |vals|
  {
    if regs == [] then []
    else (if vals[0] != Null then [RegWrite(port, slave, regs[0], vals[0])] else [])
         + PresentWrites(port, slave, regs[1..], vals[1..])
  }

  /** The HV object as a value: the opened instrument (port and slave
      address), the recorded address, the probe answers still to come, and
      the bus transactions so far. */
  datatype HvState = HvState(dev: Option<(Value, int)>, address: Option<int>, probes: seq<bool>, bus: seq<RegWrite>)

  /** probe(serial, addr): the next oracle answer; when the answers are used
      up no board responds. */
  function ProbeSpec(s: HvState): (r: (bool, HvState))
    ensures r.1 == s.(probes := if s.probes == [] then [] else s.probes[1..])
    ensures r.0 <==> s.probes != [] && s.probes[0]
  {
    if s.probes == [] then (false, s) else (s.probes[0], s.(probes := s.probes[1..]))
  }

  /** open(serial, addr): on a successful probe, the instrument and the
      address become the ones asked for. */
  function OpenSpec(s: HvState, port: Value, addr: int): (r: (bool, HvState))
  {
    var (found, s1) := ProbeSpec(s);
    if found then (true, s1.(dev := Some((port, addr)), address := Some(addr))) else (false, s1)
  }

  /** checkAddressBoundary: slave addresses 1..20. */
  predicate CheckAddressBoundary(channel: int) { MIN_ADDRESS <= channel <= MAX_ADDRESS }

  /** Modbus addresses 1 and 20 are accepted, 0 and 21 refused. */
  lemma AddressEdges()
    ensures CheckAddressBoundary(1) && CheckAddressBoundary(20)
    ensures !CheckAddressBoundary(0) && !CheckAddressBoundary(21)
  {
  }

  /** check_address(port, channel): open, then require that the recorded
      address is the channel and that one is recorded at all. */
  function CheckAddressSpec(s: HvState, port: Value, channel: int): (r: (bool, HvState))
  {
    var (isOpen, s1) := OpenSpec(s, port, channel);
    if isOpen then (s1.address == Some(channel) && s1.address.Some?, s1) else (false, s1)
  }

  /** The address test after a successful open cannot fail: check_address
      is open. */
  lemma CheckAddressIsOpen(s: HvState, port: Value, channel: int)
    ensures CheckAddressSpec(s, port, channel) == OpenSpec(s, port, channel)
    ensures CheckAddressSpec(s, port, channel).0 <==> s.probes != [] && s.probes[0]
  {
  }

  /** statusString: the status register's code as text. */
  function StatusString(code: int): (name: string)
    ensures 0 <= code <= 6 ==> name == ["UP", "DOWN", "RUP", "RDN", "TUP", "TDN", "TRIP"][code]
    ensures !(0 <= code <= 6) ==> name == "undef"
  {
    var statuses := map[0 := "UP", 1 := "DOWN", 2 := "RUP", 3 := "RDN", 4 := "TUP", 5 := "TDN", 6 := "TRIP"];
    if code in statuses then statuses[code] else "undef"
  }

  /** configure_channel(channel, port, **params): open the channel, then
      write each parameter that is not None. */
  function ConfigureSpec(s: HvState, channel: int, port: Value, p: Params): (r: (bool, HvState))
  {
    var (isOpen, s1) := OpenSpec(s, port, channel);
    if isOpen then (true, s1.(bus := s1.bus + PresentWrites(port, channel, WRITE_ORDER, ParamList(p))))
    else (false, s1)
  }

  /** A configured channel receives exactly its present parameters, in
      register order voltage 0x26, threshold 0x2D, trip time 0x22, voltage
      limit 0x27, current limit 0x25, temperature limit 0x2F, ramp up 0x23,
      ramp down 0x24; a channel that does not open receives nothing. */
  lemma ConfigureWrites(s: HvState, channel: int, port: Value, p: Params)
    ensures var (ok, s1) := ConfigureSpec(s, channel, port, p);
      && (ok <==> s.probes != [] && s.probes[0])
      && (ok ==> s1.bus == s.bus + PresentWrites(port, channel, WRITE_ORDER, ParamList(p)))
      && (!ok ==> s1.bus == s.bus)
  {
  }

  /** With no parameter present nothing is written; with every parameter
      present, write k goes to register k of the order. */
  lemma {:induction false} NonePresent(port: Value, slave: int, regs: seq<int>, vals: seq<Value>)
    requires |regs| == |vals| && forall k :: 0 <= k < |vals| ==> vals[k] == Null
    ensures PresentWrites(port, slave, regs, vals) == []
  {
    if regs != [] {
      NonePresent(port, slave, regs[1..], vals[1..]);
    }
  }

  /** When every parameter is present, each one is written to its register. */
  lemma {:induction false} AllPresent(port: Value, slave: int, regs: seq<int>, vals: seq<Value>)
    requires |regs| == |vals| && forall k :: 0 <= k < |vals| ==> vals[k] != Null
    ensures |PresentWrites(port, slave, regs, vals)| == |vals|
    ensures forall k :: 0 <= k < |vals| ==> PresentWrites(port, slave, regs, vals)[k] == RegWrite(port, slave, regs[k], vals[k])
  {
    if regs != [] {
      AllPresent(port, slave, regs[1..], vals[1..]);
    }
  }

  // ---------------------------------------------------------------------
  // process_channels
  // ---------------------------------------------------------------------

  /** range(1, 8), what the selector "all" stands for. */
  const ALL_CHANNELS: seq<int> := [1, 2, 3, 4, 5, 6, 7]

  /** The channel list of a selector: "all", or the items of a comma list;
      None when an item is not an integer; the split of a selector that is
      not a string raises AttributeError, which nothing catches. */
  function ChannelList(channels: Value): (r: Outcome<Option<seq<int>>>)
    ensures r.Raised? <==> channels != Str("all") && !channels.Str?
    ensures channels == Str("all") ==> r == Ok(Some(ALL_CHANNELS))
  {
    if channels == Str("all") then Ok(Some(ALL_CHANNELS))
    else if channels.Str? then Ok(ParseIntList(channels.s))
    else Raised(AttributeError("split"))
  }

  /** One pass of the loop body: out-of-range channels are refused at once;
      otherwise the channel must answer check_address and then
      configure_channel. */
  function ProcessStep(s: HvState, channel: int, port: Value, p: Params): (r: (bool, HvState))
  {
    if !CheckAddressBoundary(channel) then (false, s)
    else
      var (found, s1) := CheckAddressSpec(s, port, channel);
      if !found then (false, s1) else ConfigureSpec(s1, channel, port, p)
  }

  /** The loop over a channel list: valid channels, refused channels, and
      the HV state after the last one. */
  function ProcessList(s: HvState, xs: seq<int>, port: Value, p: Params): (r: (seq<int>, seq<int>, HvState))
    ensures |r.0| + |r.1| == |xs|
  {
    if xs == [] then ([], [], s)
    else
      var (valid, invalid, s1) := ProcessList(s, xs[..|xs| - 1], port, p);
      var c := xs[|xs| - 1];
      var (ok, s2) := ProcessStep(s1, c, port, p);
      if ok then (valid + [c], invalid, s2) else (valid, invalid + [c], s2)
  }

  /** The loop after one more channel. */
  lemma ProcessListNext(s: HvState, xs: seq<int>, i: nat, port: Value, p: Params)
    requires i < |xs|
    ensures var (valid, invalid, s1) := ProcessList(s, xs[..i], port, p);
      var (ok, s2) := ProcessStep(s1, xs[i], port, p);
      ProcessList(s, xs[..i + 1], port, p) == if ok then (valid + [xs[i]], invalid, s2) else (valid, invalid + [xs[i]], s2)
  {
    assert xs[..i + 1][..i] == xs[..i];
  }

  /** process_channels(channels, port, **params). */
  function ProcessChannelsSpec(s: HvState, channels: Value, port: Value, p: Params): (r: Outcome<(seq<int>, seq<int>, HvState)>)
    ensures r.Raised? <==> ChannelList(channels).Raised?
  {
    match ChannelList(channels)
    case Raised(e) => Raised(e)
    case Ok(None) => Ok(([], [], s))
    case Ok(Some(xs)) => Ok(ProcessList(s, xs, port, p))
  }

  /** process_channels on each kind of selector: one that is not a string
      raises on split, an empty or unparsable one processes nothing, and a
      list is split into valid and invalid channels. */
  lemma ChannelsCases(s: HvState, channels: Value, port: Value, p: Params)
    ensures ChannelList(channels).Raised? ==> ProcessChannelsSpec(s, channels, port, p) == Raised(AttributeError("split"))
    ensures ChannelList(channels) == Ok(None) ==> ProcessChannelsSpec(s, channels, port, p) == Ok(([], [], s))
    ensures ChannelList(channels).Ok? && ChannelList(channels).value.Some? ==>
      var xs := ChannelList(channels).value.value;
      var r := ProcessList(s, xs, port, p);
      && ProcessChannelsSpec(s, channels, port, p) == Ok(r)
      && multiset(r.0) + multiset(r.1) == multiset(xs)
      && (forall k :: 0 <= k < |r.0| ==> CheckAddressBoundary(r.0[k]))
  {
    if ChannelList(channels).Ok? && ChannelList(channels).value.Some? {
      ProcessPartition(s, ChannelList(channels).value.value, port, p);
    }
  }

  /** [x for x, keep in zip(xs, tags) if keep == b]. */
  function Pick(xs: seq<int>, tags: seq<bool>, b: bool): seq<int>
    requires |xs| == |tags|
  {
    if xs == [] then []
    else Pick(xs[..|xs| - 1], tags[..|tags| - 1], b) + (if tags[|tags| - 1] == b then [xs[|xs| - 1]] else [])
  }

  /** The outcome of each channel of the list, in order. */
  function Outcomes(s: HvState, xs: seq<int>, port: Value, p: Params): (tags: seq<bool>)
    ensures |tags| == |xs|
  {
    if xs == [] then []
    else
      var s1 := ProcessList(s, xs[..|xs| - 1], port, p).2;
      Outcomes(s, xs[..|xs| - 1], port, p) + [ProcessStep(s1, xs[|xs| - 1], port, p).0]
  }

  /** valid and invalid split the channel list: each listed channel, in list
      order and with its repetitions, goes to exactly one of the two, and
      every valid channel is inside 1..20. */
  lemma ProcessPartition(s: HvState, xs: seq<int>, port: Value, p: Params)
    ensures var (valid, invalid, _) := ProcessList(s, xs, port, p);
      var tags := Outcomes(s, xs, port, p);
      && valid == Pick(xs, tags, true) && invalid == Pick(xs, tags, false)
      && multiset(valid) + multiset(invalid) == multiset(xs)
    ensures forall k :: 0 <= k < |ProcessList(s, xs, port, p).0| ==> CheckAddressBoundary(ProcessList(s, xs, port, p).0[k])
  {
    ProcessPicks(s, xs, port, p);
    PickMultiset(xs, Outcomes(s, xs, port, p));
    ValidInRange(s, xs, port, p);
  }

  lemma {:induction false} ProcessPicks(s: HvState, xs: seq<int>, port: Value, p: Params)
    ensures var (valid, invalid, _) := ProcessList(s, xs, port, p);
      var tags := Outcomes(s, xs, port, p);
      valid == Pick(xs, tags, true) && invalid == Pick(xs, tags, false)
  {
    if xs != [] {
      var init := xs[..|xs| - 1];
      ProcessPicks(s, init, port, p);
      var tags := Outcomes(s, xs, port, p);
      assert tags[..|tags| - 1] == Outcomes(s, init, port, p);
    }
  }

  lemma {:induction false} PickMultiset(xs: seq<int>, tags: seq<bool>)
    requires |xs| == |tags|
    ensures multiset(Pick(xs, tags, true)) + multiset(Pick(xs, tags, false)) == multiset(xs)
  {
    if xs != [] {
      PickMultiset(xs[..|xs| - 1], tags[..|tags| - 1]);
      assert xs == xs[..|xs| - 1] + [xs[|xs| - 1]];
    }
  }

  lemma {:induction false} ValidInRange(s: HvState, xs: seq<int>, port: Value, p: Params)
    ensures forall k :: 0 <= k < |ProcessList(s, xs, port, p).0| ==> CheckAddressBoundary(ProcessList(s, xs, port, p).0[k])
  {
    if xs != [] {
      ValidInRange(s, xs[..|xs| - 1], port, p);
    }
  }

  /** What a single channel does: outside 1..20 it costs no probe and no
      write; inside, it is valid exactly when the next two probes (one for
      check_address, one for configure_channel) find the board, and then
      exactly its present parameters are written to it. */
  lemma StepOutcome(s: HvState, c: int, port: Value, p: Params)
    ensures !CheckAddressBoundary(c) ==> ProcessStep(s, c, port, p) == (false, s)
    ensures CheckAddressBoundary(c) ==>
      var (ok, s1) := ProcessStep(s, c, port, p);
      && (ok <==> |s.probes| >= 2 && s.probes[0] && s.probes[1])
      && (ok ==> s1.bus == s.bus + PresentWrites(port, c, WRITE_ORDER, ParamList(p)))
      && (!ok ==> s1.bus == s.bus)
  {
    if CheckAddressBoundary(c) {
      CheckAddressIsOpen(s, port, c);
      var s1 := CheckAddressSpec(s, port, c).1;
      ConfigureWrites(s1, c, port, p);
    }
  }

  /** The bus only grows: earlier transactions are never undone. */
  lemma {:induction false} BusGrows(s: HvState, xs: seq<int>, port: Value, p: Params)
    ensures s.bus <= ProcessList(s, xs, port, p).2.bus
  {
    if xs != [] {
      var init := xs[..|xs| - 1];
      BusGrows(s, init, port, p);
      StepOutcome(ProcessList(s, init, port, p).2, xs[|xs| - 1], port, p);
    }
  }

  /** "all" is channels 1..7 even though addresses up to 20 are accepted
      when listed; a list with an item that is not an integer touches
      nothing and gives two empty lists. */
  lemma SelectorCases(s: HvState, port: Value, p: Params, text: string)
    ensures ProcessChannelsSpec(s, Str("all"), port, p) == Ok(ProcessList(s, ALL_CHANNELS, port, p))
    ensures CheckAddressBoundary(20) && !(20 in ALL_CHANNELS)
    ensures text != "all" && ParseIntList(text).None? ==> ProcessChannelsSpec(s, Str(text), port, p) == Ok(([], [], s))
  {
  }

  /** The single-parameter setters (set_voltage, set_threshold, set_limitI,
      set_limitV, set_limitTrip) hand their value to process_channels as a
      third positional argument, which its signature cannot take: the call
      raises TypeError before anything is done. */
  function SetOneParameter(channels: Value, value: Value, port: Value): (r: Outcome<(seq<int>, seq<int>)>)
    ensures r.Raised? && r.error.TypeError?
  {
    Raised(TypeError("process_channels"))
  }

  // ---------------------------------------------------------------------
  // The HV object
  // ---------------------------------------------------------------------

  class HV {
    var dev: Option<(Value, int)>
    var address: Option<int>
    var probes: seq<bool>
    var bus: seq<RegWrite>

    /** HV(): no instrument is open yet; answers are the probe results to come. */
    constructor (answers: seq<bool>)
      ensures Model() == HvState(None, None, answers, [])
    {
      dev, address, probes, bus := None, None, answers, [];
    }

    function Model(): HvState
      reads this
    {
      HvState(dev, address, probes, bus)
    }

    /** probe(serial, addr). */
    method Probe() returns (found: bool)
      modifies this
      ensures (found, Model()) == ProbeSpec(old(Model()))
    {
      if probes == [] {
        found := false;
      } else {
        found := probes[0];
        probes := probes[1..];
      }
    }

    /** open(serial, addr). */
    method Open(port: Value, addr: int) returns (ok: bool)
      modifies this
      ensures (ok, Model()) == OpenSpec(old(Model()), port, addr)
    {
      var found := Probe();
      if found {
        dev := Some((port, addr));
        address := Some(addr);
        ok := true;
      } else {
        ok := false;
      }
    }

    /** check_address(port, channel). */
    method CheckAddress(port: Value, channel: int) returns (ok: bool)
      modifies this
      ensures (ok, Model()) == CheckAddressSpec(old(Model()), port, channel)
    {
      var isOpen := Open(port, channel);
      if isOpen {
        ok := address == Some(channel) && address.Some?;
      } else {
        ok := false;
      }
    }

    /** dev.write_register(register, value) on the open instrument. */
    method WriteRegister(register: int, value: Value)
      requires dev.Some?
      modifies this
      ensures Model() == old(Model().(bus := bus + [RegWrite(dev.value.0, dev.value.1, register, value)]))
    {
      bus := bus + [RegWrite(dev.value.0, dev.value.1, register, value)];
    }

    /** One `if value is not None: self.setX(value)` step of
        configure_channel: the setter writes its register on the opened
        instrument. */
    method SetIfPresent(register: int, value: Value)
      requires dev.Some?
      modifies this
      ensures dev == old(dev) && address == old(address) && probes == old(probes)
      ensures bus == old(bus) + Opt(dev.value.0, dev.value.1, register, value)
    {
      if value != Null {
        WriteRegister(register, value);
      }
    }

    /** The optional writes of configure_channel, in order, on the opened
        instrument. */
    method SetParams(p: Params)
      requires dev.Some?
      modifies this
      ensures dev == old(dev) && address == old(address) && probes == old(probes)
      ensures bus == old(bus) + PresentWrites(dev.value.0, dev.value.1, WRITE_ORDER, ParamList(p))
    {
      SetIfPresent(REG_VOLTAGE_SET, p.voltageSet);
      SetIfPresent(REG_THRESHOLD, p.thresholdSet);
      SetIfPresent(REG_LIMIT_TRIPTIME, p.limitTripTime);
      SetIfPresent(REG_LIMIT_VOLTAGE, p.limitVoltage);
      SetIfPresent(REG_LIMIT_CURRENT, p.limitCurrent);
      SetIfPresent(REG_LIMIT_TEMPERATURE, p.limitTemperature);
      SetIfPresent(REG_RATE_RAMPUP, p.rateUp);
      SetIfPresent(REG_RATE_RAMPDOWN, p.rateDown);
      ParamSteps(old(bus), dev.value.0, dev.value.1, p);
      AppendIsPresent(old(bus), dev.value.0, dev.value.1, WRITE_ORDER, ParamList(p));
    }

    /** configure_channel(channel, port, **params). */
    method ConfigureChannel(channel: int, port: Value, p: Params) returns (ok: bool)
      modifies this
      ensures (ok, Model()) == ConfigureSpec(old(Model()), channel, port, p)
    {
      var isOpen := Open(port, channel);
      if !isOpen {
        return false;
      }
      assert dev == Some((port, channel));
      SetParams(p);
      return true;
    }

    /** process_channels(channels, port, **params). */
    method ProcessChannels(channels: Value, port: Value, p: Params) returns (r: Outcome<(seq<int>, seq<int>)>)
      modifies this
      ensures var spec := ProcessChannelsSpec(old(Model()), channels, port, p);
        && (spec.Raised? ==> r == Raised(spec.error) && Model() == old(Model()))
        && (spec.Ok? ==> r == Ok((spec.value.0, spec.value.1)) && Model() == spec.value.2)
    {
      var list := ChannelList(channels);
      if list.Raised? {
        return Raised(list.error);
      }
      if list.value.None? {
        return Ok(([], []));
      }
      var xs := list.value.value;
      var valid: seq<int> := [];
      var invalid: seq<int> := [];
      var i := 0;
      while i < |xs|
        invariant 0 <= i <= |xs|
        invariant (valid, invalid, Model()) == ProcessList(old(Model()), xs[..i], port, p)
      {
        var channel := xs[i];
        ProcessListNext(old(Model()), xs, i, port, p);
        var ok := ProcessStepOf(channel, port, p);
        if ok {
          valid := valid + [channel];
        } else {
          invalid := invalid + [channel];
        }
        i := i + 1;
      }
      assert xs[..i] == xs;
      return Ok((valid, invalid));
    }

    /** The body of the loop of process_channels for one channel. */
    method ProcessStepOf(channel: int, port: Value, p: Params) returns (ok: bool)
      modifies this
      ensures (ok, Model()) == ProcessStep(old(Model()), channel, port, p)
    {
      if !CheckAddressBoundary(channel) {
        return false;
      }
      var found := CheckAddress(port, channel);
      if !found {
        return false;
      }
      ok := ConfigureChannel(channel, port, p);
    }

    /** set_hv_init_configuration(port, channels, ...): process_channels
        with all eight parameters by name. */
    method SetHvInitConfiguration(port: Value, channels: Value, p: Params) returns (r: Outcome<(seq<int>, seq<int>)>)
      modifies this
      ensures var spec := ProcessChannelsSpec(old(Model()), channels, port, p);
        && (spec.Raised? ==> r == Raised(spec.error) && Model() == old(Model()))
        && (spec.Ok? ==> r == Ok((spec.value.0, spec.value.1)) && Model() == spec.value.2)
    {
      r := ProcessChannels(channels, port, p);
    }
  }

  /** The bus after the optional writes of the given parameters, one write
      step after the other. */
  function AppendPresent(b: seq<RegWrite>, port: Value, slave: int, regs: seq<int>, vals: seq<Value>): seq<RegWrite>
    requires |regs| == |vals|
    decreases |regs|
  {
    if regs == [] then b
    else AppendPresent(b + Opt(port, slave, regs[0], vals[0]), port, slave, regs[1..], vals[1..])
  }

  /** The write steps from parameter k on: parameter k's, then the rest. */
  lemma AppendAt(b: seq<RegWrite>, port: Value, slave: int, r: seq<int>, v: seq<Value>, k: nat)
    requires k < |r| == |v|
    ensures AppendPresent(b, port, slave, r[k..], v[k..]) == AppendPresent(b + Opt(port, slave, r[k], v[k]), port, slave, r[k + 1..], v[k + 1..])
  {
    assert r[k..][1..] == r[k + 1..] && v[k..][1..] == v[k + 1..];
  }

  /** The write steps of configure_channel's eight parameters, one after
      the other. */
  lemma ParamSteps(b: seq<RegWrite>, port: Value, slave: int, p: Params)
    ensures AppendPresent(b, port, slave, WRITE_ORDER, ParamList(p)) ==
      b + Opt(port, slave, REG_VOLTAGE_SET, p.voltageSet) + Opt(port, slave, REG_THRESHOLD, p.thresholdSet)
      + Opt(port, slave, REG_LIMIT_TRIPTIME, p.limitTripTime) + Opt(port, slave, REG_LIMIT_VOLTAGE, p.limitVoltage)
      + Opt(port, slave, REG_LIMIT_CURRENT, p.limitCurrent) + Opt(port, slave, REG_LIMIT_TEMPERATURE, p.limitTemperature)
      + Opt(port, slave, REG_RATE_RAMPUP, p.rateUp) + Opt(port, slave, REG_RATE_RAMPDOWN, p.rateDown)
  {
    var r, v := WRITE_ORDER, ParamList(p);
    EightSteps(b, port, slave, r, v);
    assert r[0] == REG_VOLTAGE_SET && r[1] == REG_THRESHOLD && r[2] == REG_LIMIT_TRIPTIME && r[3] == REG_LIMIT_VOLTAGE;
    assert r[4] == REG_LIMIT_CURRENT && r[5] == REG_LIMIT_TEMPERATURE && r[6] == REG_RATE_RAMPUP && r[7] == REG_RATE_RAMPDOWN;
  }

  lemma EightSteps(b: seq<RegWrite>, port: Value, slave: int, r: seq<int>, v: seq<Value>)
    requires |r| == 8 && |v| == 8
    ensures AppendPresent(b, port, slave, r, v) ==
      b + Opt(port, slave, r[0], v[0]) + Opt(port, slave, r[1], v[1]) + Opt(port, slave, r[2], v[2]) + Opt(port, slave, r[3], v[3])
      + Opt(port, slave, r[4], v[4]) + Opt(port, slave, r[5], v[5]) + Opt(port, slave, r[6], v[6]) + Opt(port, slave, r[7], v[7])
  {
    assert r[0..] == r && v[0..] == v;
    FourSteps(b, port, slave, r, v, 0);
    var b4 := b + Opt(port, slave, r[0], v[0]) + Opt(port, slave, r[1], v[1]) + Opt(port, slave, r[2], v[2]) + Opt(port, slave, r[3], v[3]);
    FourSteps(b4, port, slave, r, v, 4);
    assert r[8..] == [] && v[8..] == [];
  }

  lemma FourSteps(b: seq<RegWrite>, port: Value, slave: int, r: seq<int>, v: seq<Value>, k: nat)
    requires k + 4 <= |r| == |v|
    ensures AppendPresent(b, port, slave, r[k..], v[k..]) ==
      AppendPresent(b + Opt(port, slave, r[k], v[k]) + Opt(port, slave, r[k + 1], v[k + 1]) + Opt(port, slave, r[k + 2], v[k + 2]) + Opt(port, slave, r[k + 3], v[k + 3]),
                    port, slave, r[k + 4..], v[k + 4..])
  {
    var b1 := b + Opt(port, slave, r[k], v[k]);
    var b2 := b1 + Opt(port, slave, r[k + 1], v[k + 1]);
    var b3 := b2 + Opt(port, slave, r[k + 2], v[k + 2]);
    AppendAt(b, port, slave, r, v, k);
    AppendAt(b1, port, slave, r, v, k + 1);
    AppendAt(b2, port, slave, r, v, k + 2);
    AppendAt(b3, port, slave, r, v, k + 3);
  }

  /** Writing step by step appends exactly the present writes. */
  lemma {:induction false} AppendIsPresent(b: seq<RegWrite>, port: Value, slave: int, r: seq<int>, v: seq<Value>)
    requires |r| == |v|
    ensures AppendPresent(b, port, slave, r, v) == b + PresentWrites(port, slave, r, v)
    decreases |r|
  {
    if r != [] {
      var o := Opt(port, slave, r[0], v[0]);
      AppendIsPresent(b + o, port, slave, r[1..], v[1..]);
      PresentWritesStep(port, slave, r, v);
      assert (b + o) + PresentWrites(port, slave, r[1..], v[1..]) == b + (o + PresentWrites(port, slave, r[1..], v[1..]));
    }
  }

  lemma PresentWritesStep(port: Value, slave: int, regs: seq<int>, vals: seq<Value>)
    requires |regs| == |vals| > 0
    ensures PresentWrites(port, slave, regs, vals) == Opt(port, slave, regs[0], vals[0]) + PresentWrites(port, slave, regs[1..], vals[1..])
  {
  }

  function Opt(port: Value, slave: int, register: int, v: Value): seq<RegWrite> {
    if v != Null then [RegWrite(port, slave, register, v)] else []
  }
}
