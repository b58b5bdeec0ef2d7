/** The run-control agent's view of the board (class RC of rc_conf.py): the
    mapped register window and the operations the console drives through
    it, reading and writing registers, resetting and opening channels. */
module RcConf {
  import opened Text
  import opened Json
  import opened RegisterBuffer

  const MAX_CHANNELS: int := 7

  /** auto_int: an int (bool included) is used as it is; anything else goes
      through int(x, 0), a TypeError for a non-string and a ValueError for a
      string that is not a literal. */
  function AutoInt(x: Value): (r: Outcome<int>)
    ensures (x.Int? || x.Bool?) ==> r == Ok(AsInt(x))
    ensures x.Str? ==> (r.Ok? <==> ParseIntAuto(x.s).Some?)
    ensures x.Str? && r.Ok? ==> r.value == ParseIntAuto(x.s).value
    ensures !(x.Int? || x.Bool? || x.Str?) ==> r == Raised(TypeError("int"))
  {
    match x
    case Int(i) => Ok(i)
    case Bool(b) => Ok(if b then 1 else 0)
    case Str(s) => if ParseIntAuto(s).Some? then Ok(ParseIntAuto(s).value) else Raised(ValueError("int"))
    case _ => Raised(TypeError("int"))
  }

  /** A decimal rendering of an int goes through auto_int unchanged. */
  lemma AutoIntOfString(i: int)
    ensures AutoInt(Str(IntToString(i))) == Ok(i)
  {
    ParseIntAutoRoundTrip(i);
  }

  /** checkRegBoundary. */
  predicate CheckRegBoundary(addr: int) { InRange(addr) }

  /** checkChannelsBoundary: channels 0..7, both ends inclusive. */
  predicate CheckChannelsBoundary(channel: int) { 0 <= channel <= MAX_CHANNELS }

  /** Both checks include their ends: registers 0 and 50, channels 0 and 7,
      and refuse the neighbours outside them. */
  lemma BoundaryEdges()
    ensures CheckRegBoundary(0) && CheckRegBoundary(50) && !CheckRegBoundary(-1) && !CheckRegBoundary(51)
    ensures CheckChannelsBoundary(0) && CheckChannelsBoundary(7)
    ensures !CheckChannelsBoundary(-1) && !CheckChannelsBoundary(8)
  {
  }

  /** The pair read returns: the value as '0x' and eight hexadecimal digits,
      and the value. */
  datatype Reading = Reading(hex: string, value: nat)

  /** The reading of register a once auto_int has produced it: None
      outside 0..50, otherwise the register's value in both forms. */
  function ReadRegister(buf: Buffer, a: int): (r: Option<Reading>)
    ensures r.Some? <==> InRange(a)
    ensures r.Some? ==> r.value == Reading(HexWord(Word(buf, a)), Word(buf, a))
  {
    if CheckRegBoundary(a) then Some(Reading(HexWord(Word(buf, a)), Word(buf, a))) else None
  }

  /** read(addr): auto_int's exception escapes. */
  function ReadSpec(buf: Buffer, addr: Value): (r: Outcome<Option<Reading>>)
    ensures r.Raised? <==> AutoInt(addr).Raised?
    ensures r.Ok? ==> r.value == ReadRegister(buf, AutoInt(addr).value)
  {
    match AutoInt(addr)
    case Raised(e) => Raised(e)
    case Ok(a) => Ok(ReadRegister(buf, a))
  }

  /** The reading as json.dumps sends it: a two-element list, or null. */
  function ReadingValue(r: Option<Reading>): (v: Value)
    ensures r.None? <==> v == Null
  {
    match r
    case None => Null
    case Some(Reading(h, x)) => Arr([Str(h), Int(x)])
  }

  /** int.to_bytes(value, 4, byteorder='little') accepts exactly the ints
      (bools included) in 0..2^32-1; anything else raises. */
  predicate Encodable(value: Value) {
    (value.Int? || value.Bool?) && 0 <= AsInt(value) < WORD_RANGE
  }

  /** write(addr, value): the result.  The bound is checked on auto_int(addr)
      (whose exception escapes), but the slice self.regs[addr*4:addr*4+4] is
      taken of addr as given, so a string address raises inside the guarded
      block; that exception, and the one int.to_bytes raises for a value
      that does not fit, become False. */
  function WriteSpec(buf: Buffer, addr: Value, value: Value): (r: Outcome<bool>)
    ensures r.Raised? <==> AutoInt(addr).Raised?
    ensures r == Ok(true) <==> (addr.Int? || addr.Bool?) && InRange(AsInt(addr)) && Encodable(value)
  {
    match AutoInt(addr)
    case Raised(e) => Raised(e)
    case Ok(a) => Ok(CheckRegBoundary(a) && (addr.Int? || addr.Bool?) && Encodable(value))
  }

  /** The window after write(addr, value). */
  function AfterWrite(buf: Buffer, addr: Value, value: Value): (r: Buffer)
    ensures WriteSpec(buf, addr, value) != Ok(true) ==> r == buf
  {
    if WriteSpec(buf, addr, value) == Ok(true) then Store(buf, AsInt(addr), AsInt(value)) else buf
  }

  /** A successful write overwrites exactly the four bytes of its register
      with the little-endian value, and the register reads back as
      ('0x%08x' % v, v). */
  lemma WriteThenRead(buf: Buffer, a: int, v: int)
    requires InRange(a) && 0 <= v < WORD_RANGE
    ensures WriteSpec(buf, Int(a), Int(v)) == Ok(true)
    ensures AfterWrite(buf, Int(a), Int(v))[4 * a .. 4 * a + 4] == ToBytes(v)
    ensures forall i :: 0 <= i < BUFFER_SIZE && !(4 * a <= i < 4 * a + 4) ==> AfterWrite(buf, Int(a), Int(v))[i] == buf[i]
    ensures ReadSpec(AfterWrite(buf, Int(a), Int(v)), Int(a)) == Ok(Some(Reading(HexWord(v), v)))
  {
    StoreThenWord(buf, a, v);
  }

  /** write returns False, and touches nothing, for an address outside
      0..50, for a value that does not fit in four unsigned bytes, and for
      any address given as a string. */
  lemma WriteRefused(buf: Buffer, addr: Value, value: Value)
    requires AutoInt(addr).Ok?
    requires !InRange(AutoInt(addr).value) || !Encodable(value) || addr.Str?
    ensures WriteSpec(buf, addr, value) == Ok(false)
    ensures AfterWrite(buf, addr, value) == buf
  {
  }

  /** The window after reset(): registers 0 and 1 cleared. */
  function AfterReset(buf: Buffer): (r: Buffer)
  {
    AfterWrite(AfterWrite(buf, Int(0), Int(0)), Int(1), Int(0))
  }

  /** reset() clears registers 0 and 1, and only them. */
  lemma ResetClears(buf: Buffer)
    ensures Word(AfterReset(buf), 0) == 0 && Word(AfterReset(buf), 1) == 0
    ensures forall i :: 8 <= i < BUFFER_SIZE ==> AfterReset(buf)[i] == buf[i]
  {
    var b1 := AfterWrite(buf, Int(0), Int(0));
    WriteThenRead(buf, 0, 0);
    WriteThenRead(b1, 1, 0);
    StoreKeepsOthers(b1, 1, 0, 0);
  }

  /** init_boot(value) as written: it writes register 0 and compares the
      boolean result with 0, so it goes on to write register 1, and reports
      success, exactly when the register-0 write failed. */
  function InitBootSpec(buf: Buffer, value: Value): (r: (bool, Buffer))
    ensures forall i :: 8 <= i < BUFFER_SIZE ==> r.1[i] == buf[i]
  {
    var b0 := AfterWrite(buf, Int(0), value);
    if WriteSpec(buf, Int(0), value) == Ok(false) then (true, AfterWrite(b0, Int(1), value))
    else (false, b0)
  }

  /** The discrepancy: an encodable value is written to register 0 only and
      init_boot reports failure; a value that cannot be written leaves the
      window unchanged and init_boot reports success. */
  lemma InitBootInverted(buf: Buffer, value: Value)
    ensures Encodable(value) ==> InitBootSpec(buf, value) == (false, Store(buf, 0, AsInt(value)))
    ensures !Encodable(value) ==> InitBootSpec(buf, value) == (true, buf)
  {
  }

  /** init_boot as the docstring describes it (write the same value to
      registers 0 and 1), with the test read as `if reg_0:`. */
  function InitBootIntended(buf: Buffer, value: Value): (r: (bool, Buffer))
  {
    var b0 := AfterWrite(buf, Int(0), value);
    if WriteSpec(buf, Int(0), value) == Ok(true) then (true, AfterWrite(b0, Int(1), value))
    else (false, b0)
  }

  /** Corrected init_boot: success exactly when the value fits, and then
      both registers hold it and nothing else changed. */
  lemma InitBootIntendedWritesBoth(buf: Buffer, value: Value)
    ensures InitBootIntended(buf, value).0 <==> Encodable(value)
    ensures Encodable(value) ==>
      var r := InitBootIntended(buf, value).1;
      Word(r, 0) == AsInt(value) && Word(r, 1) == AsInt(value)
      && forall i :: 8 <= i < BUFFER_SIZE ==> r[i] == buf[i]
    ensures !Encodable(value) ==> InitBootIntended(buf, value).1 == buf
  {
    if Encodable(value) {
      var v := AsInt(value);
      var b0 := AfterWrite(buf, Int(0), value);
      StoreThenWord(buf, 0, v);
      StoreThenWord(b0, 1, v);
      StoreKeepsOthers(b0, 1, v, 0);
    }
  }

  // ---------------------------------------------------------------------
  // init_data: the channel bitmask
  // ---------------------------------------------------------------------

  /** The accumulated value += 2**(channel - 1) over channels 0..7:
      2**(-1) is the float 0.5, so each channel 0 adds a half and turns the
      sum into a float. */
  datatype Mask = Mask(whole: nat, halves: nat)

  /** Whether the Python sum is a float (some channel 0 was added). */
  predicate IsFloat(m: Mask) { m.halves > 0 }

  /** The channels of the list that pass checkChannelsBoundary, in order. */
  function InRangeChannels(xs: seq<int>): (v: seq<int>)
    ensures |v| <= |xs|
    ensures forall k :: 0 <= k < |v| ==> CheckChannelsBoundary(v[k])
  {
    if xs == [] then []
    else if CheckChannelsBoundary(xs[|xs| - 1]) then InRangeChannels(xs[..|xs| - 1]) + [xs[|xs| - 1]]
    else InRangeChannels(xs[..|xs| - 1])
  }

  lemma InRangeNext(xs: seq<int>, i: int)
    requires 0 <= i < |xs|
    ensures InRangeChannels(xs[..i + 1]) == InRangeChannels(xs[..i]) + (if CheckChannelsBoundary(xs[i]) then [xs[i]] else [])
  {
    assert xs[..i + 1][..i] == xs[..i];
  }

  lemma MaskNext(valid: seq<int>, c: int)
    requires forall k :: 0 <= k < |valid| ==> CheckChannelsBoundary(valid[k])
    requires CheckChannelsBoundary(c)
    ensures MaskOf(valid + [c]) == MaskAdd(MaskOf(valid), c)
  {
    var w := valid + [c];
    assert w[..|w| - 1] == valid;
  }

  /** One channel's term 2**(c - 1): channel 0 adds one half. */
  function MaskAdd(m: Mask, c: int): Mask
    requires CheckChannelsBoundary(c)
  {
    if c == 0 then Mask(m.whole, m.halves + 1) else Mask(m.whole + Pow(2, c - 1), m.halves)
  }

  /** sum(2**(c - 1) for c in valid) over channels 0..7. */
  function MaskOf(valid: seq<int>): Mask
    requires forall k :: 0 <= k < |valid| ==> CheckChannelsBoundary(valid[k])
  {
    if valid == [] then Mask(0, 0)
    else MaskAdd(MaskOf(valid[..|valid| - 1]), valid[|valid| - 1])
  }

  /** [x for x in xs if x not in s]. */
  function Without(xs: seq<int>, s: set<int>): (r: seq<int>)
  {
    if xs == [] then [] else (if xs[0] in s then [] else [xs[0]]) + Without(xs[1..], s)
  }

  /** The result of init_data: the flag and the tuple's second element. */
  datatype InitResult = InitResult(ok: bool, detail: Value)

  /** init_data(channels) on the window: the result and the new window.
      Every exception inside (a selector that is not a string, an item that
      int() rejects) is caught and gives (False, None). */
  function InitDataSpec(buf: Buffer, channels: Value): (r: (InitResult, Buffer))
    ensures forall i :: 8 <= i < BUFFER_SIZE ==> r.1[i] == buf[i]
    ensures !channels.Str? ==> r == (InitResult(false, Null), buf)
    ensures r.0.ok ==> channels == Str("all") || r.0.detail.Arr?
  {
    if channels == Str("all") then
      (InitResult(true, channels), AfterWrite(AfterWrite(buf, Int(1), Int(127)), Int(0), Int(127)))
    else if !channels.Str? then (InitResult(false, Null), buf)
    else match ParseIntList(channels.s)
      case None => (InitResult(false, Null), buf)
      case Some(xs) =>
        var valid := InRangeChannels(xs);
        var notValid := Without(xs, set c | c in valid);
        var m := MaskOf(valid);
        if valid == [] then (InitResult(false, IntArray(notValid)), buf)
        else if !IsFloat(m) && WriteSpec(buf, Int(1), Int(m.whole)) == Ok(true) then
          (InitResult(true, IntArray(valid)), AfterWrite(AfterWrite(buf, Int(1), Int(m.whole)), Int(0), Int(m.whole)))
        else (InitResult(false, IntArray(notValid)), AfterReset(buf))
  }

  /** The failing arm of the "all" branch cannot be taken: 127 always fits. */
  lemma InitDataAll(buf: Buffer)
    ensures InitDataSpec(buf, Str("all")).0 == InitResult(true, Str("all"))
    ensures Word(InitDataSpec(buf, Str("all")).1, 0) == 127
    ensures Word(InitDataSpec(buf, Str("all")).1, 1) == 127
  {
    var b1 := AfterWrite(buf, Int(1), Int(127));
    WriteThenRead(buf, 1, 127);
    WriteThenRead(b1, 0, 127);
    StoreKeepsOthers(b1, 0, 127, 1);
  }

  /** init_data with a parsed channel list: with no channel in 0..7 nothing
      is written and the out-of-range channels come back; with an integral
      mask that fits, the mask lands in registers 1 and 0 and the in-range
      channels come back; otherwise (a channel 0, or a sum past 32 bits) the
      registers are reset and the out-of-range channels come back. */
  lemma InitDataList(buf: Buffer, text: string)
    requires ParseIntList(text).Some?
    requires text != "all"
    ensures
      var xs := ParseIntList(text).value;
      var valid := InRangeChannels(xs);
      var m := MaskOf(valid);
      var (r, after) := InitDataSpec(buf, Str(text));
      && (valid == [] ==> r == InitResult(false, IntArray(OutOfRange(xs))) && after == buf)
      && (valid != [] && !IsFloat(m) && m.whole < WORD_RANGE ==>
            r == InitResult(true, IntArray(valid)) && Word(after, 1) == m.whole && Word(after, 0) == m.whole)
      && (valid != [] && (IsFloat(m) || m.whole >= WORD_RANGE) ==>
            r == InitResult(false, IntArray(OutOfRange(xs))) && after == AfterReset(buf))
  {
    var xs := ParseIntList(text).value;
    var valid := InRangeChannels(xs);
    var m := MaskOf(valid);
    NotValidAreOutOfRange(xs);
    InitDataParsed(buf, text, xs);
    if valid != [] && !IsFloat(m) && m.whole < WORD_RANGE {
      MaskWritten(buf, m.whole);
    } else if valid != [] {
      assert IsFloat(m) || WriteSpec(buf, Int(1), Int(m.whole)) != Ok(true);
    }
  }

  /** init_data on a parsed list, one branch per outcome. */
  lemma InitDataParsed(buf: Buffer, text: string, xs: seq<int>)
    requires ParseIntList(text) == Some(xs) && text != "all"
    ensures var valid := InRangeChannels(xs);
      var notValid := Without(xs, set c | c in valid);
      var m := MaskOf(valid);
      InitDataSpec(buf, Str(text)) ==
        if valid == [] then (InitResult(false, IntArray(notValid)), buf)
        else if !IsFloat(m) && WriteSpec(buf, Int(1), Int(m.whole)) == Ok(true) then
          (InitResult(true, IntArray(valid)), AfterWrite(AfterWrite(buf, Int(1), Int(m.whole)), Int(0), Int(m.whole)))
        else (InitResult(false, IntArray(notValid)), AfterReset(buf))
  {
  }

  /** A mask that fits lands in registers 1 and 0. */
  lemma MaskWritten(buf: Buffer, w: nat)
    requires w < WORD_RANGE
    ensures WriteSpec(buf, Int(1), Int(w)) == Ok(true)
    ensures var after := AfterWrite(AfterWrite(buf, Int(1), Int(w)), Int(0), Int(w));
      Word(after, 1) == w && Word(after, 0) == w
  {
    var b1 := AfterWrite(buf, Int(1), Int(w));
    WriteThenRead(buf, 1, w);
    WriteThenRead(b1, 0, w);
    StoreKeepsOthers(b1, 0, w, 1);
  }

  /** The "all" shortcut writes the same register value as listing the
      seven channels 1..7. */
  lemma AllIsEveryChannel()
    ensures InRangeChannels(ALL_CHANNELS) == ALL_CHANNELS
    ensures MaskOf(ALL_CHANNELS) == Mask(127, 0)
  {
    assert ALL_CHANNELS == FirstChannels(7);
    FirstChannelsMask(7);
  }

  /** Channels 1..n. */
  function FirstChannels(n: nat): (cs: seq<int>)
    requires n <= MAX_CHANNELS
    ensures |cs| == n && forall k :: 0 <= k < n ==> cs[k] == k + 1
  {
    seq(n, k => k + 1)
  }

  lemma {:induction false} FirstChannelsMask(n: nat)
    requires n <= MAX_CHANNELS
    ensures InRangeChannels(FirstChannels(n)) == FirstChannels(n)
    ensures MaskOf(FirstChannels(n)) == Mask(Pow(2, n) - 1, 0)
  {
    if n > 0 {
      FirstChannelsMask(n - 1);
      assert FirstChannels(n)[..n - 1] == FirstChannels(n - 1);
    }
  }

  /** The list that comes back on failure holds exactly the channels outside
      0..7, in their order; together with the in-range channels it accounts
      for every listed channel. */
  lemma NotValidAreOutOfRange(xs: seq<int>)
    ensures Without(xs, set c | c in InRangeChannels(xs)) == OutOfRange(xs)
    ensures multiset(InRangeChannels(xs)) + multiset(OutOfRange(xs)) == multiset(xs)
  {
    InRangeMembers(xs);
    WithoutByRange(xs, set c | c in InRangeChannels(xs));
    RangeSplit(xs);
  }

  lemma {:induction false} RangeSplit(xs: seq<int>)
    ensures multiset(InRangeChannels(xs)) + multiset(OutOfRange(xs)) == multiset(xs)
  {
    if xs != [] {
      var init, last := xs[..|xs| - 1], xs[|xs| - 1];
      RangeSplit(init);
      assert xs == init + [last];
    }
  }

  /** The channels outside 0..7, in order. */
  function OutOfRange(xs: seq<int>): (r: seq<int>)
    ensures forall k :: 0 <= k < |r| ==> !CheckChannelsBoundary(r[k])
  {
    if xs == [] then []
    else if CheckChannelsBoundary(xs[|xs| - 1]) then OutOfRange(xs[..|xs| - 1])
    else OutOfRange(xs[..|xs| - 1]) + [xs[|xs| - 1]]
  }

  lemma {:induction false} InRangeMembers(xs: seq<int>)
    ensures forall c :: c in InRangeChannels(xs) <==> c in xs && CheckChannelsBoundary(c)
  {
    if xs != [] {
      InRangeMembers(xs[..|xs| - 1]);
      assert xs == xs[..|xs| - 1] + [xs[|xs| - 1]];
    }
  }

  /** Dropping the members of a set that holds exactly the in-range channels
      keeps the out-of-range ones. */
  lemma {:induction false} WithoutByRange(xs: seq<int>, s: set<int>)
    requires forall c :: c in s <==> c in xs && CheckChannelsBoundary(c)
    ensures Without(xs, s) == OutOfRange(xs)
  {
    WithoutByRangeFrom(xs, xs, s);
  }

  lemma {:induction false} WithoutByRangeFrom(xs: seq<int>, all: seq<int>, s: set<int>)
    requires forall c :: c in xs ==> c in all
    requires forall c :: c in s <==> c in all && CheckChannelsBoundary(c)
    ensures Without(xs, s) == OutOfRange(xs)
  {
    if xs != [] {
      var init, last := xs[..|xs| - 1], xs[|xs| - 1];
      WithoutByRangeFrom(init, all, s);
      WithoutAppend(init, [last], s);
      assert xs == init + [last];
      assert [last][1..] == [];
    }
  }

  lemma {:induction false} WithoutAppend(a: seq<int>, b: seq<int>, s: set<int>)
    ensures Without(a + b, s) == Without(a, s) + Without(b, s)
  {
    if a != [] {
      var t := a[1..];
      WithoutAppend(t, b, s);
      assert a == [a[0]] + t;
      assert a + b == [a[0]] + (t + b);
      WithoutCons(a[0], t, s);
      WithoutCons(a[0], t + b, s);
    } else {
      assert a + b == b;
    }
  }

  lemma WithoutCons(x: int, t: seq<int>, s: set<int>)
    ensures Without([x] + t, s) == (if x in s then [] else [x]) + Without(t, s)
  {
    assert ([x] + t)[1..] == t;
  }

  // ---------------------------------------------------------------------
  // reg_monitoring
  // ---------------------------------------------------------------------

  /** range(1, 8), what the selector "all" stands for. */
  const ALL_CHANNELS: seq<int> := [1, 2, 3, 4, 5, 6, 7]

  /** {reg: read(reg) for reg in rs}. */
  function Readings(buf: Buffer, rs: seq<int>): (m: map<int, Option<Reading>>)
    ensures forall a :: a in m <==> a in rs
  {
    map a | a in rs :: ReadRegister(buf, a)
  }

  /** reg_monitoring(regs, channels): every selected channel is given the
      same map from each listed register to its reading; None when either
      list fails to parse. */
  function RegMonitoringSpec(buf: Buffer, regList: string, channels: string): (r: Option<map<int, map<int, Option<Reading>>>>)
    ensures r.Some? <==> ParseIntList(regList).Some? && (channels == "all" || ParseIntList(channels).Some?)
  {
    match ParseIntList(regList)
    case None => None
    case Some(rs) =>
      if channels == "all" then Some(map c | c in ALL_CHANNELS :: Readings(buf, rs))
      else match ParseIntList(channels)
        case None => None
        case Some(cs) => Some(map c | c in cs :: Readings(buf, rs))
  }

  /** Every selected channel ("all" being channels 1..7) gets the same
      map, which holds each listed register with its own reading, None for
      a register outside 0..50. */
  lemma RegMonitoringUniform(buf: Buffer, regList: string, channels: string, c: int, a: int)
    requires RegMonitoringSpec(buf, regList, channels).Some?
    ensures var r := RegMonitoringSpec(buf, regList, channels).value;
      && (c in r <==> if channels == "all" then 1 <= c <= 7 else c in ParseIntList(channels).value)
      && (c in r ==> (a in r[c] <==> a in ParseIntList(regList).value))
      && (c in r && a in r[c] ==> r[c][a] == ReadRegister(buf, a) && (r[c][a].Some? <==> InRange(a)))
  {
  }

  // ---------------------------------------------------------------------
  // The RC object
  // ---------------------------------------------------------------------

  /** The agent's RC object: the register window it mapped at start-up. */
  class RC {
    const regs: array<byte>

    /** RC() with the device already mapped: the window starts with the
        given contents. */
    constructor (initial: Buffer)
      ensures Valid() && Contents() == initial
    {
      regs := new byte[BUFFER_SIZE](i requires 0 <= i < BUFFER_SIZE => initial[i]);
    }

    ghost predicate Valid()
      reads this
    {
      regs.Length == BUFFER_SIZE
    }

    function Contents(): Buffer
      reads this, regs
      requires Valid()
    {
      regs[..]
    }

    /** read(addr). */
    method Read(addr: Value) returns (r: Outcome<Option<Reading>>)
      requires Valid()
      ensures r == ReadSpec(Contents(), addr)
    {
      var a := AutoInt(addr);
      if a.Raised? {
        return Raised(a.error);
      }
      if !CheckRegBoundary(a.value) {
        return Ok(None);
      }
      var base := 4 * a.value;
      var value := FromBytes(regs[base .. base + 4]);
      return Ok(Some(Reading(HexWord(value), value)));
    }

    /** write(addr, value): the four bytes of the register are replaced in
        one slice assignment. */
    method Write(addr: Value, value: Value) returns (r: Outcome<bool>)
      requires Valid()
      modifies regs
      ensures r == WriteSpec(old(Contents()), addr, value)
      ensures Contents() == AfterWrite(old(Contents()), addr, value)
    {
      var a := AutoInt(addr);
      if a.Raised? {
        return Raised(a.error);
      }
      if !CheckRegBoundary(a.value) {
        return Ok(false);
      }
      // addr * 4 on a string address, and int.to_bytes on a value that does
      // not fit, raise inside the try block
      if !(addr.Int? || addr.Bool?) || !Encodable(value) {
        return Ok(false);
      }
      var bytes := ToBytes(AsInt(value));
      var base := 4 * AsInt(addr);
      forall k | 0 <= k < 4 {
        regs[base + k] := bytes[k];
      }
      forall i | 0 <= i < BUFFER_SIZE
        ensures regs[..][i] == if base <= i < base + 4 then bytes[i - base] else old(regs[..])[i]
      {
        if base <= i < base + 4 {
          var k := i - base;
          assert regs[base + k] == bytes[k];
        }
      }
      StoreAt(old(regs[..]), AsInt(addr), AsInt(value), regs[..]);
      return Ok(true);
    }

    /** reset(): clear register 0 and, if that succeeded, register 1. */
    method Reset() returns (ok: bool)
      requires Valid()
      modifies regs
      ensures ok
      ensures Contents() == AfterReset(old(Contents()))
    {
      var phase1 := Write(Int(0), Int(0));
      if phase1 == Ok(true) {
        var _ := Write(Int(1), Int(0));
        ok := true;
      } else {
        ok := false;
      }
    }

    /** init_boot(value), with its test as written. */
    method InitBoot(value: Value) returns (ok: bool)
      requires Valid()
      modifies regs
      ensures (ok, Contents()) == InitBootSpec(old(Contents()), value)
    {
      var reg0 := Write(Int(0), value);
      // reg_0 == 0 holds for False
      if reg0 == Ok(false) {
        var _ := Write(Int(1), value);
        ok := true;
      } else {
        ok := false;
      }
    }

    /** init_data(channels). */
    method InitData(channels: Value) returns (r: InitResult)
      requires Valid()
      modifies regs
      ensures (r, Contents()) == InitDataSpec(old(Contents()), channels)
    {
      if channels == Str("all") {
        var w1 := Write(Int(1), Int(127));
        if w1 == Ok(true) {
          var _ := Write(Int(0), Int(127));
          r := InitResult(true, channels);
        } else {
          // not reached: an in-range write of 127 always succeeds, so the
          // reset of this arm never runs (InitDataAll)
          r := InitResult(false, Null);
        }
        return;
      }
      // channels.split raises AttributeError on a non-string, int() raises
      // ValueError on a bad item; both are caught
      if !channels.Str? || ParseIntList(channels.s).None? {
        return InitResult(false, Null);
      }
      var xs := ParseIntList(channels.s).value;
      var valid, mask := ScanChannels(xs);
      var notValid := Without(xs, set c | c in valid);
      if valid == [] {
        return InitResult(false, IntArray(notValid));
      }
      var w1: Outcome<bool>;
      if IsFloat(mask) {
        // int.to_bytes of a float raises TypeError inside write
        w1 := Ok(false);
      } else {
        w1 := Write(Int(1), Int(mask.whole));
      }
      if w1 == Ok(true) {
        var _ := Write(Int(0), Int(mask.whole));
        r := InitResult(true, IntArray(valid));
      } else {
        var _ := Reset();
        r := InitResult(false, IntArray(notValid));
      }
    }

    /** The loop of init_data: the channels that pass the boundary check, in
        order, and the running sum value += 2**(channel - 1). */
    static method ScanChannels(xs: seq<int>) returns (valid: seq<int>, mask: Mask)
      ensures valid == InRangeChannels(xs) && mask == MaskOf(valid)
    {
      mask := Mask(0, 0);
      valid := [];
      var i := 0;
      while i < |xs|
        invariant 0 <= i <= |xs|
        invariant valid == InRangeChannels(xs[..i])
        invariant mask == MaskOf(valid)
      {
        var channel := xs[i];
        InRangeNext(xs, i);
        if CheckChannelsBoundary(channel) {
          MaskNext(valid, channel);
          valid := valid + [channel];
          mask := MaskAdd(mask, channel);
        }
        i := i + 1;
      }
      assert xs[..i] == xs;
    }

    /** The inner loop of reg_monitoring: {reg: read(reg) for reg in rs}. */
    method ReadAll(rs: seq<int>) returns (m: map<int, Option<Reading>>)
      requires Valid()
      ensures m == Readings(Contents(), rs)
    {
      m := map[];
      var j := 0;
      while j < |rs|
        invariant 0 <= j <= |rs|
        invariant m == map a | a in rs[..j] :: ReadRegister(Contents(), a)
      {
        var reading := Read(Int(rs[j]));
        assert rs[..j + 1] == rs[..j] + [rs[j]];
        m := m[rs[j] := reading.value];
        j := j + 1;
      }
      assert rs[..j] == rs;
    }

    /** The outer loop of reg_monitoring: every channel gets the readings. */
    method ReadChannels(cs: seq<int>, rs: seq<int>) returns (channelReg: map<int, map<int, Option<Reading>>>)
      requires Valid()
      ensures channelReg == map c | c in cs :: Readings(Contents(), rs)
    {
      channelReg := map[];
      var i := 0;
      while i < |cs|
        invariant 0 <= i <= |cs|
        invariant channelReg == map c | c in cs[..i] :: Readings(Contents(), rs)
      {
        var regValue := ReadAll(rs);
        assert cs[..i + 1] == cs[..i] + [cs[i]];
        channelReg := channelReg[cs[i] := regValue];
        i := i + 1;
      }
      assert cs[..i] == cs;
    }

    /** reg_monitoring(regs, channels). */
    method RegMonitoring(regList: string, channels: string) returns (r: Option<map<int, map<int, Option<Reading>>>>)
      requires Valid()
      ensures r == RegMonitoringSpec(Contents(), regList, channels)
    {
      var parsedRegs := ParseIntList(regList);
      if parsedRegs.None? {
        return None;
      }
      var rs := parsedRegs.value;
      var cs: seq<int>;
      if channels == "all" {
        cs := ALL_CHANNELS;
      } else {
        var parsed := ParseIntList(channels);
        if parsed.None? {
          return None;
        }
        cs := parsed.value;
      }
      var channelReg := ReadChannels(cs, rs);
      return Some(channelReg);
    }
  }
}
