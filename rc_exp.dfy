/** The monitoring-side run-control reader (class RC of rc_exp.py): the same
    register window, read only, with register addresses given as text. */
module RcExp {
  import opened Text
  import opened Json
  import opened RegisterBuffer
  import RcConf

  /** auto_int = int(x, 0): strings only; an int, a bool or anything else
      that is not a string is a TypeError. */
  function AutoInt(x: Value): (r: Outcome<int>)
    ensures r.Ok? <==> x.Str? && ParseIntAuto(x.s).Some?
    ensures r.Ok? ==> r.value == ParseIntAuto(x.s).value
    ensures !x.Str? ==> r == Raised(TypeError("int"))
  {
    if !x.Str? then Raised(TypeError("int"))
    else if ParseIntAuto(x.s).Some? then Ok(ParseIntAuto(x.s).value)
    else Raised(ValueError("int"))
  }

  /** checkRegBoundary: 0..50, both ends inclusive. */
  predicate CheckRegBoundary(addr: int) { 0 <= addr <= MAX_REGISTER_ADDRESS }

  /** The reader bounds addresses exactly as the run-control agent does. */
  lemma SameBoundary(addr: int)
    ensures CheckRegBoundary(addr) <==> RcConf.CheckRegBoundary(addr)
    ensures CheckRegBoundary(addr) <==> 0 <= addr <= 50
  {
  }

  /** read(addr): in range, the register as ('0x%08x' % v, v); out of range
      the method calls self.perror, which the class does not define, so the
      call raises AttributeError instead of returning. */
  function Read(buf: Buffer, addr: Value): (r: Outcome<RcConf.Reading>)
    ensures AutoInt(addr).Raised? ==> r == Raised(AutoInt(addr).error)
    ensures AutoInt(addr).Ok? && !CheckRegBoundary(AutoInt(addr).value) ==> r == Raised(AttributeError("perror"))
  {
    match AutoInt(addr)
    case Raised(e) => Raised(e)
    case Ok(a) =>
      if CheckRegBoundary(a) then
        var value := FromBytes(buf[a * 4 .. a * 4 + 4]);
        Ok(RcConf.Reading(HexWord(value), value))
      else Raised(AttributeError("perror"))
  }

  /** What the monitor does, read(str(i)): for i in 0..50 the register's
      value, rendered as '0x' and eight hexadecimal digits that read back as
      that value; any other i is the perror failure. */
  lemma ReadAsMonitored(buf: Buffer, i: int)
    ensures InRange(i) ==> Read(buf, Str(IntToString(i))) == Ok(RcConf.Reading(HexWord(Word(buf, i)), Word(buf, i)))
    ensures InRange(i) ==> NumeralValue(HexWord(Word(buf, i))[2..], 16) == Word(buf, i)
    ensures !InRange(i) ==> Read(buf, Str(IntToString(i))) == Raised(AttributeError("perror"))
  {
    ParseIntAutoRoundTrip(i);
    if InRange(i) {
      HexWordReadsBack(Word(buf, i));
    }
  }

  /** On a string address this reader and the agent's read agree inside
      0..50; outside, the agent returns None where this one raises. */
  lemma AgreesWithAgent(buf: Buffer, s: string)
    requires ParseIntAuto(s).Some?
    ensures InRange(ParseIntAuto(s).value) ==> RcConf.ReadSpec(buf, Str(s)) == Ok(Some(Read(buf, Str(s)).value))
    ensures !InRange(ParseIntAuto(s).value) ==> RcConf.ReadSpec(buf, Str(s)) == Ok(None) && Read(buf, Str(s)).Raised?
  {
  }
}
