/** The HV monitor client (hvmon_client.py): the text it shows for a
    module's alarm and status codes, the CSV column keys it sends, and the
    configuration message that opens its session with the monitor server. */
module HvmonClient {
  import opened Text
  import opened Json
  import HvConf

  // ---------------------------------------------------------------------
  // alarmString
  // ---------------------------------------------------------------------

  /** The tags for bits 0..3 of an alarm code: over-voltage, under-voltage,
      over-current, over-temperature. */
  const TAGS: seq<string> := ["OV ", "UV ", "OC ", "OT "]

  /** code shifted right by k places: floor division by 2 each time, as
      Python's >> does on negative ints too. */
  function Shift(code: int, k: nat): int {
    if k == 0 then code else Shift(code, k - 1) / 2
  }

  /** Python `code & 2**k` is nonzero: bit k of the code in two's
      complement, so a negative code has every high bit. */
  predicate BitSet(code: int, k: nat) {
    Shift(code, k) % 2 == 1
  }

  /** The tag bit k of the code contributes. */
  function Flag(code: int, k: nat): string
    requires k < 4
  {
    if BitSet(code, k) then TAGS[k] else ""
  }

  /** alarmString(alarmCode): 'none' for 0, otherwise a space followed by
      the tag of each of bits 0..3 that is set, in bit order.  Higher bits
      are not looked at. */
  function AlarmString(code: int): (s: string)
    ensures s == "none" <==> code == 0
    ensures code != 0 ==> |s| >= 1 && s[0] == ' '
  {
    if code == 0 then "none"
    else
      var msg := " " + Flag(code, 0) + Flag(code, 1) + Flag(code, 2) + Flag(code, 3);
      assert msg[0] == ' ';
      msg
  }

  /** The tags of bits k..3, in bit order. */
  function FlagsFrom(code: int, k: nat): string
    requires k <= 4
    decreases 4 - k
  {
    if k == 4 then "" else Flag(code, k) + FlagsFrom(code, k + 1)
  }

  /** The value of bits k..3 of the code, bit k as the units. */
  function BitsFrom(code: int, k: nat): nat
    requires k <= 4
    decreases 4 - k
  {
    if k == 4 then 0 else Shift(code, k) % 2 + 2 * BitsFrom(code, k + 1)
  }

  /** Reading tags back: tags k..3 in order, each at most once, and
      nothing else; tag k stands for the units. */
  function DecodeFrom(t: string, k: nat): Option<nat>
    requires k <= 4
    decreases 4 - k
  {
    if k == 4 then (if t == "" then Some(0) else None)
    else if |t| >= 3 && t[..3] == TAGS[k] then
      match DecodeFrom(t[3..], k + 1)
      case None => None
      case Some(n) => Some(1 + 2 * n)
    else
      match DecodeFrom(t, k + 1)
      case None => None
      case Some(n) => Some(2 * n)
  }

  /** The inverse of alarmString on its non-'none' renderings: the space,
      then the tags. */
  function DecodeAlarm(s: string): (r: Option<nat>)
    ensures r.Some? ==> r.value < 16
  {
    if s == "none" then Some(0)
    else if |s| >= 1 && s[0] == ' ' then
      TagsBelow(s[1..], 0);
      DecodeFrom(s[1..], 0)
    else None
  }

  lemma {:induction false} TagsBelow(t: string, k: nat)
    requires k <= 4
    ensures DecodeFrom(t, k).Some? ==> DecodeFrom(t, k).value < Pow(2, 4 - k)
    decreases 4 - k
  {
    if k < 4 {
      if |t| >= 3 && t[..3] == TAGS[k] {
        TagsBelow(t[3..], k + 1);
      } else {
        TagsBelow(t, k + 1);
      }
    }
  }

  /** Past bit k, the tags left to render start with a later tag, or there
      are none. */
  lemma {:induction false} FlagsStart(code: int, j: nat)
    requires j <= 4
    ensures FlagsFrom(code, j) == "" ||
      (|FlagsFrom(code, j)| >= 3 && exists m :: j <= m < 4 && FlagsFrom(code, j)[..3] == TAGS[m])
    decreases 4 - j
  {
    if j < 4 {
      FlagsStart(code, j + 1);
      var rest := FlagsFrom(code, j + 1);
      if BitSet(code, j) {
        assert FlagsFrom(code, j) == TAGS[j] + rest;
        TagFirst(TAGS[j], rest);
      } else {
        assert FlagsFrom(code, j) == rest;
      }
    }
  }

  lemma TagFirst(tag: string, rest: string)
    requires |tag| == 3
    ensures (tag + rest)[..3] == tag && (tag + rest)[3..] == rest
  {
  }

  /** Skipping tag k is sound: a string led by a later tag does not lead
      with tag k. */
  lemma LaterTag(t: string, k: nat, m: nat)
    requires k < m < 4 && |t| >= 3 && t[..3] == TAGS[m]
    ensures t[..3] != TAGS[k]
  {
    TagsDistinct(k, m);
  }

  /** No two tags are alike. */
  lemma TagsDistinct(k: nat, m: nat)
    requires k < m < 4
    ensures TAGS[k] != TAGS[m]
  {
    if k == 0 {
      assert TAGS[0][1] == 'V' && TAGS[0][0] != TAGS[1][0] && TAGS[2][1] == 'C' && TAGS[3][1] == 'T';
    } else if k == 1 {
      assert TAGS[1][0] == 'U' && TAGS[2][0] == 'O' && TAGS[3][0] == 'O';
    } else {
      assert TAGS[2][1] == 'C' && TAGS[3][1] == 'T';
    }
  }

  lemma {:induction false} DecodeFlags(code: int, k: nat)
    requires k <= 4
    ensures DecodeFrom(FlagsFrom(code, k), k) == Some(BitsFrom(code, k))
    decreases 4 - k
  {
    if k < 4 {
      DecodeFlags(code, k + 1);
      if BitSet(code, k) {
        DecodeSetBit(code, k);
      } else {
        DecodeClearBit(code, k);
      }
    }
  }

  lemma DecodeSetBit(code: int, k: nat)
    requires k < 4 && BitSet(code, k)
    requires DecodeFrom(FlagsFrom(code, k + 1), k + 1) == Some(BitsFrom(code, k + 1))
    ensures DecodeFrom(FlagsFrom(code, k), k) == Some(BitsFrom(code, k))
  {
    var rest := FlagsFrom(code, k + 1);
    assert FlagsFrom(code, k) == TAGS[k] + rest;
    DecodeLead(TAGS[k] + rest, k, rest, BitsFrom(code, k + 1));
  }

  lemma DecodeClearBit(code: int, k: nat)
    requires k < 4 && !BitSet(code, k)
    requires DecodeFrom(FlagsFrom(code, k + 1), k + 1) == Some(BitsFrom(code, k + 1))
    ensures DecodeFrom(FlagsFrom(code, k), k) == Some(BitsFrom(code, k))
  {
    var rest := FlagsFrom(code, k + 1);
    assert FlagsFrom(code, k) == rest;
    FlagsStart(code, k + 1);
    if rest != "" {
      var m :| k + 1 <= m < 4 && rest[..3] == TAGS[m];
      LaterTag(rest, k, m);
    }
    DecodeSkip(rest, k, BitsFrom(code, k + 1));
  }

  /** A lead tag k counts one and the rest is read from tag k + 1. */
  lemma DecodeLead(t: string, k: nat, rest: string, n: nat)
    requires k < 4 && t == TAGS[k] + rest && DecodeFrom(rest, k + 1) == Some(n)
    ensures DecodeFrom(t, k) == Some(1 + 2 * n)
  {
    TagFirst(TAGS[k], rest);
  }

  /** Without a lead tag k, the text is read from tag k + 1. */
  lemma DecodeSkip(t: string, k: nat, n: nat)
    requires k < 4 && DecodeFrom(t, k + 1) == Some(n)
    requires !(|t| >= 3 && t[..3] == TAGS[k])
    ensures DecodeFrom(t, k) == Some(2 * n)
  {
  }

  /** The value of bits 0..3 of a code is the code modulo 16 (Python's
      `code & 15`), and each of those bits is the same bit of code % 16. */
  lemma LowNibble(code: int)
    ensures BitsFrom(code, 0) == code % 16
    ensures BitSet(code, 0) == BitSet(code % 16, 0) && BitSet(code, 1) == BitSet(code % 16, 1)
    ensures BitSet(code, 2) == BitSet(code % 16, 2) && BitSet(code, 3) == BitSet(code % 16, 3)
  {
    var c1, c2, c3, c4 := Shift(code, 1), Shift(code, 2), Shift(code, 3), Shift(code, 4);
    assert Shift(code, 0) == code;
    assert c1 == code / 2;
    assert c2 == c1 / 2;
    assert c3 == c2 / 2;
    assert c4 == c3 / 2;
    var b0, b1, b2, b3 := code % 2, c1 % 2, c2 % 2, c3 % 2;
    Halves(code, c1, b0);
    Halves(c1, c2, b1);
    Halves(c2, c3, b2);
    Halves(c3, c4, b3);
    var s3 := b3;
    var s2 := b2 + 2 * s3;
    var s1 := b1 + 2 * s2;
    var r := b0 + 2 * s1;
    Sixteenths(code, c4, r);
    Halves(r, s1, b0);
    Halves(s1, s2, b1);
    Halves(s2, s3, b2);
    Halves(s3, 0, b3);
    assert Shift(r, 1) == r / 2 == s1;
    assert Shift(r, 2) == Shift(r, 1) / 2 == s2;
    assert Shift(r, 3) == Shift(r, 2) / 2 == s3;
    assert BitsFrom(code, 3) == b3 && BitsFrom(code, 2) == s2 && BitsFrom(code, 1) == s1;
  }

  /** x = 2 q + r with r a bit: the low bit and the rest. */
  lemma Halves(x: int, q: int, r: int)
    requires 0 <= r < 2 && x == 2 * q + r
    ensures x % 2 == r && x / 2 == q
  {
  }

  /** x = 16 q + r with 0 <= r < 16 gives x % 16 == r. */
  lemma Sixteenths(x: int, q: int, r: int)
    requires 0 <= r < 16 && x == 16 * q + r
    ensures x % 16 == r
  {
  }

  /** The four tags of alarmString, written as the tags of bits 0..3. */
  lemma AlarmFlags(code: int)
    requires code != 0
    ensures AlarmString(code) == " " + FlagsFrom(code, 0)
  {
    var f0, f1, f2, f3 := Flag(code, 0), Flag(code, 1), Flag(code, 2), Flag(code, 3);
    assert FlagsFrom(code, 3) == f3 + "";
    assert FlagsFrom(code, 0) == f0 + (f1 + (f2 + (f3 + "")));
    assert " " + f0 + f1 + f2 + f3 == " " + (f0 + (f1 + (f2 + (f3 + ""))));
  }

  /** alarmString loses exactly the bits above 3: its text reads back as
      the code modulo 16, and only 0 renders as 'none'. */
  lemma AlarmRoundTrip(code: int)
    ensures DecodeAlarm(AlarmString(code)) == Some(code % 16)
  {
    if code != 0 {
      AlarmFlags(code);
      var t := FlagsFrom(code, 0);
      assert (" " + t)[1..] == t;
      DecodeFlags(code, 0);
      LowNibble(code);
    }
  }

  /** Codes that agree on bits 0..3 render alike, unless one of them is 0. */
  lemma AlarmIgnoresHighBits(a: int, b: int)
    requires a % 16 == b % 16 && a != 0 && b != 0
    ensures AlarmString(a) == AlarmString(b)
  {
    NibbleBits(a, b);
    assert Flag(a, 0) == Flag(b, 0) && Flag(a, 1) == Flag(b, 1) && Flag(a, 2) == Flag(b, 2) && Flag(a, 3) == Flag(b, 3);
  }

  /** Bits 0..3 are determined by the code modulo 16. */
  lemma NibbleBits(a: int, b: int)
    requires a % 16 == b % 16
    ensures BitSet(a, 0) == BitSet(b, 0) && BitSet(a, 1) == BitSet(b, 1)
    ensures BitSet(a, 2) == BitSet(b, 2) && BitSet(a, 3) == BitSet(b, 3)
  {
    LowNibble(a);
    LowNibble(b);
  }

  /** Two tags, in bit order. */
  lemma AlarmFive()
    ensures AlarmString(5) == " OV OC "
  {
    assert Flag(5, 0) == "OV " && Flag(5, 1) == "" && Flag(5, 2) == "OC " && Flag(5, 3) == "";
  }

  /** A bit above 3 alone renders as the bare space. */
  lemma AlarmSixteen()
    ensures AlarmString(16) == " "
  {
    assert Flag(16, 0) == "" && Flag(16, 1) == "" && Flag(16, 2) == "" && Flag(16, 3) == "";
  }

  /** A negative code has every bit set. */
  lemma AlarmMinusOne()
    ensures AlarmString(-1) == " OV UV OC OT "
  {
    assert Shift(-1, 3) == -1;
    assert Flag(-1, 0) == "OV " && Flag(-1, 1) == "UV " && Flag(-1, 2) == "OC " && Flag(-1, 3) == "OT ";
  }

  // ---------------------------------------------------------------------
  // statusString
  // ---------------------------------------------------------------------

  /** statusString(statusCode): the channel state names for 0..6, 'undef'
      for anything else. */
  function StatusString(code: int): (name: string)
    ensures name == "undef" <==> !(0 <= code <= 6)
  {
    if code == 0 then "UP"
    else if code == 1 then "DOWN"
    else if code == 2 then "RUP"
    else if code == 3 then "RDN"
    else if code == 4 then "TUP"
    else if code == 5 then "TDN"
    else if code == 6 then "TRIP"
    else "undef"
  }

  /** The monitor's table and the table of the HV agent name every status
      code alike. */
  lemma StatusAgrees(code: int)
    ensures StatusString(code) == HvConf.StatusString(code)
  {
  }

  /** The seven state names are distinct and none is 'undef': the name
      identifies the code. */
  lemma StatusInjective(a: int, b: int)
    requires StatusString(a) == StatusString(b) && StatusString(a) != "undef"
    ensures a == b && 0 <= a <= 6
  {
    assert "UP"[1] != "DOWN"[1] && "RUP"[1] != "RDN"[1] && "TUP"[1] != "TDN"[1];
  }

  // ---------------------------------------------------------------------
  // get_keys and the config message
  // ---------------------------------------------------------------------

  /** Python list.insert(i, x) for 0 <= i: an index past the end appends. */
  function Insert<T>(xs: seq<T>, i: nat, x: T): (r: seq<T>)
    ensures var j := if i <= |xs| then i else |xs|;
      |r| == |xs| + 1 && r[j] == x && r[..j] == xs[..j] && r[j + 1..] == xs[j..]
  {
    var j := if i <= |xs| then i else |xs|;
    xs[..j] + [x] + xs[j..]
  }

  /** get_keys(hv): the keys of the monitor registers, in the order the
      module's dict reports them, with the timestamp, time and address
      columns inserted at the front. */
  method GetKeys(monKeys: seq<string>) returns (fields: seq<string>)
    ensures fields == ["timestamp", "time", "address"] + monKeys
  {
    fields := monKeys;
    fields := Insert(fields, 0, "timestamp");
    fields := Insert(fields, 1, "time");
    fields := Insert(fields, 2, "address");
  }

  /** An optional string argument as json.dumps sends it. */
  function OptStr(o: Option<string>): Value {
    if o.Some? then Str(o.value) else Null
  }

  /** The config message as written: the label is sent under the key
      "filelable". */
  function ConfigMessage(freq: int, filename: Option<string>, filelabel: Option<string>): (v: Value)
    ensures Field(v, "type") == Str("config") && Field(v, "frequency") == Int(freq)
  {
    var fields := ConfigHead(freq, filename) + [("filelable", OptStr(filelabel))];
    assert "type"[0] != "frequency"[0] && "type"[0] != "filename"[0] && "type"[0] != "filelable"[0];
    assert "frequency"[1] != "filename"[1] && "frequency"[1] != "filelable"[1];
    LookupAt(fields, 0);
    LookupAt(fields, 1);
    Obj(fields)
  }

  /** The config message with the label under the key the server reads. */
  function ConfigMessageIntended(freq: int, filename: Option<string>, filelabel: Option<string>): Value {
    Obj(ConfigHead(freq, filename) + [("filelabel", OptStr(filelabel))])
  }

  /** What a reader of the message finds under "filename" and
      "filelabel": as written, the label is never under "filelabel". */
  lemma ConfigKeys(freq: int, filename: Option<string>, filelabel: Option<string>)
    ensures Field(ConfigMessage(freq, filename, filelabel), "filename") == OptStr(filename)
    ensures Field(ConfigMessage(freq, filename, filelabel), "filelabel") == Null
  {
    var three := ConfigHead(freq, filename);
    assert ConfigMessage(freq, filename, filelabel).fields == three + [("filelable", OptStr(filelabel))];
    assert "filelable"[7] != "filelabel"[7];
    assert |"filename"| != |"filelable"|;
    LookupOther(three, "filelabel", "filelable", OptStr(filelabel));
    LookupOther(three, "filename", "filelable", OptStr(filelabel));
  }

  /** As intended, the label is found under "filelabel". */
  lemma ConfigKeysIntended(freq: int, filename: Option<string>, filelabel: Option<string>)
    ensures Field(ConfigMessageIntended(freq, filename, filelabel), "filename") == OptStr(filename)
    ensures Field(ConfigMessageIntended(freq, filename, filelabel), "filelabel") == OptStr(filelabel)
  {
    var three := ConfigHead(freq, filename);
    assert ConfigMessageIntended(freq, filename, filelabel).fields == three + [("filelabel", OptStr(filelabel))];
    assert |"filename"| != |"filelabel"|;
    LookupOther(three, "filename", "filelabel", OptStr(filelabel));
    LookupLast(three, "filelabel", OptStr(filelabel));
  }

  /** The first three members, which both messages share: "filename" is
      bound and "filelabel" is not. */
  function ConfigHead(freq: int, filename: Option<string>): (fields: seq<(string, Value)>)
    ensures Lookup(fields, "filename") == OptStr(filename) && Lookup(fields, "filelabel") == Null
  {
    var head := [("type", Str("config")), ("frequency", Int(freq))];
    LookupLast(head, "filename", OptStr(filename));
    LookupOther(head, "filelabel", "filename", OptStr(filename));
    assert |"filename"| != |"filelabel"|;
    assert "type"[0] != "filelabel"[0] && "frequency"[1] != "filelabel"[1];
    assert forall k :: 0 <= k < |head| ==> head[k].0 != "filelabel";
    head + [("filename", OptStr(filename))]
  }
}
