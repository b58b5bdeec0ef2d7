/** The HV monitor server (hvmon_server.py): the name of the CSV file it
    writes, derived from the config message a monitor client opens its
    session with and from the current date and time. */
module HvmonServer {
  import opened Text
  import opened Json
  import HvmonClient

  /** A reading of the local clock, down to the minute. */
  datatype Moment = Moment(year: int, month: int, day: int, hour: int, minute: int)

  /** A clock reading datetime.now() can give, with a four-digit year. */
  predicate ValidMoment(t: Moment) {
    && 1000 <= t.year <= 9999 && 1 <= t.month <= 12 && 1 <= t.day <= 31
    && 0 <= t.hour < 24 && 0 <= t.minute < 60
  }

  /** strftime('%Y%m%d-%H%M'): every field zero-filled to its width. */
  function Stamp(t: Moment): (s: string)
    requires ValidMoment(t)
    ensures |s| == 13 && s[8] == '-'
  {
    assert Pow(10, 2) == 100 && Pow(10, 4) == 10000;
    PaddedRoundTrip(t.year, 10, 4);
    PaddedRoundTrip(t.month, 10, 2);
    PaddedRoundTrip(t.day, 10, 2);
    PaddedRoundTrip(t.hour, 10, 2);
    PaddedRoundTrip(t.minute, 10, 2);
    StampSlices(Padded(t.year, 10, 4), Padded(t.month, 10, 2), Padded(t.day, 10, 2),
      Padded(t.hour, 10, 2), Padded(t.minute, 10, 2));
    Padded(t.year, 10, 4) + Padded(t.month, 10, 2) + Padded(t.day, 10, 2) + "-"
      + Padded(t.hour, 10, 2) + Padded(t.minute, 10, 2)
  }

  /** A numeral in base ten whose value is n. */
  predicate ReadsAs(s: string, n: nat) {
    IsNumeral(s, 10) && NumeralValue(s, 10) == n
  }

  /** The stamp has a fixed layout, and each field reads back as the clock
      reading it came from. */
  lemma StampReadsBack(t: Moment)
    requires ValidMoment(t)
    ensures var s := Stamp(t);
      && |s| == 13 && s[8] == '-'
      && ReadsAs(s[..4], t.year) && ReadsAs(s[4..6], t.month) && ReadsAs(s[6..8], t.day)
      && ReadsAs(s[9..11], t.hour) && ReadsAs(s[11..], t.minute)
  {
    assert Pow(10, 2) == 100 && Pow(10, 4) == 10000;
    PaddedRoundTrip(t.year, 10, 4);
    PaddedRoundTrip(t.month, 10, 2);
    PaddedRoundTrip(t.day, 10, 2);
    PaddedRoundTrip(t.hour, 10, 2);
    PaddedRoundTrip(t.minute, 10, 2);
    StampSlices(Padded(t.year, 10, 4), Padded(t.month, 10, 2), Padded(t.day, 10, 2),
      Padded(t.hour, 10, 2), Padded(t.minute, 10, 2));
  }

  /** Where the five fields of a stamp sit. */
  lemma StampSlices(y: string, mo: string, d: string, h: string, mi: string)
    requires |y| == 4 && |mo| == 2 && |d| == 2 && |h| == 2 && |mi| == 2
    ensures var s := y + mo + d + "-" + h + mi;
      && |s| == 13 && s[8] == '-'
      && s[..4] == y && s[4..6] == mo && s[6..8] == d && s[9..11] == h && s[11..] == mi
  {
    var s := y + mo + d + "-" + h + mi;
    var date := y + mo + d;
    assert s == date + "-" + h + mi;
    assert date[..4] == y && date[4..6] == mo && date[6..] == d;
    assert s[..8] == date;
    assert s[9..] == h + mi;
  }

  /** The message generate_filename raises when no name can be made. */
  const NO_NAME := "E: filename (-f) or filelabel (-l) option is required"

  /** generate_filename(config_information) with the clock reading as a
      parameter: a truthy "filename" is used as it is; otherwise a truthy
      "filelabel" gives <prefix>-<YYYYMMDD>-<HHMM>.csv; otherwise ValueError.
      A config that is not a dict fails on .get. */
  function GenerateFilename(config: Value, now: Moment): (r: Outcome<Value>)
    requires ValidMoment(now)
    ensures r.Ok? ==> Truthy(r.value)
    ensures r.Raised? ==> r.error == ValueError(NO_NAME) || r.error == AttributeError("get")
  {
    match Get(config, "filename")
    case Raised(e) => Raised(e)
    case Ok(f) =>
      if Truthy(f) then Ok(f)
      else
        var prefix := Field(config, "filelabel");
        if Truthy(prefix) then Ok(Str(PyStr(prefix) + "-" + Stamp(now) + ".csv"))
        else Raised(ValueError(NO_NAME))
  }

  /** The labelled name: the prefix as str() renders it, a dash, the stamp
      of the clock reading, and the .csv suffix. */
  predicate IsLabelledName(name: string, prefix: string, now: Moment)
    requires ValidMoment(now)
  {
    && |name| == |prefix| + 18
    && name[..|prefix|] == prefix && name[|prefix|] == '-'
    && name[|prefix| + 1 .. |prefix| + 14] == Stamp(now) && name[|prefix| + 14..] == ".csv"
  }

  /** Each way generate_filename can go: a filename wins whatever the prefix
      is; empty strings and None count as absent; the prefix gives a name of
      the labelled form; with neither the call raises ValueError. */
  lemma GenerateCases(config: Value, now: Moment)
    requires ValidMoment(now)
    ensures !config.Obj? ==> GenerateFilename(config, now) == Raised(AttributeError("get"))
    ensures config.Obj? && Truthy(Field(config, "filename")) ==>
      GenerateFilename(config, now) == Ok(Field(config, "filename"))
    ensures config.Obj? && !Truthy(Field(config, "filename")) && Truthy(Field(config, "filelabel")) ==>
      && GenerateFilename(config, now).Ok? && GenerateFilename(config, now).value.Str?
      && IsLabelledName(GenerateFilename(config, now).value.s, PyStr(Field(config, "filelabel")), now)
    ensures config.Obj? && !Truthy(Field(config, "filename")) && !Truthy(Field(config, "filelabel")) ==>
      GenerateFilename(config, now) == Raised(ValueError(NO_NAME))
  {
    if config.Obj? && !Truthy(Field(config, "filename")) && Truthy(Field(config, "filelabel")) {
      LabelledName(PyStr(Field(config, "filelabel")), now);
    }
  }

  /** The labelled file name of a clock reading has the labelled form. */
  lemma LabelledName(prefix: string, now: Moment)
    requires ValidMoment(now)
    ensures IsLabelledName(prefix + "-" + Stamp(now) + ".csv", prefix, now)
  {
    StampReadsBack(now);
    NameSlices(prefix, Stamp(now));
  }

  /** Where the label, the stamp and the suffix of a labelled name sit. */
  lemma NameSlices(prefix: string, st: string)
    requires |st| == 13
    ensures var name := prefix + "-" + st + ".csv";
      && |name| == |prefix| + 18 && name[..|prefix|] == prefix && name[|prefix|] == '-'
      && name[|prefix| + 1 .. |prefix| + 14] == st && name[|prefix| + 14..] == ".csv"
  {
    var name := prefix + "-" + st + ".csv";
    assert name == prefix + ("-" + (st + ".csv"));
    assert name[|prefix| + 1..] == st + ".csv";
  }

  /** Empty strings are absent: a config whose filename and prefix are both
      "" is refused. */
  lemma EmptyIsAbsent(fields: seq<(string, Value)>, now: Moment)
    requires ValidMoment(now)
    requires Lookup(fields, "filename") == Str("") && Lookup(fields, "filelabel") == Str("")
    ensures GenerateFilename(Obj(fields), now).Raised? && GenerateFilename(Obj(fields), now).error.ValueError?
  {
  }

  /** Run as written, a monitor client started with only -l is refused:
      its prefix travels under "filelable", the server finds no name and
      raises ValueError, whatever the prefix. */
  lemma LabelOnlyRejected(freq: int, filelabel: string, now: Moment)
    requires ValidMoment(now)
    ensures GenerateFilename(HvmonClient.ConfigMessage(freq, None, Some(filelabel)), now) == Raised(ValueError(NO_NAME))
  {
    HvmonClient.ConfigKeys(freq, None, Some(filelabel));
  }

  /** With the prefix under "filelabel", a client started with only a
      nonempty -l gets the labelled file name. */
  lemma LabelOnlyNamed(freq: int, filelabel: string, now: Moment)
    requires ValidMoment(now) && filelabel != ""
    ensures GenerateFilename(HvmonClient.ConfigMessageIntended(freq, None, Some(filelabel)), now)
      == Ok(Str(filelabel + "-" + Stamp(now) + ".csv"))
    ensures IsLabelledName(filelabel + "-" + Stamp(now) + ".csv", filelabel, now)
  {
    var m := HvmonClient.ConfigMessageIntended(freq, None, Some(filelabel));
    HvmonClient.ConfigKeysIntended(freq, None, Some(filelabel));
    LabelGivesName(m, now);
    LabelledName(filelabel, now);
  }

  /** With no filename and a truthy label, the name is made from the label. */
  lemma LabelGivesName(config: Value, now: Moment)
    requires ValidMoment(now) && config.Obj?
    requires !Truthy(Field(config, "filename")) && Truthy(Field(config, "filelabel"))
    ensures GenerateFilename(config, now) == Ok(Str(PyStr(Field(config, "filelabel")) + "-" + Stamp(now) + ".csv"))
  {
  }

  /** A client started with a nonempty -f gets that name, as written and as
      intended alike. */
  lemma FilenameWins(freq: int, filename: string, filelabel: Option<string>, now: Moment)
    requires ValidMoment(now) && filename != ""
    ensures GenerateFilename(HvmonClient.ConfigMessage(freq, Some(filename), filelabel), now) == Ok(Str(filename))
    ensures GenerateFilename(HvmonClient.ConfigMessageIntended(freq, Some(filename), filelabel), now) == Ok(Str(filename))
  {
    HvmonClient.ConfigKeys(freq, Some(filename), filelabel);
    HvmonClient.ConfigKeysIntended(freq, Some(filename), filelabel);
  }
}
