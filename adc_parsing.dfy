/** The DMA readout (ADC_parsing.py).  The writer turns each received frame
    into rows of eight 16-bit words in hexadecimal.  The parser turns each
    row into the bit fields of one ADC event.  The sockets, the CSV files
    and the pipe between the two processes are replaced by the sequences
    they carry. */
module AdcParsing {
  import opened Text
  import opened Json
  import opened RegisterBuffer


  // ---------------------------------------------------------------------
  // The writer
  // ---------------------------------------------------------------------

  /** A 16-bit word. */
  type Word = w: nat | w < 0x10000

  /** Word k of a frame, as struct.unpack_from('H') reads it in the board's
      native (little-endian) byte order. */
  function Word16(part: seq<byte>, k: nat): Word
    requires 2 * k + 2 <= |part|
  {
    part[2 * k] as int + 0x100 * part[2 * k + 1] as int
  }

  /** The int(len(part) / 2) words of a frame; an odd last byte is not read. */
  function Words(part: seq<byte>): (ws: seq<Word>)
    ensures |ws| == |part| / 2
    ensures forall k :: 0 <= k < |ws| ==> ws[k] == Word16(part, k)
  {
    seq(|part| / 2, k requires 0 <= k < |part| / 2 => Word16(part, k))
  }

  /** f'{w:04x}': four hexadecimal digits. */
  function Group(w: Word): (g: string)
    ensures |g| == 4
  {
    GroupReadsBack(w);
    Hex(w, 4)
  }

  /** The four digits read back as the word, and none of them is white
      space. */
  lemma GroupReadsBack(w: Word)
    ensures |Hex(w, 4)| == 4 && IsNumeral(Hex(w, 4), 16) && NumeralValue(Hex(w, 4), 16) == w
    ensures forall i :: 0 <= i < 4 ==> !IsSpace(Hex(w, 4)[i])
  {
    assert Pow(16, 4) == 0x10000;
    HexRoundTrip(w, 4);
    HexNoSpace(Hex(w, 4));
  }

  lemma HexNoSpace(g: string)
    requires IsNumeral(g, 16)
    ensures forall i :: 0 <= i < |g| ==> !IsSpace(g[i])
  {
    forall i | 0 <= i < |g| ensures !IsSpace(g[i]) {
      assert IsHexDigit(g[i]);
    }
  }

  /** The renderings of the words of a frame, one per word. */
  function Hexes(v: seq<Word>): (gs: seq<string>)
    ensures |gs| == |v|
  {
    seq(|v|, k requires 0 <= k < |v| => Group(v[k]))
  }

  /** Every rendering is four hexadecimal digits. */
  predicate FourDigits(gs: seq<string>) {
    forall k :: 0 <= k < |gs| ==> |gs[k]| == 4 && IsNumeral(gs[k], 16)
  }

  lemma HexesAreFourDigits(v: seq<Word>)
    ensures FourDigits(Hexes(v))
  {
    forall k | 0 <= k < |v| ensures |Hexes(v)[k]| == 4 && IsNumeral(Hexes(v)[k], 16) {
      GroupReadsBack(v[k]);
    }
  }

  /** The accumulator after renderings j..n-1: each followed by a space. */
  function Span(gs: seq<string>, j: nat, n: nat): string
    requires j <= n <= |gs|
    decreases n - j
  {
    if n == j then "" else Span(gs, j, n - 1) + gs[n - 1] + " "
  }

  /** Renderings j..n-1 run together. */
  function HexSpan(gs: seq<string>, j: nat, n: nat): string
    requires j <= n <= |gs|
    decreases n - j
  {
    if n == j then "" else HexSpan(gs, j, n - 1) + gs[n - 1]
  }

  /** Row r of a frame, as written and sent: the accumulator of words
      8r..8r+7, stripped. */
  function RowAt(gs: seq<string>, r: nat): string
    requires 8 * r + 8 <= |gs|
  {
    Strip(Span(gs, 8 * r, 8 * r + 8))
  }

  /** The first m rows of a frame, from the renderings of its words. */
  function RowsUpTo(gs: seq<string>, m: nat): (rows: seq<string>)
    requires 8 * m <= |gs|
    ensures |rows| == m
  {
    if m == 0 then [] else RowsUpTo(gs, m - 1) + [RowAt(gs, m - 1)]
  }

  /** The rows of the complete groups of eight words; the words after the
      last complete group make no row. */
  function Rows(v: seq<Word>): (rows: seq<string>)
    ensures |rows| == |v| / 8
  {
    RowsUpTo(Hexes(v), |v| / 8)
  }

  /** The rows of one frame; a frame of exactly one byte is skipped. */
  function FrameRows(part: seq<byte>): seq<string> {
    if |part| == 1 then [] else Rows(Words(part))
  }

  /** The rows of a multipart message, part after part. */
  function MessageRows(message: seq<seq<byte>>): seq<string> {
    if message == [] then [] else MessageRows(message[..|message| - 1]) + FrameRows(message[|message| - 1])
  }

  lemma {:induction false} RowsUpToAt(gs: seq<string>, m: nat, r: nat)
    requires 8 * m <= |gs| && r < m
    ensures RowsUpTo(gs, m)[r] == RowAt(gs, r)
  {
    if r < m - 1 {
      RowsUpToAt(gs, m - 1, r);
    }
  }

  /** A frame of n words has floor(n / 8) rows, row r made of words
      8r..8r+7 and nothing else. */
  lemma RowsAt(v: seq<Word>, r: nat)
    requires r < |v| / 8
    ensures 8 * r + 8 <= |v| && Rows(v)[r] == Strip(Span(Hexes(v), 8 * r, 8 * r + 8))
  {
    RowsUpToAt(Hexes(v), |v| / 8, r);
  }

  lemma {:induction false} SpanLength(gs: seq<string>, j: nat, n: nat)
    requires j <= n <= |gs| && FourDigits(gs)
    ensures |Span(gs, j, n)| == 5 * (n - j) && |HexSpan(gs, j, n)| == 4 * (n - j)
    decreases n - j
  {
    if j < n {
      SpanLength(gs, j, n - 1);
    }
  }

  /** The accumulator ends in a space and does not start with white space. */
  lemma {:induction false} SpanEnds(gs: seq<string>, j: nat, n: nat)
    requires j < n <= |gs| && FourDigits(gs)
    ensures Span(gs, j, n)[|Span(gs, j, n)| - 1] == ' '
    ensures !IsSpace(Span(gs, j, n)[0])
  {
    var a := Span(gs, j, n - 1);
    assert Span(gs, j, n) == a + gs[n - 1] + " ";
    if j == n - 1 {
      assert IsHexDigit(gs[n - 1][0]);
      assert Span(gs, j, n)[0] == gs[n - 1][0];
    } else {
      SpanEnds(gs, j, n - 1);
      assert Span(gs, j, n)[0] == a[0];
    }
  }

  /** With its spaces removed the accumulator is the run of digits. */
  lemma {:induction false} SpanNoSpace(gs: seq<string>, j: nat, n: nat)
    requires j <= n <= |gs| && FourDigits(gs)
    ensures StringNoSpace(Span(gs, j, n)) == HexSpan(gs, j, n)
    decreases n - j
  {
    if j < n {
      SpanNoSpace(gs, j, n - 1);
      NoSpaceStep(Span(gs, j, n - 1), gs[n - 1]);
    }
  }

  /** One rendering and its space removed from the end of the accumulator. */
  lemma NoSpaceStep(a: string, g: string)
    requires IsNumeral(g, 16)
    ensures StringNoSpace(a + g + " ") == StringNoSpace(a) + g
  {
    HexNoSpace(g);
    NoSpaceSame(g);
    NoSpaceAppend(a, g + " ");
    NoSpaceTrailing(g);
    assert a + g + " " == a + (g + " ");
  }

  lemma NoSpaceTrailing(g: string)
    ensures StringNoSpace(g + " ") == StringNoSpace(g)
  {
    assert (g + " ")[..|g|] == g;
  }

  /** The stripped accumulator is the accumulator without its trailing
      space. */
  lemma StripSpan(gs: seq<string>, j: nat, n: nat)
    requires j < n <= |gs| && FourDigits(gs)
    ensures Strip(Span(gs, j, n)) + " " == Span(gs, j, n)
  {
    SpanEnds(gs, j, n);
    var a := Span(gs, j, n);
    var g := gs[n - 1];
    var b := Span(gs, j, n - 1) + g;
    assert a == b + " ";
    assert a[..|a| - 1] == b;
    assert !IsSpace(b[|b| - 1]) by {
      assert b[|b| - 1] == g[3];
      assert IsHexDigit(g[3]);
    }
    assert TrimLeft(a) == a;
    assert TrimRight(a) == TrimRight(b);
  }

  /** The run of digits of consecutive spans is the concatenation. */
  lemma {:induction false} HexSpanSplit(gs: seq<string>, j: nat, m: nat, n: nat)
    requires j <= m <= n <= |gs|
    ensures HexSpan(gs, j, n) == HexSpan(gs, j, m) + HexSpan(gs, m, n)
    decreases n - m
  {
    if m < n {
      HexSpanSplit(gs, j, m, n - 1);
      assert HexSpan(gs, m, n) == HexSpan(gs, m, n - 1) + gs[n - 1];
    }
  }

  lemma {:induction false} HexSpanDigits(gs: seq<string>, j: nat, n: nat)
    requires j <= n <= |gs| && FourDigits(gs)
    ensures IsNumeral(HexSpan(gs, j, n), 16)
    decreases n - j
  {
    if j < n {
      HexSpanDigits(gs, j, n - 1);
      NumeralConcat(HexSpan(gs, j, n - 1), gs[n - 1], 16);
    }
  }

  /** Rendering k of a span sits at digits 4(k-j)..4(k-j)+3 of its run. */
  lemma {:induction false} HexSpanAt(gs: seq<string>, j: nat, n: nat, k: nat)
    requires j <= k < n <= |gs| && FourDigits(gs)
    ensures |HexSpan(gs, j, n)| == 4 * (n - j)
    ensures HexSpan(gs, j, n)[4 * (k - j) .. 4 * (k - j) + 4] == gs[k]
  {
    SpanLength(gs, j, n);
    SpanLength(gs, j, n - 1);
    var h := HexSpan(gs, j, n - 1);
    assert HexSpan(gs, j, n) == h + gs[n - 1];
    if k < n - 1 {
      HexSpanAt(gs, j, n - 1, k);
      assert (h + gs[n - 1])[4 * (k - j) .. 4 * (k - j) + 4] == h[4 * (k - j) .. 4 * (k - j) + 4];
    } else {
      assert (h + gs[n - 1])[4 * (k - j) .. 4 * (k - j) + 4] == gs[n - 1];
    }
  }

  /** With its spaces removed, a row is the run of its words' digits. */
  lemma RowDigits(gs: seq<string>, j: nat)
    requires j + 8 <= |gs| && FourDigits(gs)
    ensures StringNoSpace(Strip(Span(gs, j, j + 8))) == HexSpan(gs, j, j + 8)
  {
    var row := Strip(Span(gs, j, j + 8));
    StripSpan(gs, j, j + 8);
    SpanNoSpace(gs, j, j + 8);
    NoSpaceAppend(row, " ");
    assert StringNoSpace(" ") == "" by {
      assert " "[..0] == "";
    }
  }

  /** With spaces removed a row is its renderings run together, rendering
      k at digits 4k..4k+3. */
  lemma RowDigitsAt(gs: seq<string>, j: nat, k: nat)
    requires j + 8 <= |gs| && k < 8 && FourDigits(gs)
    ensures StringNoSpace(Strip(Span(gs, j, j + 8))) == HexSpan(gs, j, j + 8)
    ensures |HexSpan(gs, j, j + 8)| == 32
    ensures HexSpan(gs, j, j + 8)[4 * k .. 4 * k + 4] == gs[j + k]
  {
    RowDigits(gs, j);
    HexSpanAt(gs, j, j + 8, j + k);
  }

  /** The words of a row can be read back from it: with spaces removed it
      is the words' four-digit groups, group k reading back as word j+k. */
  lemma RowReadsBack(v: seq<Word>, j: nat, k: nat)
    requires j + 8 <= |v| && k < 8
    ensures StringNoSpace(Strip(Span(Hexes(v), j, j + 8))) == HexSpan(Hexes(v), j, j + 8)
    ensures |HexSpan(Hexes(v), j, j + 8)| == 32
    ensures HexSpan(Hexes(v), j, j + 8)[4 * k .. 4 * k + 4] == Hex(v[j + k], 4)
    ensures NumeralValue(HexSpan(Hexes(v), j, j + 8)[4 * k .. 4 * k + 4], 16) == v[j + k]
  {
    HexesAreFourDigits(v);
    RowDigitsAt(Hexes(v), j, k);
    assert Hexes(v)[j + k] == Group(v[j + k]);
    GroupReadsBack(v[j + k]);
  }

  /** The writer's inner loop for one frame (lines 42-58). */
  method WriteFrame(part: seq<byte>) returns (rows: seq<string>)
    ensures rows == FrameRows(part)
  {
    rows := [];
    if |part| == 1 {
      return;
    }
    rows := WriteWords(Words(part));
  }

  /** The loop over the words of one frame: a row every eighth word. */
  method WriteWords(v: seq<Word>) returns (rows: seq<string>)
    ensures rows == Rows(v)
  {
    rows := [];
    var i := 0;
    var a := "";
    var n := 0;
    ghost var gs := Hexes(v);
    ghost var start := 0;
    while n < |v|
      invariant 0 <= i < 8 && start <= n <= |v| && n == start + i
      invariant start == 8 * |rows|
      invariant a == Span(gs, start, n)
      invariant rows == RowsUpTo(gs, |rows|)
    {
      var g := Group(v[n]);
      assert g == gs[n];
      SpanNext(gs, start, n, a, g);
      a := a + g + " ";
      i := i + 1;
      n := n + 1;
      EighthWord(i);
      if i % 8 == 0 {
        RowsUpToNext(gs, |rows|, start, n, a);
        rows := rows + [Strip(a)];
        assert Span(gs, n, n) == "";
        a := "";
        i := 0;
        start := n;
        assert a == Span(gs, start, n);
      } else {
        assert a == Span(gs, start, n);
      }
    }
    RowCount(|v|, |rows|, i);
  }

  /** One more word rendered onto the accumulator. */
  lemma SpanNext(gs: seq<string>, j: nat, n: nat, a: string, g: string)
    requires j <= n < |gs| && a == Span(gs, j, n) && g == gs[n]
    ensures a + g + " " == Span(gs, j, n + 1)
  {
  }

  lemma EighthWord(i: nat)
    requires 0 < i <= 8
    ensures i % 8 == 0 <==> i == 8
  {
  }

  /** The row written after eight more words. */
  lemma RowsUpToNext(gs: seq<string>, m: nat, j: nat, n: nat, a: string)
    requires j == 8 * m && n == j + 8 && n <= |gs| && a == Span(gs, j, n)
    ensures RowsUpTo(gs, m) + [Strip(a)] == RowsUpTo(gs, m + 1)
  {
    assert RowAt(gs, m) == Strip(a);
  }

  lemma RowCount(n: nat, m: nat, i: nat)
    requires n == 8 * m + i && i < 8
    ensures n / 8 == m
  {
  }

  /** The writer's loop over the parts of one message (line 41). */
  method WriteMessage(message: seq<seq<byte>>) returns (rows: seq<string>)
    ensures rows == MessageRows(message)
  {
    rows := [];
    var p := 0;
    while p < |message|
      invariant 0 <= p <= |message|
      invariant rows == MessageRows(message[..p])
    {
      var r := WriteFrame(message[p]);
      assert message[..p + 1][..p] == message[..p];
      rows := rows + r;
      p := p + 1;
    }
    assert message[..p] == message;
  }

  // ---------------------------------------------------------------------
  // The parser
  // ---------------------------------------------------------------------

  /** string_no_space: every space removed, nothing else changed. */
  function StringNoSpace(s: string): (r: string)
    ensures forall i :: 0 <= i < |r| ==> r[i] != ' '
    ensures |r| <= |s|
  {
    if s == [] then []
    else StringNoSpace(s[..|s| - 1]) + (if s[|s| - 1] == ' ' then [] else [s[|s| - 1]])
  }

  lemma {:induction false} NoSpaceAppend(a: string, b: string)
    ensures StringNoSpace(a + b) == StringNoSpace(a) + StringNoSpace(b)
  {
    if b == [] {
      assert a + b == a;
    } else {
      NoSpaceAppend(a, b[..|b| - 1]);
      assert (a + b)[..|a + b| - 1] == a + b[..|b| - 1];
    }
  }

  /** A string without spaces is left as it is. */
  lemma {:induction false} NoSpaceSame(s: string)
    requires forall i :: 0 <= i < |s| ==> s[i] != ' '
    ensures StringNoSpace(s) == s
  {
    if s != [] {
      NoSpaceSame(s[..|s| - 1]);
    }
  }

  /** event[4:-4]: the first and the last four characters dropped, empty
      when there are no more than eight. */
  function Cut(e: string): (c: string)
    ensures |e| > 8 ==> c == e[4..|e| - 4]
    ensures |e| <= 8 ==> c == ""
  {
    if |e| > 8 then e[4..|e| - 4] else ""
  }

  /** s[i:j] for 0 <= i <= j, cut short at the end of s. */
  function PySlice(s: string, i: nat, j: nat): (r: string)
    requires i <= j
    ensures |r| == if j <= |s| then j - i else if i <= |s| then |s| - i else 0
  {
    if j <= |s| then s[i..j] else if i <= |s| then s[i..] else ""
  }

  /** bin(v)[2:].zfill(n). */
  function Bits(v: nat, n: nat): (s: string)
    ensures IsNumeral(s, 2) && |s| >= n
  {
    assert Padded(v, 2, n) == ZeroFill(Digits(v, 2), n);
    ZeroFill(Digits(v, 2), n)
  }

  /** The fields of one event, as bit strings. */
  datatype AdcEvent = AdcEvent(
    channel: string, time16: string, coarse: string, tot: string,
    triggerEnd: string, tdc: string, energy: string, crc: string)

  /** The fixed slices of the bit string; bit 32 and bits 64..68 belong
      to no field. */
  function FieldsOf(bits: string): (e: AdcEvent)
    ensures |bits| >= 96 ==>
      && e.channel + e.time16 + e.coarse + e.tot + e.triggerEnd == bits[3..32] + bits[33..64]
      && e.tdc + e.energy + e.crc == bits[69..96]
  {
    AdcEvent(
      PySlice(bits, 3, 8), PySlice(bits, 8, 24),
      PySlice(bits, 24, 32) + PySlice(bits, 33, 40) + PySlice(bits, 40, 53),
      PySlice(bits, 53, 59), PySlice(bits, 59, 64), PySlice(bits, 69, 74),
      PySlice(bits, 74, 88), PySlice(bits, 88, 96))
  }

  /** The bit string of an event: its hex digits between the first and the
      last word, four bits per digit with leading zeros kept. */
  function EventBits(event: string): (r: Outcome<Option<string>>)
    ensures event == "" ==> r == Ok(None)
    ensures r.Ok? && r.value.Some? ==> IsNumeral(r.value.value, 2) && |r.value.value| >= 4
    ensures r.Raised? ==> r.error == ValueError("int")
  {
    if event == "" then Ok(None)
    else
      var cut := Cut(StringNoSpace(event));
      if cut == "" then Ok(None)
      else if !IsNumeral(cut, 16) then Raised(ValueError("int"))
      else Ok(Some(Bits(NumeralValue(cut, 16), 4 * |cut|)))
  }

  /** One pass of the parser loop: skipped (None) for an empty event or an
      empty cut, the fields otherwise; a digit int() rejects raises. */
  function ParseEvent(event: string): (r: Outcome<Option<AdcEvent>>)
    ensures r.Ok? && r.value.Some? <==> EventBits(event).Ok? && EventBits(event).value.Some?
    ensures event == "" ==> r == Ok(None)
  {
    match EventBits(event)
    case Raised(e) => Raised(e)
    case Ok(None) => Ok(None)
    case Ok(Some(bits)) => Ok(Some(FieldsOf(bits)))
  }

  lemma {:induction false} NumeralBound(s: string, base: nat)
    requires 2 <= base && IsNumeral(s, base)
    ensures NumeralValue(s, base) < Pow(base, |s|)
  {
    if s != [] {
      var t := s[..|s| - 1];
      NumeralBound(t, base);
      BoundStep(NumeralValue(t, base), Pow(base, |t|), DigitValue(s[|s| - 1]), base);
    }
  }

  lemma BoundStep(v: nat, p: nat, d: nat, b: nat)
    requires v < p && d < b
    ensures v * b + d < b * p
  {
    MulMono(b, v + 1, p);
    assert b * (v + 1) == v * b + b;
  }

  lemma {:induction false} PowHex(k: nat)
    ensures Pow(16, k) == Pow(2, 4 * k)
  {
    if k > 0 {
      PowHex(k - 1);
      var m := 4 * (k - 1);
      assert Pow(2, m + 4) == 2 * Pow(2, m + 3);
      assert Pow(2, m + 3) == 2 * Pow(2, m + 2);
      assert Pow(2, m + 2) == 2 * Pow(2, m + 1);
      assert Pow(2, m + 1) == 2 * Pow(2, m);
      assert 4 * k == m + 4;
    }
  }

  /** The bit string of a nonempty hex cut has exactly four bits per digit
      and the same value. */
  lemma BitsOfCut(cut: string)
    requires cut != "" && IsNumeral(cut, 16)
    ensures |Bits(NumeralValue(cut, 16), 4 * |cut|)| == 4 * |cut|
    ensures IsNumeral(Bits(NumeralValue(cut, 16), 4 * |cut|), 2)
    ensures NumeralValue(Bits(NumeralValue(cut, 16), 4 * |cut|), 2) == NumeralValue(cut, 16)
  {
    var v := NumeralValue(cut, 16);
    NumeralBound(cut, 16);
    PowHex(|cut|);
    var d := Digits(v, 2);
    DigitsLength(v, 2, 4 * |cut|);
    DigitsValue(v, 2);
    var r := ZeroFill(d, 4 * |cut|);
    LeadingZeros(r[..|r| - |d|], d, 2);
    assert r == r[..|r| - |d|] + d;
  }

  /** Empty events and events with an empty cut are skipped. */
  lemma Skipped(event: string)
    ensures event == "" ==> ParseEvent(event) == Ok(None)
    ensures |StringNoSpace(event)| <= 8 ==> ParseEvent(event) == Ok(None)
  {
  }

  /** The cut of a row: the digits of its six middle words. */
  lemma RowCut(gs: seq<string>, j: nat)
    requires j + 8 <= |gs| && FourDigits(gs)
    ensures var row := Strip(Span(gs, j, j + 8));
      && |row| == 39
      && Cut(StringNoSpace(row)) == HexSpan(gs, j + 1, j + 7)
      && |HexSpan(gs, j + 1, j + 7)| == 24 && IsNumeral(HexSpan(gs, j + 1, j + 7), 16)
  {
    RowDigits(gs, j);
    StripSpan(gs, j, j + 8);
    SpanLength(gs, j, j + 8);
    HexSpanSplit(gs, j, j + 1, j + 8);
    HexSpanSplit(gs, j + 1, j + 7, j + 8);
    SpanLength(gs, j, j + 1);
    SpanLength(gs, j + 1, j + 7);
    SpanLength(gs, j + 7, j + 8);
    var x, y, z := HexSpan(gs, j, j + 1), HexSpan(gs, j + 1, j + 7), HexSpan(gs, j + 7, j + 8);
    assert HexSpan(gs, j, j + 8) == x + (y + z);
    assert (x + (y + z))[4..28] == y;
    HexSpanDigits(gs, j + 1, j + 7);
  }

  /** A nonempty event whose cut is a nonempty run of hexadecimal digits
      parses into the fields of the cut's bits. */
  lemma ParsesCut(event: string)
    requires event != "" && Cut(StringNoSpace(event)) != "" && IsNumeral(Cut(StringNoSpace(event)), 16)
    ensures var cut := Cut(StringNoSpace(event));
      && EventBits(event) == Ok(Some(Bits(NumeralValue(cut, 16), 4 * |cut|)))
      && ParseEvent(event) == Ok(Some(FieldsOf(Bits(NumeralValue(cut, 16), 4 * |cut|))))
  {
  }

  /** The fields of a 96-bit string have widths 5, 16, 28, 6, 5, 5, 14 and
      8. */
  lemma FieldWidths(bits: string)
    requires |bits| == 96
    ensures var f := FieldsOf(bits);
      && |f.channel| == 5 && |f.time16| == 16 && |f.coarse| == 28 && |f.tot| == 6
      && |f.triggerEnd| == 5 && |f.tdc| == 5 && |f.energy| == 14 && |f.crc| == 8
  {
  }

  /** Every row the writer makes parses, without raising, into fields of
      widths 5, 16, 28, 6, 5, 5, 14 and 8 bits, cut from the bits of the six
      middle words of the row. */
  lemma WrittenRowParses(gs: seq<string>, j: nat)
    requires j + 8 <= |gs| && FourDigits(gs)
    ensures var row := Strip(Span(gs, j, j + 8));
      && Cut(StringNoSpace(row)) == HexSpan(gs, j + 1, j + 7)
      && EventBits(row).Ok? && EventBits(row).value.Some?
      && |EventBits(row).value.value| == 96
      && NumeralValue(EventBits(row).value.value, 2) == NumeralValue(HexSpan(gs, j + 1, j + 7), 16)
      && ParseEvent(row).Ok? && ParseEvent(row).value.Some?
      && var f := ParseEvent(row).value.value;
      && |f.channel| == 5 && |f.time16| == 16 && |f.coarse| == 28 && |f.tot| == 6
      && |f.triggerEnd| == 5 && |f.tdc| == 5 && |f.energy| == 14 && |f.crc| == 8
  {
    var row := Strip(Span(gs, j, j + 8));
    RowCut(gs, j);
    var cut := HexSpan(gs, j + 1, j + 7);
    ParsesCut(row);
    BitsOfCut(cut);
    FieldWidths(Bits(NumeralValue(cut, 16), 4 * |cut|));
  }

  /** The outcomes of parser passes collected: the events of the passes
      that were not skipped, or the first error, which ends the process. */
  function Collect(rs: seq<Outcome<Option<AdcEvent>>>): Outcome<seq<AdcEvent>> {
    if rs == [] then Ok([])
    else match Collect(rs[..|rs| - 1])
      case Raised(e) => Raised(e)
      case Ok(out) =>
        match rs[|rs| - 1]
        case Raised(e) => Raised(e)
        case Ok(None) => Ok(out)
        case Ok(Some(f)) => Ok(out + [f])
  }

  /** One pass per event received. */
  function Passes(parse: string -> Outcome<Option<AdcEvent>>, events: seq<string>): (rs: seq<Outcome<Option<AdcEvent>>>)
    ensures |rs| == |events|
  {
    seq(|events|, k requires 0 <= k < |events| => parse(events[k]))
  }

  /** The parser loop over the events it receives. */
  function ParseAll(events: seq<string>): Outcome<seq<AdcEvent>> {
    Collect(Passes(ParseEvent, events))
  }

  /** An error ends the collection: nothing after it changes the outcome. */
  lemma {:induction false} CollectRaised(rs: seq<Outcome<Option<AdcEvent>>>, k: nat)
    requires k <= |rs| && Collect(rs[..k]).Raised?
    ensures Collect(rs) == Collect(rs[..k])
    decreases |rs| - k
  {
    if k < |rs| {
      assert rs[..k + 1][..k] == rs[..k];
      CollectRaised(rs, k + 1);
    } else {
      assert rs[..k] == rs;
    }
  }

  /** The events of consecutive outcome lists, when neither raises, are the
      events of the first followed by those of the second. */
  lemma {:induction false} CollectAppend(a: seq<Outcome<Option<AdcEvent>>>, b: seq<Outcome<Option<AdcEvent>>>)
    requires Collect(a).Ok? && Collect(b).Ok?
    ensures Collect(a + b) == Ok(Collect(a).value + Collect(b).value)
  {
    if b == [] {
      assert a + b == a;
      assert Collect(a).value + Collect(b).value == Collect(a).value;
    } else {
      var init := b[..|b| - 1];
      assert (a + b)[..|a + b| - 1] == a + init;
      assert (a + b)[|a + b| - 1] == b[|b| - 1];
      assert Collect(init).Ok?;
      CollectAppend(a, init);
      var x, y := Collect(a).value, Collect(init).value;
      match b[|b| - 1]
      case Ok(None) =>
      case Ok(Some(f)) =>
        assert x + (y + [f]) == (x + y) + [f];
    }
  }

  lemma PassesAppend(parse: string -> Outcome<Option<AdcEvent>>, a: seq<string>, b: seq<string>)
    ensures Passes(parse, a + b) == Passes(parse, a) + Passes(parse, b)
  {
    assert forall k :: 0 <= k < |a| ==> (a + b)[k] == a[k];
    assert forall k :: |a| <= k < |a + b| ==> (a + b)[k] == b[k - |a|];
  }

  /** The parser process (lines 66-111), on the events it receives until
      the first one int() rejects. */
  method ParseEvents(events: seq<string>) returns (out: seq<AdcEvent>, err: Option<PyError>)
    ensures err.None? ==> ParseAll(events) == Ok(out)
    ensures err.Some? ==> ParseAll(events) == Raised(err.value)
  {
    out := [];
    err := None;
    var k := 0;
    ghost var rs := Passes(ParseEvent, events);
    while k < |events|
      invariant 0 <= k <= |events|
      invariant Collect(rs[..k]) == Ok(out)
    {
      assert rs[..k + 1][..k] == rs[..k];
      var r := ParseEvent(events[k]);
      assert rs[k] == r;
      if r.Raised? {
        err := Some(r.error);
        CollectRaised(rs, k + 1);
        return;
      }
      if r.value.Some? {
        out := out + [r.value.value];
      }
      k := k + 1;
    }
    assert rs[..k] == rs;
  }

  /** The first m rows of a frame all parse: one event per row. */
  lemma RowsUpToParse(gs: seq<string>, m: nat)
    requires 8 * m <= |gs| && FourDigits(gs)
    ensures ParseAll(RowsUpTo(gs, m)).Ok? && |ParseAll(RowsUpTo(gs, m)).value| == m
  {
    var rows := RowsUpTo(gs, m);
    forall r | 0 <= r < m ensures ParseEvent(rows[r]).Ok? && ParseEvent(rows[r]).value.Some? {
      RowsUpToAt(gs, m, r);
      RowParses(gs, r);
    }
    AllEvents(ParseEvent, rows);
  }

  lemma RowParses(gs: seq<string>, r: nat)
    requires 8 * r + 8 <= |gs| && FourDigits(gs)
    ensures ParseEvent(RowAt(gs, r)).Ok? && ParseEvent(RowAt(gs, r)).value.Some?
  {
    var j := 8 * r;
    assert RowAt(gs, r) == Strip(Span(gs, j, j + 8));
    WrittenRowParses(gs, j);
  }

  /** When every pass yields an event, the collection is one event per
      pass. */
  lemma {:induction false} AllEvents(parse: string -> Outcome<Option<AdcEvent>>, events: seq<string>)
    requires forall k :: 0 <= k < |events| ==> parse(events[k]).Ok? && parse(events[k]).value.Some?
    ensures Collect(Passes(parse, events)).Ok? && |Collect(Passes(parse, events)).value| == |events|
  {
    if events != [] {
      var init := events[..|events| - 1];
      var e := events[|events| - 1];
      assert events == init + [e];
      AllEvents(parse, init);
      PassesSnoc(parse, init, e);
      CollectSnoc(Passes(parse, init), parse(e));
    }
  }

  lemma PassesSnoc(parse: string -> Outcome<Option<AdcEvent>>, a: seq<string>, e: string)
    ensures Passes(parse, a + [e]) == Passes(parse, a) + [parse(e)]
  {
    assert forall k :: 0 <= k < |a| ==> (a + [e])[k] == a[k];
  }

  /** One more outcome that is an event adds that event. */
  lemma CollectSnoc(rs: seq<Outcome<Option<AdcEvent>>>, r: Outcome<Option<AdcEvent>>)
    requires Collect(rs).Ok? && r.Ok? && r.value.Some?
    ensures Collect(rs + [r]) == Ok(Collect(rs).value + [r.value.value])
  {
    assert (rs + [r])[..|rs|] == rs;
  }

  /** The rows of one frame all parse. */
  lemma FrameRowsParse(part: seq<byte>)
    ensures ParseAll(FrameRows(part)).Ok? && |ParseAll(FrameRows(part)).value| == |FrameRows(part)|
  {
    if |part| != 1 {
      var w := Words(part);
      HexesAreFourDigits(w);
      RowsUpToParse(Hexes(w), |w| / 8);
    }
  }

  /** Everything the writer sends for a message reaches the parser as rows
      that parse: the parser never raises on them and turns each row into
      one event. */
  lemma {:induction false} MessageRowsParse(message: seq<seq<byte>>)
    ensures ParseAll(MessageRows(message)).Ok?
    ensures |ParseAll(MessageRows(message)).value| == |MessageRows(message)|
  {
    if message != [] {
      var init := message[..|message| - 1];
      var part := message[|message| - 1];
      MessageRowsParse(init);
      FrameRowsParse(part);
      PassesAppend(ParseEvent, MessageRows(init), FrameRows(part));
      CollectAppend(Passes(ParseEvent, MessageRows(init)), Passes(ParseEvent, FrameRows(part)));
    }
  }

  lemma NumeralConcat(a: string, b: string, base: nat)
    requires IsNumeral(a, base) && IsNumeral(b, base)
    ensures IsNumeral(a + b, base)
  {
    forall i | 0 <= i < |a + b| ensures IsHexDigit((a + b)[i]) && DigitValue((a + b)[i]) < base {
      if i < |a| {
        assert (a + b)[i] == a[i];
      } else {
        assert (a + b)[i] == b[i - |a|];
      }
    }
  }
}
