/** Text primitives standing for the Python built-ins that the control plane
    relies on: str() of an integer, int() of a string (base 10, and base 0
    restricted to decimal and 0x hexadecimal), str.strip(), str.split(","),
    and zero-filled renderings in bases 2, 10 and 16 (format specs such as
    '04x' and '08x', bin(n)[2:].zfill(k)). */
module Text {

  const DIGITS := "0123456789abcdef"

  predicate IsDecimalDigit(c: char) { '0' <= c <= '9' }

  predicate IsHexDigit(c: char) { IsDecimalDigit(c) || 'a' <= c <= 'f' || 'A' <= c <= 'F' }

  /** No upper-case hexadecimal digit occurs in s. */
  predicate LowerCase(s: string) { forall c :: c in s ==> !('A' <= c <= 'F') }

  function DigitValue(c: char): (d: nat)
    requires IsHexDigit(c)
    ensures d < 16
    ensures d < 10 <==> IsDecimalDigit(c)
  {
    if IsDecimalDigit(c) then c as int - '0' as int
    else if 'a' <= c <= 'f' then c as int - 'a' as int + 10
    else c as int - 'A' as int + 10
  }

  /** Every character of s is a digit of the given base. */
  predicate IsNumeral(s: string, base: nat) {
    forall i :: 0 <= i < |s| ==> IsHexDigit(s[i]) && DigitValue(s[i]) < base
  }

  /** The value of a digit string, most significant digit first. */
  function NumeralValue(s: string, base: nat): nat
    requires IsNumeral(s, base)
  {
    if s == [] then 0
    else
      NumeralInit(s, base);
      NumeralValue(s[..|s| - 1], base) * base + DigitValue(s[|s| - 1])
  }

  /** Dropping the last digit of a numeral leaves a numeral. */
  lemma NumeralInit(s: string, base: nat)
    requires IsNumeral(s, base) && s != []
    ensures IsNumeral(s[..|s| - 1], base)
  {
    var t := s[..|s| - 1];
    forall i | 0 <= i < |t| ensures IsHexDigit(t[i]) && DigitValue(t[i]) < base {
      assert t[i] == s[i];
    }
  }

  function Pow(b: nat, e: nat): (p: nat)
    ensures b >= 1 ==> p >= 1
  {
    if e == 0 then 1 else b * Pow(b, e - 1)
  }

  /** The lower-case digit for k < 16. */
  function DigitChar(k: nat): (c: char)
    requires k < 16
    ensures IsHexDigit(c) && DigitValue(c) == k
    ensures c == '0' <==> k == 0
    ensures c != ',' && c != '-' && c != ' '
    ensures !('A' <= c <= 'F')
  {
    if k < 10 then ('0' as int + k) as char else ('a' as int + k - 10) as char
  }

  /** The digits of n in the given base without leading zeros, "0" for zero:
      str(n) in base 10, format(n, 'x') in base 16, bin(n)[2:] in base 2. */
  function Digits(n: nat, base: nat): (s: string)
    requires 2 <= base <= 16
    ensures 1 <= |s| && IsNumeral(s, base)
    ensures s[0] == '0' ==> n == 0
    decreases n
  {
    if n >= base then DivFacts(n, base); Digits(n / base, base) + [DigitChar(n % base)]
    else [DigitChar(n)]
  }

  lemma {:induction false} DigitsValue(n: nat, base: nat)
    requires 2 <= base <= 16
    ensures NumeralValue(Digits(n, base), base) == n
  {
    var s := Digits(n, base);
    if n < base {
      assert s == [DigitChar(n)] && s[..0] == [];
    } else {
      DivFacts(n, base);
      var t := Digits(n / base, base);
      DigitsValue(n / base, base);
      assert s == t + [DigitChar(n % base)];
      assert s[..|s| - 1] == t;
      assert NumeralValue(s, base) == NumeralValue(t, base) * base + n % base;
    }
  }

  /** The digits are written in lower case. */
  lemma {:induction false} DigitsLowerCase(n: nat, base: nat)
    requires 2 <= base <= 16
    ensures LowerCase(Digits(n, base))
    decreases n
  {
    if n >= base {
      DivFacts(n, base);
      DigitsLowerCase(n / base, base);
      var t := Digits(n / base, base);
      var c := DigitChar(n % base);
      assert Digits(n, base) == t + [c];
      assert forall i :: 0 <= i < |t| ==> (t + [c])[i] == t[i];
    }
  }

  /** Digits(n, base) fits in k places exactly when n < base^k. */
  lemma {:induction false} DigitsLength(n: nat, base: nat, k: nat)
    requires 2 <= base <= 16 && 1 <= k
    ensures |Digits(n, base)| <= k <==> n < Pow(base, k)
  {
    if n < base {
      PowGrows(base, k);
    } else if k == 1 {
    } else {
      DivFacts(n, base);
      DigitsLength(n / base, base, k - 1);
      DivBelow(n, base, Pow(base, k - 1));
    }
  }

  /** Euclidean division by a base, spelled out for the solver. */
  lemma DivFacts(n: nat, b: nat)
    requires 2 <= b <= n
    ensures n == b * (n / b) + n % b && n % b < b
    ensures 1 <= n / b < n
  {
    var q, r := n / b, n % b;
    assert n == b * q + r && 0 <= r < b;
    MulMono(q, 2, b);
    assert q * 2 <= q * b;
  }

  lemma DivBelow(n: nat, b: nat, p: nat)
    requires 2 <= b
    ensures n / b < p <==> n < b * p
  {
    var q, r := n / b, n % b;
    assert n == b * q + r && r < b;
    if q < p {
      assert q + 1 <= p;
      MulMono(b, q + 1, p);
    } else {
      MulMono(b, p, q);
    }
  }

  lemma MulMono(b: nat, x: nat, y: nat)
    requires x <= y
    ensures b * x <= b * y
  {
  }

  lemma {:induction false} PowGrows(b: nat, k: nat)
    requires 2 <= b && 1 <= k
    ensures Pow(b, k) >= b
  {
    if k > 1 {
      PowGrows(b, k - 1);
    }
  }

  function Zeros(n: nat): (z: string)
    ensures |z| == n && IsNumeral(z, 2)
    ensures forall i :: 0 <= i < n ==> z[i] == '0'
  {
    seq(n, _ => '0')
  }

  /** s padded on the left with '0' up to width w (Python's str.zfill for
      unsigned numerals, and the 0-flag of a format spec). */
  function ZeroFill(s: string, w: nat): (r: string)
    ensures |r| == if |s| >= w then |s| else w
    ensures r[|r| - |s|..] == s
    ensures forall i :: 0 <= i < |r| - |s| ==> r[i] == '0'
  {
    if |s| >= w then s else Zeros(w - |s|) + s
  }

  /** Leading zeros do not change the value of a numeral. */
  lemma {:induction false} LeadingZeros(z: string, s: string, base: nat)
    requires 2 <= base && IsNumeral(s, base)
    requires forall i :: 0 <= i < |z| ==> z[i] == '0'
    ensures IsNumeral(z + s, base) && NumeralValue(z + s, base) == NumeralValue(s, base)
  {
    if s == [] {
      assert z + s == z;
      AllZeros(z, base);
    } else {
      var t := s[..|s| - 1];
      LeadingZeros(z, t, base);
      assert (z + s)[..|z + s| - 1] == z + t;
    }
  }

  lemma {:induction false} AllZeros(z: string, base: nat)
    requires 2 <= base
    requires forall i :: 0 <= i < |z| ==> z[i] == '0'
    ensures IsNumeral(z, base) && NumeralValue(z, base) == 0
  {
    if z != [] {
      AllZeros(z[..|z| - 1], base);
    }
  }

  /** n in the given base, zero-filled to w places: the 0-flag of a format
      spec ('04x', '02d') and strftime's padded fields. */
  function Padded(n: nat, base: nat, w: nat): (s: string)
    requires 2 <= base <= 16
    ensures IsNumeral(s, base)
  {
    var d := Digits(n, base);
    var r := ZeroFill(d, w);
    LeadingZeros(r[..|r| - |d|], d, base);
    assert r == r[..|r| - |d|] + d;
    r
  }

  /** Zero-filling keeps the digits in lower case. */
  lemma PaddedLowerCase(n: nat, base: nat, w: nat)
    requires 2 <= base <= 16
    ensures LowerCase(Padded(n, base, w))
  {
    DigitsLowerCase(n, base);
  }

  /** A value below base^w renders in exactly w places and reads back. */
  lemma PaddedRoundTrip(n: nat, base: nat, w: nat)
    requires 2 <= base <= 16 && 1 <= w && n < Pow(base, w)
    ensures |Padded(n, base, w)| == w && NumeralValue(Padded(n, base, w), base) == n
  {
    var d := Digits(n, base);
    var r := ZeroFill(d, w);
    DigitsLength(n, base, w);
    DigitsValue(n, base);
    LeadingZeros(r[..|r| - |d|], d, base);
    assert r == r[..|r| - |d|] + d;
  }

  /** n in base 16, lower case, zero-filled to w places (Python '0{w}x'). */
  function Hex(n: nat, w: nat): (s: string)
    ensures IsNumeral(s, 16) && LowerCase(s)
  {
    PaddedLowerCase(n, 16, w);
    Padded(n, 16, w)
  }

  /** A value below 16^w renders in exactly w hexadecimal places and reads back. */
  lemma HexRoundTrip(n: nat, w: nat)
    requires 1 <= w && n < Pow(16, w)
    ensures |Hex(n, w)| == w && NumeralValue(Hex(n, w), 16) == n && LowerCase(Hex(n, w))
  {
    PaddedRoundTrip(n, 16, w);
  }

  /** Python str() of an int. */
  function IntToString(i: int): (s: string)
    ensures 1 <= |s|
  {
    if i < 0 then "-" + Digits(-i, 10) else Digits(i, 10)
  }

  // ---------------------------------------------------------------------
  // Parsing: int(s) and int(s, 0)
  // ---------------------------------------------------------------------

  /** The ASCII characters that str.strip() and int() treat as white space. */
  predicate IsSpace(c: char) {
    c == ' ' || c == '\t' || c == '\n' || c == '\r' || c == '\U{b}' || c == '\U{c}'
    || c == '\U{1c}' || c == '\U{1d}' || c == '\U{1e}' || c == '\U{1f}'
  }

  function TrimLeft(s: string): (r: string)
    ensures |r| <= |s|
    ensures r != [] ==> !IsSpace(r[0])
    ensures s != [] && !IsSpace(s[0]) ==> r == s
  {
    if s != [] && IsSpace(s[0]) then TrimLeft(s[1..]) else s
  }

  function TrimRight(s: string): (r: string)
    ensures |r| <= |s|
    ensures r != [] ==> !IsSpace(r[|r| - 1])
    ensures s != [] && !IsSpace(s[|s| - 1]) ==> r == s
  {
    if s != [] && IsSpace(s[|s| - 1]) then TrimRight(s[..|s| - 1]) else s
  }

  /** Python str.strip() on ASCII white space. */
  function Strip(s: string): string { TrimRight(TrimLeft(s)) }

  /** The optional sign of an integer literal: the factor and what follows it. */
  function SignOf(s: string): (int, string) {
    if s != [] && s[0] == '-' then (-1, s[1..])
    else if s != [] && s[0] == '+' then (1, s[1..])
    else (1, s)
  }

  datatype Option<T> = None | Some(value: T)

  /** Python int(s): white space around an optionally signed run of decimal
      digits; anything else is a ValueError, here None. */
  function ParseInt(s: string): (r: Option<int>)
    ensures r.Some? ==> Strip(s) != []
  {
    var (sign, body) := SignOf(Strip(s));
    if body != [] && IsNumeral(body, 10) then Some(sign * NumeralValue(body, 10)) else None
  }

  predicate IsHexPrefix(s: string) { |s| >= 2 && s[0] == '0' && (s[1] == 'x' || s[1] == 'X') }

  /** Python int(s, 0) restricted to decimal and 0x/0X hexadecimal literals:
      a decimal literal may not start with 0 unless it is all zeros. */
  function ParseIntAuto(s: string): (r: Option<int>)
  {
    var (sign, body) := SignOf(Strip(s));
    if IsHexPrefix(body) then
      if |body| > 2 && IsNumeral(body[2..], 16) then Some(sign * NumeralValue(body[2..], 16)) else None
    else if body != [] && IsNumeral(body, 10) && (body[0] == '0' ==> NumeralValue(body, 10) == 0) then
      Some(sign * NumeralValue(body, 10))
    else None
  }

  lemma StripDigits(s: string)
    requires s != [] && (s[0] == '-' || IsDecimalDigit(s[0])) && IsDecimalDigit(s[|s| - 1])
    ensures Strip(s) == s
  {
    assert !IsSpace(s[0]) && TrimLeft(s) == s;
    assert !IsSpace(s[|s| - 1]);
  }

  /** str(i) carries no surrounding white space. */
  lemma StripIntToString(i: int)
    ensures Strip(IntToString(i)) == IntToString(i)
  {
    var n: nat := if i < 0 then -i else i;
    var d := Digits(n, 10);
    var s := IntToString(i);
    assert IsDecimalDigit(d[0]) && IsDecimalDigit(d[|d| - 1]);
    if i < 0 {
      assert s == "-" + d && s[1..] == d;
    } else {
      assert s == d;
    }
    assert s[|s| - 1] == d[|d| - 1];
    StripDigits(s);
  }

  /** str(i) is a minus sign for negative i, then the digits of |i|. */
  lemma SignOfIntToString(i: int, n: nat)
    requires n == if i < 0 then -i else i
    ensures SignOf(IntToString(i)) == (if i < 0 then -1 else 1, Digits(n, 10))
  {
    var d := Digits(n, 10);
    var s := IntToString(i);
    assert IsDecimalDigit(d[0]);
    if i < 0 {
      assert s == "-" + d && s[1..] == d;
    } else {
      assert s == d;
    }
    assert SignOf(s) == (if i < 0 then -1 else 1, d);
  }

  /** int(str(i)) == i. */
  lemma ParseIntRoundTrip(i: int)
    ensures ParseInt(IntToString(i)) == Some(i)
  {
    var n: nat := if i < 0 then -i else i;
    StripIntToString(i);
    SignOfIntToString(i, n);
    DigitsValue(n, 10);
  }

  /** int(str(i), 0) == i: str(i) never has a leading zero or an 0x prefix. */
  lemma ParseIntAutoRoundTrip(i: int)
    ensures ParseIntAuto(IntToString(i)) == Some(i)
  {
    var n: nat := if i < 0 then -i else i;
    var d := Digits(n, 10);
    StripIntToString(i);
    SignOfIntToString(i, n);
    DigitsValue(n, 10);
    if |d| >= 2 {
      assert IsDecimalDigit(d[1]);
    }
    assert !IsHexPrefix(d);
    ParseIntAutoDecimal(IntToString(i), if i < 0 then -1 else 1, d);
  }

  /** A stripped literal whose body is decimal digits without an 0x prefix
      or a superfluous leading zero reads as its value with its sign. */
  lemma ParseIntAutoDecimal(s: string, sign: int, d: string)
    requires Strip(s) == s && SignOf(s) == (sign, d)
    requires d != [] && IsNumeral(d, 10) && !IsHexPrefix(d) && (d[0] == '0' ==> NumeralValue(d, 10) == 0)
    ensures ParseIntAuto(s) == Some(sign * NumeralValue(d, 10))
  {
  }

  // ---------------------------------------------------------------------
  // str.split(",") and its inverse
  // ---------------------------------------------------------------------

  function IndexOf(s: string, c: char): (i: nat)
    requires c in s
    ensures i < |s| && s[i] == c && c !in s[..i]
  {
    if s[0] == c then 0 else 1 + IndexOf(s[1..], c)
  }

  /** Python s.split(sep) for a one-character separator: the pieces between
      separators, empty pieces included; never an empty list. */
  function Split(s: string, sep: char): (parts: seq<string>)
    ensures |parts| >= 1
    ensures forall k :: 0 <= k < |parts| ==> sep !in parts[k]
    decreases |s|
  {
    if sep !in s then [s]
    else
      var i := IndexOf(s, sep);
      [s[..i]] + Split(s[i + 1..], sep)
  }

  /** Python sep.join(parts). */
  function Join(parts: seq<string>, sep: char): string
    requires |parts| >= 1
  {
    if |parts| == 1 then parts[0] else parts[0] + [sep] + Join(parts[1..], sep)
  }

  lemma {:induction false} JoinSplit(s: string, sep: char)
    ensures Join(Split(s, sep), sep) == s
    decreases |s|
  {
    if sep in s {
      var i := IndexOf(s, sep);
      JoinSplit(s[i + 1..], sep);
      assert Split(s, sep)[1..] == Split(s[i + 1..], sep);
      assert s == s[..i] + [sep] + s[i + 1..];
    }
  }

  lemma {:induction false} SplitJoin(parts: seq<string>, sep: char)
    requires |parts| >= 1
    requires forall k :: 0 <= k < |parts| ==> sep !in parts[k]
    ensures Split(Join(parts, sep), sep) == parts
  {
    if |parts| > 1 {
      var s := Join(parts, sep);
      JoinHead(parts, sep);
      IndexOfFirst(s, parts[0], sep);
      SplitJoin(parts[1..], sep);
      assert Split(s, sep) == [parts[0]] + parts[1..];
    } else {
      assert Join(parts, sep) == parts[0];
    }
  }

  /** A join of several parts starts with the first part and the separator,
      and continues with the join of the rest. */
  lemma JoinHead(parts: seq<string>, sep: char)
    requires |parts| > 1
    ensures var s := Join(parts, sep);
      && |parts[0]| < |s| && s[..|parts[0]|] == parts[0] && s[|parts[0]|] == sep
      && s[|parts[0]| + 1..] == Join(parts[1..], sep)
  {
    var s := Join(parts, sep);
    assert s == parts[0] + ([sep] + Join(parts[1..], sep));
  }

  lemma IndexOfFirst(s: string, prefix: string, c: char)
    requires |prefix| < |s| && s[..|prefix|] == prefix && c !in prefix && s[|prefix|] == c
    ensures c in s && IndexOf(s, c) == |prefix|
  {
    assert s[|prefix|] == c;
    var i := IndexOf(s, c);
    assert forall j :: 0 <= j < |prefix| ==> s[j] == prefix[j];
    assert i <= |prefix| ==> i == |prefix|;
    assert i >= |prefix| ==> s[..i + 1][|prefix|] == c;
  }

  /** [int(x) for x in s.split(",")]: None when any piece is not an integer. */
  function ParseIntList(s: string): (r: Option<seq<int>>)
    ensures r.Some? ==> |r.value| == |Split(s, ',')|
  {
    ParseAll(Split(s, ','))
  }

  function ParseAll(parts: seq<string>): (r: Option<seq<int>>)
    ensures r.Some? <==> forall k :: 0 <= k < |parts| ==> ParseInt(parts[k]).Some?
    ensures r.Some? ==> |r.value| == |parts|
    ensures r.Some? ==> (forall k :: 0 <= k < |parts| ==> Some(r.value[k]) == ParseInt(parts[k]))
  {
    if parts == [] then Some([])
    else match (ParseInt(parts[0]), ParseAll(parts[1..]))
      case (Some(x), Some(xs)) => Some([x] + xs)
      case _ => None
  }

  /** The decimal renderings of a list of integers. */
  function IntStrings(xs: seq<int>): (parts: seq<string>)
    ensures |parts| == |xs|
    ensures forall k :: 0 <= k < |xs| ==> parts[k] == IntToString(xs[k])
  {
    if xs == [] then [] else [IntToString(xs[0])] + IntStrings(xs[1..])
  }

  /** ",".join(str(x) for x in xs) parses back to xs. */
  lemma ParseIntListRoundTrip(xs: seq<int>)
    requires |xs| >= 1
    ensures ParseIntList(Join(IntStrings(xs), ',')) == Some(xs)
  {
    var parts := IntStrings(xs);
    forall k | 0 <= k < |parts| ensures ',' !in parts[k] && ParseInt(parts[k]) == Some(xs[k]) {
      ParseIntRoundTrip(xs[k]);
      NoCommaInInt(xs[k]);
    }
    SplitJoin(parts, ',');
    ParseAllOf(parts, xs);
  }

  lemma ParseAllOf(parts: seq<string>, xs: seq<int>)
    requires |parts| == |xs|
    requires forall k :: 0 <= k < |parts| ==> ParseInt(parts[k]) == Some(xs[k])
    ensures ParseAll(parts) == Some(xs)
  {
    var r := ParseAll(parts);
    assert r.Some?;
    forall k | 0 <= k < |xs| ensures r.value[k] == xs[k] {
      assert Some(r.value[k]) == ParseInt(parts[k]);
    }
    assert r.value == xs;
  }

  lemma NoCommaInInt(i: int)
    ensures ',' !in IntToString(i)
  {
    var n: nat := if i < 0 then -i else i;
    var d := Digits(n, 10);
    assert forall k :: 0 <= k < |d| ==> IsDecimalDigit(d[k]);
    assert IntToString(i) == if i < 0 then "-" + d else d;
  }
}
