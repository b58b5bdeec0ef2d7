/** The values that travel between the console and the board agents.  Both
    sides build Python dicts, lists, strings, integers, booleans and None,
    send them as JSON text, and read them back with json.loads.  The text
    itself is not modelled: a frame carries either one of the bare byte
    tokens of the session protocol or a decoded JSON document. */
module Json {
  import opened Text

  /** A JSON document as json.loads returns it.  Object members keep their
      document order; floating-point numbers are not modelled. */
  datatype Value =
    | Null
    | Bool(b: bool)
    | Int(i: int)
    | Str(s: string)
    | Arr(items: seq<Value>)
    | Obj(fields: seq<(string, Value)>)

  /** The part of a ZeroMQ frame the agents and the console look at: a bare
      token such as b"Ping" or b"Alive" (text that is not a JSON document),
      or the JSON encoding of a value. */
  datatype Payload = Token(text: string) | Doc(value: Value)

  /** The exception a Python call raised, with the operation that raised it. */
  datatype PyError =
    | TypeError(what: string)
    | ValueError(what: string)
    | AttributeError(what: string)
    | IndexError(what: string)
    | KeyError(what: string)

  /** What a Python call did: returned a value or raised. */
  datatype Outcome<T> = Ok(value: T) | Raised(error: PyError)

  /** receive_json: json.loads of the frame, None when it is not JSON.  A
      document that is JSON null also yields None, so the two cannot be told
      apart by the caller. */
  function ReceiveJson(p: Payload): (v: Value)
    ensures p.Token? ==> v == Null
    ensures p.Doc? && p.value != Null ==> v == p.value
  {
    if p.Doc? then p.value else Null
  }

  /** The value a key was last bound to in an object's members (json.loads
      keeps the last duplicate), Null when the key is absent (dict.get
      returns None). */
  function Lookup(fields: seq<(string, Value)>, key: string): (v: Value)
    ensures v != Null ==> exists k :: 0 <= k < |fields| && fields[k] == (key, v)
    ensures (forall k :: 0 <= k < |fields| ==> fields[k].0 != key) ==> v == Null
  {
    if fields == [] then Null
    else if fields[|fields| - 1].0 == key then fields[|fields| - 1].1
    else Lookup(fields[..|fields| - 1], key)
  }

  /** The last binding of a key wins. */
  lemma LookupLast(fields: seq<(string, Value)>, key: string, v: Value)
    ensures Lookup(fields + [(key, v)], key) == v
  {
  }

  /** Appending a binding for another key leaves a lookup unchanged. */
  lemma LookupOther(fields: seq<(string, Value)>, key: string, other: string, v: Value)
    requires other != key
    ensures Lookup(fields + [(other, v)], key) == Lookup(fields, key)
  {
    assert (fields + [(other, v)])[..|fields|] == fields;
  }

  /** The binding at position k is the one found when no later member
      has its key. */
  lemma {:induction false} LookupAt(fields: seq<(string, Value)>, k: nat)
    requires k < |fields|
    requires forall j :: k < j < |fields| ==> fields[j].0 != fields[k].0
    ensures Lookup(fields, fields[k].0) == fields[k].1
  {
    if k < |fields| - 1 {
      LookupAt(fields[..|fields| - 1], k);
    }
  }

  /** d.get(key): a lookup on a dict, an AttributeError on anything else. */
  function Get(d: Value, key: string): (r: Outcome<Value>)
    ensures r.Ok? <==> d.Obj?
    ensures d.Obj? ==> r.value == Lookup(d.fields, key)
  {
    if d.Obj? then Ok(Lookup(d.fields, key)) else Raised(AttributeError("get"))
  }

  /** The value of d.get(key), Null when d is not a dict.  Used only where d
      is already known to be a dict. */
  function Field(d: Value, key: string): Value {
    if d.Obj? then Lookup(d.fields, key) else Null
  }

  /** Python truthiness: None, False, 0, "" and empty containers are false. */
  predicate Truthy(v: Value) {
    match v
    case Null => false
    case Bool(b) => b
    case Int(i) => i != 0
    case Str(s) => s != ""
    case Arr(items) => items != []
    case Obj(fields) => fields != []
  }

  /** The integer a Python int (or bool, an int subclass) stands for. */
  function AsInt(v: Value): int
    requires v.Int? || v.Bool?
  {
    if v.Int? then v.i else if v.b then 1 else 0
  }

  function JoinWith(parts: seq<string>, sep: string): (s: string)
    ensures parts == [] ==> s == []
    ensures |parts| == 1 ==> s == parts[0]
  {
    if parts == [] then []
    else if |parts| == 1 then parts[0]
    else parts[0] + sep + JoinWith(parts[1..], sep)
  }

  /** The quote Python's repr() puts around a string: a double quote when
      the text holds a single quote and no double quote, otherwise a
      single quote. */
  function QuoteOf(s: string): (q: char)
    ensures q == '"' <==> '\'' in s && '"' !in s
    ensures q == '"' || q == '\''
  {
    if '\'' in s && '"' !in s then '"' else '\''
  }

  /** A character repr() writes as \xhh: the C0 controls other than tab,
      newline and carriage return, and U+007F..U+00A0 and U+00AD. */
  predicate HexEscaped(c: char) {
    (c < ' ' && c != '\t' && c != '\n' && c != '\r')
    || (0x7f <= c as int <= 0xa0) || c as int == 0xad
  }

  /** A character repr() copies as it is, whichever quote it chose. */
  predicate Plain(c: char) {
    c != '\'' && c != '"' && c != '\\' && c != '\t' && c != '\n' && c != '\r' && !HexEscaped(c)
  }

  /** How repr() writes one character of a string quoted with q. */
  function Escape(c: char, q: char): (e: string)
    requires q == '"' || q == '\''
    ensures Plain(c) ==> e == [c]
    ensures !Plain(c) && c != '\'' && c != '"' ==> |e| >= 2 && e[0] == '\\'
    ensures c == q ==> e == ['\\', q]
  {
    if c == q || c == '\\' then ['\\', c]
    else if c == '\t' then "\\t"
    else if c == '\n' then "\\n"
    else if c == '\r' then "\\r"
    else if HexEscaped(c) then "\\x" + Hex(c as int, 2)
    else [c]
  }

  function Escaped(s: string, q: char): string
    requires q == '"' || q == '\''
  {
    if s == [] then [] else Escape(s[0], q) + Escaped(s[1..], q)
  }

  /** Python repr() of a string. */
  function StrRepr(s: string): (r: string)
    ensures |r| >= 2 && r[0] == QuoteOf(s) && r[|r| - 1] == QuoteOf(s)
  {
    [QuoteOf(s)] + Escaped(s, QuoteOf(s)) + [QuoteOf(s)]
  }

  /** Text of plain characters is copied unchanged. */
  lemma {:induction false} EscapedPlain(s: string, q: char)
    requires q == '"' || q == '\''
    requires forall i :: 0 <= i < |s| ==> Plain(s[i])
    ensures Escaped(s, q) == s
  {
    if s != [] {
      EscapedPlain(s[1..], q);
    }
  }

  /** Plain text is wrapped in single quotes; plain text around single
      quotes, with no double quote, is wrapped in double quotes and its
      single quotes are left as they are. */
  lemma {:induction false} StrReprQuotes(s: string)
    ensures (forall i :: 0 <= i < |s| ==> Plain(s[i])) ==> StrRepr(s) == "'" + s + "'"
    ensures (forall i :: 0 <= i < |s| ==> Plain(s[i]) || s[i] == '\'') && '\'' in s ==>
      StrRepr(s) == "\"" + s + "\""
  {
    if forall i :: 0 <= i < |s| ==> Plain(s[i]) {
      assert '\'' !in s;
      EscapedPlain(s, '\'');
    }
    if (forall i :: 0 <= i < |s| ==> Plain(s[i]) || s[i] == '\'') && '\'' in s {
      assert '"' !in s;
      EscapedApostrophes(s);
    }
  }

  /** Under double quotes a single quote is copied unchanged. */
  lemma {:induction false} EscapedApostrophes(s: string)
    requires forall i :: 0 <= i < |s| ==> Plain(s[i]) || s[i] == '\''
    ensures Escaped(s, '"') == s
  {
    if s != [] {
      EscapedApostrophes(s[1..]);
    }
  }

  /** Python repr() of a value. */
  function Repr(v: Value): string
    decreases v, 1
  {
    match v
    case Str(s) => StrRepr(s)
    case _ => PyStr(v)
  }

  /** Python str() of a value: what an f-string substitutes for it. */
  function PyStr(v: Value): (s: string)
    ensures v.Arr? ==> |s| >= 2 && s[0] == '[' && s[|s| - 1] == ']'
    ensures v.Obj? ==> |s| >= 2 && s[0] == '{' && s[|s| - 1] == '}'
    decreases v, 0
  {
    match v
    case Null => "None"
    case Bool(b) => if b then "True" else "False"
    case Int(i) => IntToString(i)
    case Str(s) => s
    case Arr(items) =>
      "[" + JoinWith(seq(|items|, k requires 0 <= k < |items| => Repr(items[k])), ", ") + "]"
    case Obj(fields) =>
      "{" + JoinWith(seq(|fields|, k requires 0 <= k < |fields| =>
        StrRepr(fields[k].0) + ": " + Repr(fields[k].1)), ", ") + "}"
  }

  /** The values Python counts as false are exactly None, False, 0, the
      empty string and the empty list and dict. */
  lemma Falsy(v: Value)
    ensures !Truthy(v) <==> v in {Null, Bool(false), Int(0), Str(""), Arr([]), Obj([])}
  {
  }

  /** str() of a string is the string itself, and of an int its decimal
      rendering, which reads back with int(). */
  lemma PyStrScalars(s: string, i: int)
    ensures PyStr(Str(s)) == s
    ensures ParseInt(PyStr(Int(i))) == Some(i)
  {
    ParseIntRoundTrip(i);
  }

  /** The string it's is shown between double quotes, unchanged. */
  lemma ApostropheRepr()
    ensures StrRepr("it's") == "\"it's\""
  {
    var s := "it's";
    assert Plain(s[0]) && Plain(s[1]) && s[2] == '\'' && Plain(s[3]);
    StrReprQuotes(s);
  }

  /** A list holding the string it's prints as ["it's"]. */
  lemma ListWithApostrophe()
    ensures PyStr(Arr([Str("it's")])) == "[\"it's\"]"
  {
    ApostropheRepr();
    var items := [Str("it's")];
    var parts := seq(|items|, k requires 0 <= k < |items| => Repr(items[k]));
    assert parts == ["\"it's\""];
  }

  /** The JSON rendering of a list of integers. */
  function IntArray(xs: seq<int>): (v: Value)
    ensures v.Arr? && |v.items| == |xs|
    ensures forall k :: 0 <= k < |xs| ==> v.items[k] == Int(xs[k])
  {
    Arr(seq(|xs|, k requires 0 <= k < |xs| => Int(xs[k])))
  }

  /** v[k] for a non-negative integer k: an element of a list, a
      one-character string of a string, a KeyError on a dict (whose keys
      are strings), a TypeError on anything that cannot be subscripted. */
  function Subscript(v: Value, k: nat): (r: Outcome<Value>)
    ensures v.Arr? && k < |v.items| <==> r.Ok? && !v.Str?
    ensures v.Arr? && k < |v.items| ==> r.value == v.items[k]
    ensures v.Str? && k < |v.s| ==> r == Ok(Str([v.s[k]]))
    ensures v.Null? || v.Bool? || v.Int? ==> r.Raised? && r.error.TypeError?
  {
    match v
    case Arr(items) => if k < |items| then Ok(items[k]) else Raised(IndexError("list index"))
    case Str(s) => if k < |s| then Ok(Str([s[k]])) else Raised(IndexError("string index"))
    case Obj(_) => Raised(KeyError(IntToString(k)))
    case _ => Raised(TypeError("not subscriptable"))
  }
}
