/**
 The canonical JSON printer whose output is hashed (internal/control/canonicalization.go).
 Main results: an independent reader reads every printed text back as its document, so distinct documents never
 print alike; and printed texts hold no character that is unsafe in HTML or JavaScript.
 */
module CanonicalJson {
  import opened Wrappers
  import opened Text
  import opened Normalize
  import opened JsonText

  // ------------------------------------------------------------------ strings

  function HexDigit(n: nat): (c: char)
    requires n < 16
  {
    if n < 10 then ('0' as int + n) as char else ('a' as int + n - 10) as char
  }

  /** How the encoder writes one character inside a string, HTML-sensitive ones included. */
  function Escape(c: char): (r: string)
    ensures r != "" && r[0] != '"'
    ensures r[0] == '\\' <==> |r| > 1
    ensures |r| == 1 ==> r == [c]
  {
    var n := c as int;
    if c == '"' || c == '\\' then ['\\', c]
    else if n == 8 then "\\b"
    else if n == 12 then "\\f"
    else if n == 10 then "\\n"
    else if n == 13 then "\\r"
    else if n == 9 then "\\t"
    else if n < 0x20 || c == '<' || c == '>' || c == '&' then
      ['\\', 'u', '0', '0', HexDigit(n / 16), HexDigit(n % 16)]
    else if n == 0x2028 || n == 0x2029 then
      ['\\', 'u', '2', '0', '2', HexDigit(n % 16)]
    else [c]
  }

  function Escaped(s: string): string {
    if s == "" then "" else Escape(s[0]) + Escaped(s[1..])
  }

  function Quote(s: string): string {
    "\"" + (Escaped(s) + "\"")
  }

  // ------------------------------------------------------------------ printer

  ghost function Print(v: Json): string
    decreases v
  {
    match v
    case Null => "null"
    case Bool(b) => if b then "true" else "false"
    case Number(lit) => lit
    case String(text) => Quote(text)
    case Array(items) => "[" + PrintItems(v, 0)
    case Object(fields) => "{" + PrintMembers(v, SortedElems(fields.Keys), 0)
  }

  function Sep(more: bool, rest: string): string {
    (if more then "," else "") + rest
  }

  /** The items from position `i` on, with the separators between them and the closing bracket. */
  ghost function PrintItems(v: Json, i: nat): string
    requires v.Array? && i <= |v.items|
    decreases v, |v.items| - i
  {
    if i == |v.items| then "]" else Print(v.items[i]) + Sep(i + 1 < |v.items|, PrintItems(v, i + 1))
  }

  ghost predicate KeysOf(v: Json, keys: seq<string>) {
    v.Object? && forall k :: k in keys ==> k in v.fields
  }

  /** The members named by `keys` from position `i` on, up to the closing brace. */
  ghost function PrintMembers(v: Json, keys: seq<string>, i: nat): string
    requires KeysOf(v, keys) && i <= |keys|
    decreases v, |keys| - i
  {
    if i == |keys| then "}"
    else
      var rest := Sep(i + 1 < |keys|, PrintMembers(v, keys, i + 1));
      Quote(keys[i]) + (":" + (Print(v.fields[keys[i]]) + rest))
  }

  /** The recursive printer: map keys are collected in whatever order the map yields them. */
  method CanonicalJson(v: Json) returns (out: string)
    ensures out == Print(v)
    ensures Decoded(v) ==> Read(out) == Some(v)
    decreases v, 3
  {
    if Decoded(v) { ReadPrinted(v); }
    match v {
      case Null => out := "null";
      case Bool(b) => out := if b then "true" else "false";
      case Number(lit) => out := lit;
      case String(text) => out := Quote(text);
      case Array(_) => out := CanonicalArray(v);
      case Object(_) => out := CanonicalObject(v);
    }
  }

  method CanonicalArray(v: Json) returns (out: string)
    requires v.Array?
    ensures out == Print(v)
    decreases v, 0
  {
    var n := |v.items|;
    out := "[";
    for i := 0 to n
      invariant out + Sep(0 < i < n, PrintItems(v, i)) == Print(v)
    {
      ghost var tail := Sep(i + 1 < n, PrintItems(v, i + 1));
      if i > 0 {
        Assoc(out, ",", PrintItems(v, i));
        out := out + ",";
      }
      var encoded := CanonicalJson(v.items[i]);
      Assoc(out, encoded, tail);
      out := out + encoded;
    }
    out := out + "]";
  }

  method CanonicalObject(v: Json) returns (out: string)
    requires v.Object?
    ensures out == Print(v)
    decreases v, 2
  {
    var keys := SortKeys(v.fields.Keys);
    ElemsKeys(v, keys);
    out := CanonicalMembers(v, keys);
  }

  method CanonicalMembers(v: Json, keys: seq<string>) returns (out: string)
    requires KeysOf(v, keys)
    ensures out == "{" + PrintMembers(v, keys, 0)
    decreases v, 1
  {
    hide PrintMembers;
    hide Quote;
    var n := |keys|;
    out := "{";
    MembersEnd(v, keys);
    for i := 0 to n
      invariant out + Sep(0 < i < n, PrintMembers(v, keys, i)) == "{" + PrintMembers(v, keys, 0)
    {
      if i > 0 {
        Assoc(out, ",", PrintMembers(v, keys, i));
        out := out + ",";
      }
      out := CanonicalMember(v, keys, i, out);
    }
    out := out + "}";
  }

  lemma MembersEnd(v: Json, keys: seq<string>)
    requires KeysOf(v, keys)
    ensures PrintMembers(v, keys, |keys|) == "}"
  {}

  /** One member: quoted key, colon, value. */
  method CanonicalMember(v: Json, keys: seq<string>, i: nat, b: string) returns (out: string)
    requires KeysOf(v, keys) && i < |keys|
    ensures out + Sep(i + 1 < |keys|, PrintMembers(v, keys, i + 1)) == b + PrintMembers(v, keys, i)
    decreases v, 0
  {
    ghost var tail := Sep(i + 1 < |keys|, PrintMembers(v, keys, i + 1));
    out := b + Quote(keys[i]);
    ghost var quoted := out;
    out := out + ":";
    var encoded := CanonicalJson(v.fields[keys[i]]);
    Assoc(b, Quote(keys[i]), ":" + (encoded + tail));
    Assoc(quoted, ":", encoded + tail);
    Assoc(out, encoded, tail);
    out := out + encoded;
  }

  lemma Assoc(a: string, b: string, c: string)
    ensures a + (b + c) == (a + b) + c
  {}

  lemma ElemsKeys(v: Json, keys: seq<string>)
    requires v.Object? && Elems(keys) == v.fields.Keys
    ensures KeysOf(v, keys)
  {
    assert forall k :: k in keys ==> k in Elems(keys);
  }

  // --------------------------------------------------------------- reading back

  lemma Head(a: string, x: string)
    requires a != ""
    ensures (a + x)[0] == a[0]
  {}

  /** Cutting a known front off a text. */
  lemma DropFront(a: string, x: string)
    ensures StartsWith(a + x, a) && (a + x)[|a|..] == x
  {}

  lemma HexDigitReads(n: nat)
    requires n < 16
    ensures HexValue(HexDigit(n)) == Some(n)
  {}

  lemma UnitReads(c: char)
    requires (c as int) < 0x80
    ensures HexUnit('0', '0', HexDigit(c as int / 16), HexDigit(c as int % 16)) == Some(c as int)
  {
    HexDigitReads(c as int / 16);
    HexDigitReads(c as int % 16);
  }

  /** Every character is read back from its escape. */
  lemma EscapeReads(c: char, x: string)
    ensures ReadChar(Escape(c) + x) == Some((c, x))
  {
    var n, e := c as int, Escape(c);
    var s := e + x;
    assert s[|e|..] == x;
    assert forall i :: 0 <= i < |e| ==> s[i] == e[i];
    if |e| == 6 {
      if n < 0x80 { UnitReads(c); } else { HexDigitReads(n % 16); }
    }
  }

  lemma {:induction false} EscapedReads(s: string, x: string)
    ensures ReadChars(Escaped(s) + ("\"" + x)) == Some((s, x))
  {
    hide Escape, ReadChar;
    var t := Escaped(s) + ("\"" + x);
    if s == "" {
      assert t == "\"" + x && t[1..] == x;
    } else {
      Assoc(Escape(s[0]), Escaped(s[1..]), "\"" + x);
      EscapeReads(s[0], Escaped(s[1..]) + ("\"" + x));
      Head(Escape(s[0]), Escaped(s[1..]) + ("\"" + x));
      EscapedReads(s[1..], x);
      assert s == [s[0]] + s[1..];
    }
  }

  /** A quoted string is read back, whatever follows. */
  lemma QuoteReads(s: string, x: string)
    ensures ReadString(Quote(s) + x) == Some((s, x))
  {
    Assoc("\"", Escaped(s) + "\"", x);
    Assoc(Escaped(s), "\"", x);
    DropFront("\"", Escaped(s) + ("\"" + x));
    EscapedReads(s, x);
  }

  lemma NumberLiteralChars(s: string)
    requires IsNumberLiteral(s)
    ensures s != "" && (s[0] == '-' || IsDigit(s[0]))
    ensures forall i :: 0 <= i < |s| ==> IsNumberChar(s[i])
  {
    var u := if s[0] == '-' then s[1..] else s;
    var n := DigitRun(u);
    FractionExponentChars(u[n..]);
    forall i | 0 <= i < |u| ensures IsNumberChar(u[i]) {
      if i >= n { assert u[i] == u[n..][i - n]; }
    }
  }

  lemma FractionExponentChars(s: string)
    requires IsFractionExponent(s)
    ensures forall i :: 0 <= i < |s| ==> IsNumberChar(s[i])
  {
    hide DigitRun;
    hide IsExponent;
    if s != "" && s[0] == '.' {
      var n := DigitRun(s[1..]);
      ExponentChars(s[n + 1..]);
      forall i | 0 <= i < |s| ensures IsNumberChar(s[i]) {
        if 0 < i <= n { assert s[i] == s[1..][i - 1]; }
        if i > n { assert s[i] == s[n + 1..][i - n - 1]; }
      }
    } else {
      ExponentChars(s);
    }
  }

  lemma ExponentChars(s: string)
    requires IsExponent(s)
    ensures forall i :: 0 <= i < |s| ==> IsNumberChar(s[i])
  {
    if s != "" {
      var skip := if |s| > 1 && IsSign(s[1]) then 2 else 1;
      forall i | 0 <= i < |s| ensures IsNumberChar(s[i]) {
        if i >= skip { assert s[i] == s[skip..][i - skip]; }
      }
    }
  }

  /** What may follow a value: the end of the text or a character no number contains. */
  predicate AtDelimiter(x: string) {
    x == "" || !IsNumberChar(x[0])
  }

  /** A number literal is read back when a delimiter follows. */
  lemma NumberReads(s: string, x: string)
    requires IsNumberLiteral(s) && AtDelimiter(x)
    ensures ReadNumber(s + x) == Some((s, x))
  {
    NumberLiteralChars(s);
    var t, n := s + x, NumberRun(s + x);
    assert forall i :: 0 <= i < |s| ==> t[i] == s[i];
    AppendedAt(s, x, |s|);
    AppendedAt(s, x, n);
    assert t[..|s|] == s && t[|s|..] == x;
  }

  /** The first character printed tells which kind of value was printed. */
  predicate HeadOf(v: Json, c: char) {
    match v
    case Null => c == 'n'
    case Bool(_) => c == 't' || c == 'f'
    case Number(_) => c == '-' || IsDigit(c)
    case String(_) => c == '"'
    case Array(_) => c == '['
    case Object(_) => c == '{'
  }

  lemma PrintHead(v: Json)
    requires Decoded(v)
    ensures Print(v) != "" && HeadOf(v, Print(v)[0])
  {
    match v {
      case Null =>
      case Bool(_) =>
      case Number(lit) => NumberLiteralChars(lit);
      case String(text) => Head("\"", Escaped(text) + "\"");
      case Array(_) => Head("[", PrintItems(v, 0));
      case Object(fields) => Head("{", PrintMembers(v, SortedElems(fields.Keys), 0));
    }
  }

  /** A printed value is read back from the front of any text in which a delimiter follows it. */
  lemma {:induction false} PrintReads(v: Json, x: string)
    requires Decoded(v) && AtDelimiter(x)
    ensures ReadValue(Print(v) + x) == Some((v, x))
    decreases v, 2
  {
    hide IsNumberLiteral, ReadString, ReadNumber;
    PrintHead(v);
    Head(Print(v), x);
    match v {
      case Null => DropFront("null", x);
      case Bool(b) => DropFront(if b then "true" else "false", x);
      case Number(lit) => NumberReads(lit, x);
      case String(text) => QuoteReads(text, x);
      case Array(_) => ArrayReads(v, x);
      case Object(_) => ObjectReads(v, x);
    }
  }

  lemma ItemsHead(v: Json, i: nat)
    requires v.Array? && Decoded(v) && i <= |v.items|
    ensures PrintItems(v, i) != "" && (PrintItems(v, i)[0] == ']' <==> i == |v.items|)
  {
    if i < |v.items| {
      PrintHead(v.items[i]);
      Head(Print(v.items[i]), Sep(i + 1 < |v.items|, PrintItems(v, i + 1)));
    }
  }

  lemma SepDelimits(m: bool, p: string, x: string)
    requires p != "" && (m || p[0] == ']' || p[0] == '}')
    ensures AtDelimiter(Sep(m, p) + x)
  {
    Head(Sep(m, p), x);
  }

  /** Which of the two opening forms a text has. */
  lemma Opening(open: char, close: char, p: string, x: string)
    requires p != ""
    ensures var s := [open] + (p + x);
      && s[0] == open && s[1..] == p + x && StartsWith(s, [open]) && (StartsWith(s, [open, close]) <==> p[0] == close)
  {
    var s := [open] + (p + x);
    Head(p, x);
    assert s[..1] == [open];
    assert s[..2] == [open, p[0]];
  }

  lemma Closing(more: bool, p: string, close: char, x: string)
    requires !more ==> p == [close]
    ensures more ==> Sep(more, p) + x == "," + (p + x) && (Sep(more, p) + x)[1..] == p + x
    ensures more ==> StartsWith(Sep(more, p) + x, ",") && (close != ',' ==> !StartsWith(Sep(more, p) + x, [close]))
    ensures !more ==> StartsWith(Sep(more, p) + x, [close]) && (Sep(more, p) + x)[1..] == x
  {
    var t := Sep(more, p) + x;
    if more {
      assert t == "," + (p + x);
      assert t[..1] == ",";
    } else {
      assert t == [close] + x;
      assert t[..1] == [close];
    }
  }

  lemma {:induction false} ArrayReads(v: Json, x: string)
    requires v.Array? && Decoded(v)
    ensures ReadValue(Print(v) + x) == Some((v, x))
    decreases v, 1
  {
    hide ReadItems;
    var p := PrintItems(v, 0);
    Assoc("[", p, x);
    ItemsHead(v, 0);
    Opening('[', ']', p, x);
    if v.items == [] {
      assert ("[" + (p + x))[2..] == x;
    } else {
      ItemsRead(v, 0, x);
      assert v.items[0..] == v.items;
    }
  }

  lemma {:induction false} ItemsRead(v: Json, i: nat, x: string)
    requires v.Array? && Decoded(v) && i < |v.items|
    ensures ReadItems(PrintItems(v, i) + x) == Some((v.items[i..], x))
    decreases v, 0, |v.items| - i
  {
    hide ReadValue;
    var more, p := i + 1 < |v.items|, PrintItems(v, i + 1);
    Assoc(Print(v.items[i]), Sep(more, p), x);
    ItemsHead(v, i + 1);
    SepDelimits(more, p, x);
    PrintReads(v.items[i], Sep(more, p) + x);
    assert v.items[i..] == [v.items[i]] + v.items[i + 1..];
    Closing(more, p, ']', x);
    if more { ItemsRead(v, i + 1, x); } else { assert v.items[i..] == [v.items[i]]; }
  }

  lemma {:induction false} ObjectReads(v: Json, x: string)
    requires v.Object? && Decoded(v)
    ensures ReadValue(Print(v) + x) == Some((v, x))
    decreases v, 1
  {
    hide ReadValue, ReadMembers, Ascending, PrintMembers, Print, Decoded, Elems;
    var keys := SortedElems(v.fields.Keys);
    ElemsKeys(v, keys);
    PrintObject(v);
    var p := PrintMembers(v, keys, 0);
    Assoc("{", p, x);
    MembersHead(v, keys, 0);
    Opening('{', '}', p, x);
    ObjectRead(p + x);
    AllFields(v, keys);
    if keys == [] {
      NoFields(v, x);
    } else {
      MembersRead(v, keys, 0, x);
    }
  }

  lemma ObjectRead(t: string)
    ensures var s, r := "{" + t, ReadMembers(t, None);
      ReadValue(s) ==
        if StartsWith(s, "{}") then Some((Object(map[]), s[2..]))
        else if r.None? then None else Some((Object(r.value.0), r.value.1))
  {
    hide ReadMembers;
    var s := "{" + t;
    assert s[0] == '{' && s[1..] == t && s[..1] == "{";
  }

  lemma PrintObject(v: Json)
    requires v.Object?
    ensures KeysOf(v, SortedElems(v.fields.Keys))
    ensures Print(v) == "{" + PrintMembers(v, SortedElems(v.fields.Keys), 0)
  {
    ElemsKeys(v, SortedElems(v.fields.Keys));
  }

  lemma NoFields(v: Json, x: string)
    requires v.Object? && SortedElems(v.fields.Keys) == []
    ensures v == Object(map[]) && Print(v) == "{}" && ("{}" + x)[2..] == x
  {
    assert Elems<string>([]) == {};
    assert v.fields == map[];
  }

  lemma MembersHead(v: Json, keys: seq<string>, i: nat)
    requires KeysOf(v, keys) && i <= |keys|
    ensures PrintMembers(v, keys, i) != "" && (PrintMembers(v, keys, i)[0] == '}' <==> i == |keys|)
  {}

  /** The fields under the keys from position `i` on. */
  ghost function FieldsFrom(v: Json, keys: seq<string>, i: nat): map<string, Json>
    requires KeysOf(v, keys) && i <= |keys|
  {
    map k | k in keys[i..] :: v.fields[k]
  }

  lemma AllFields(v: Json, keys: seq<string>)
    requires KeysOf(v, keys) && Elems(keys) == v.fields.Keys
    ensures FieldsFrom(v, keys, 0) == v.fields
  {
    assert keys[0..] == keys;
    forall k ensures k in keys <==> k in v.fields { assert k in Elems(keys) <==> k in keys; }
  }

  lemma FieldsStep(v: Json, keys: seq<string>, i: nat)
    requires KeysOf(v, keys) && i < |keys|
    ensures FieldsFrom(v, keys, i) == map[keys[i] := v.fields[keys[i]]] + FieldsFrom(v, keys, i + 1)
    ensures i + 1 == |keys| ==> FieldsFrom(v, keys, i) == map[keys[i] := v.fields[keys[i]]]
  {
    assert keys[i..] == [keys[i]] + keys[i + 1..];
  }

  function Before(keys: seq<string>, i: nat): Option<string>
    requires i <= |keys|
  {
    if i == 0 then None else Some(keys[i - 1])
  }

  /** One member read: its name, its value, and what comes after. */
  lemma MemberRead(s: string, after: Option<string>, name: string, t: string, v: Json, u: string)
    requires ReadString(s) == Some((name, ":" + t)) && (after.Some? ==> Less(after.value, name))
    requires ReadValue(t) == Some((v, u))
    ensures ReadMembers(s, after) ==
      if StartsWith(u, "}") then Some((map[name := v], u[1..]))
      else if StartsWith(u, ",") then
        var rest := ReadMembers(u[1..], Some(name));
        if rest.None? then None else Some((map[name := v] + rest.value.0, rest.value.1))
      else None
  {
    hide ReadString, ReadValue;
    assert (":" + t)[1..] == t && (":" + t)[..1] == ":";
  }

  lemma {:induction false} MembersRead(v: Json, keys: seq<string>, i: nat, x: string)
    requires KeysOf(v, keys) && Ascending(keys) && Decoded(v) && i < |keys|
    ensures ReadMembers(PrintMembers(v, keys, i) + x, Before(keys, i)) == Some((FieldsFrom(v, keys, i), x))
    decreases v, 0, |keys| - i
  {
    hide ReadValue, ReadString, ReadMembers, Quote, FieldsFrom;
    var more, p := i + 1 < |keys|, PrintMembers(v, keys, i + 1);
    var a := Print(v.fields[keys[i]]);
    Reassociate(Quote(keys[i]), a, Sep(more, p), x);
    QuoteReads(keys[i], ":" + (a + (Sep(more, p) + x)));
    DropFront(":", a + (Sep(more, p) + x));
    MembersHead(v, keys, i + 1);
    SepDelimits(more, p, x);
    PrintReads(v.fields[keys[i]], Sep(more, p) + x);
    MemberRead(PrintMembers(v, keys, i) + x, Before(keys, i), keys[i], a + (Sep(more, p) + x), v.fields[keys[i]], Sep(more, p) + x);
    FieldsStep(v, keys, i);
    Closing(more, p, '}', x);
    if more { MembersRead(v, keys, i + 1, x); }
  }

  lemma Reassociate(q: string, a: string, s: string, x: string)
    ensures (q + (":" + (a + s))) + x == q + (":" + (a + (s + x)))
  {}

  /** The printed text of a decoded document stands for that document. */
  lemma ReadPrinted(v: Json)
    requires Decoded(v)
    ensures Read(Print(v)) == Some(v)
  {
    hide Print, ReadValue;
    assert Print(v) + "" == Print(v);
    PrintReads(v, "");
  }

  // ------------------------------------------------------- unique readability

  /** The escapes form a prefix code. */
  lemma EscapeCancel(c: char, d: char, x: string, y: string)
    requires Escape(c) + x == Escape(d) + y
    ensures c == d && x == y
  {
    EscapeReads(c, x);
    EscapeReads(d, y);
  }

  /** Quoted strings are self-delimiting. */
  lemma QuoteCancel(s: string, t: string, x: string, y: string)
    requires Quote(s) + x == Quote(t) + y
    ensures s == t && x == y
  {
    QuoteReads(s, x);
    QuoteReads(t, y);
  }

  lemma NumberCancel(s: string, t: string, x: string, y: string)
    requires IsNumberLiteral(s) && IsNumberLiteral(t) && AtDelimiter(x) && AtDelimiter(y)
    requires s + x == t + y
    ensures s == t && x == y
  {
    NumberReads(s, x);
    NumberReads(t, y);
  }

  /** A printed value can be cut off the front of any text in one way only. */
  lemma PrintCancel(v: Json, w: Json, x: string, y: string)
    requires Decoded(v) && Decoded(w) && AtDelimiter(x) && AtDelimiter(y)
    requires Print(v) + x == Print(w) + y
    ensures v == w && x == y
  {
    PrintReads(v, x);
    PrintReads(w, y);
  }

  /** Documents that print alike are equal: the digest of the text identifies the document. */
  lemma PrintInjective(v: Json, w: Json)
    requires Decoded(v) && Decoded(w) && Print(v) == Print(w)
    ensures v == w
  {
    ReadPrinted(v);
    ReadPrinted(w);
  }

  // ------------------------------------------------------------------ safe text

  /** Neither a control character nor one that HTML or JavaScript gives a meaning. */
  predicate Safe(c: char) {
    c as int >= 0x20 && c !in {'<', '>', '&'} && c as int != 0x2028 && c as int != 0x2029
  }

  predicate AllSafe(s: string) {
    forall i :: 0 <= i < |s| ==> Safe(s[i])
  }

  /** Exactly the quotation mark, the backslash and the unsafe characters are escaped. */
  lemma EscapeIff(c: char)
    ensures Escape(c) == [c] <==> Safe(c) && c != '"' && c != '\\'
    ensures AllSafe(Escape(c))
  {}

  lemma {:induction false} EscapedSafe(s: string)
    ensures AllSafe(Escaped(s))
  {
    hide Escape;
    if s != "" {
      EscapeIff(s[0]);
      EscapedSafe(s[1..]);
    }
  }

  lemma ConcatSafe(a: string, b: string)
    requires AllSafe(a) && AllSafe(b)
    ensures AllSafe(a + b)
  {
    hide Safe;
  }

  lemma SepSafe(more: bool, rest: string)
    requires AllSafe(rest)
    ensures AllSafe(Sep(more, rest))
  {
    ConcatSafe(",", rest);
  }

  lemma MarksSafe()
    ensures AllSafe("[") && AllSafe("]") && AllSafe("{") && AllSafe("}") && AllSafe(":")
    ensures AllSafe("null") && AllSafe("true") && AllSafe("false")
  {}

  lemma NumberSafe(s: string)
    requires IsNumberLiteral(s)
    ensures AllSafe(s)
  {
    hide IsNumberLiteral;
    NumberLiteralChars(s);
  }

  lemma QuoteSafe(s: string)
    ensures AllSafe(Quote(s))
  {
    EscapedSafe(s);
    ConcatSafe(Escaped(s), "\"");
    ConcatSafe("\"", Escaped(s) + "\"");
  }

  /** The printed text of a decoded document holds safe characters only. */
  lemma {:induction false} PrintSafe(v: Json)
    requires Decoded(v)
    ensures AllSafe(Print(v))
    decreases v, 1
  {
    hide Safe, Quote, IsNumberLiteral, PrintItems, PrintMembers, AllSafe;
    MarksSafe();
    match v {
      case Null =>
      case Bool(_) =>
      case Number(lit) => NumberSafe(lit);
      case String(text) => QuoteSafe(text);
      case Array(_) =>
        ItemsSafe(v, 0);
        ConcatSafe("[", PrintItems(v, 0));
      case Object(_) =>
        var keys := SortedElems(v.fields.Keys);
        PrintObject(v);
        MembersSafe(v, keys, 0);
        ConcatSafe("{", PrintMembers(v, keys, 0));
    }
  }

  lemma {:induction false} ItemsSafe(v: Json, i: nat)
    requires v.Array? && Decoded(v) && i <= |v.items|
    ensures AllSafe(PrintItems(v, i))
    decreases v, 0, |v.items| - i
  {
    hide Print, Safe;
    MarksSafe();
    if i < |v.items| {
      PrintSafe(v.items[i]);
      ItemsSafe(v, i + 1);
      SepSafe(i + 1 < |v.items|, PrintItems(v, i + 1));
      ConcatSafe(Print(v.items[i]), Sep(i + 1 < |v.items|, PrintItems(v, i + 1)));
    }
  }

  lemma {:induction false} MembersSafe(v: Json, keys: seq<string>, i: nat)
    requires KeysOf(v, keys) && Decoded(v) && i <= |keys|
    ensures AllSafe(PrintMembers(v, keys, i))
    decreases v, 0, |keys| - i
  {
    hide Quote, Print, Safe;
    MarksSafe();
    if i < |keys| {
      QuoteSafe(keys[i]);
      PrintSafe(v.fields[keys[i]]);
      MembersSafe(v, keys, i + 1);
      var rest := Sep(i + 1 < |keys|, PrintMembers(v, keys, i + 1));
      SepSafe(i + 1 < |keys|, PrintMembers(v, keys, i + 1));
      ConcatSafe(Print(v.fields[keys[i]]), rest);
      ConcatSafe(":", Print(v.fields[keys[i]]) + rest);
      ConcatSafe(Quote(keys[i]), ":" + (Print(v.fields[keys[i]]) + rest));
    }
  }
}
