/**
 JSON values and a reader for their texts, after RFC 8259 sections 3 to 7. The reader takes texts without insignificant
 white space, whose member names ascend, and escapes of single code units only; it is what the printer is judged by.
 */
module JsonText {
  import opened Wrappers
  import opened Text

  /** A decoded document; numbers keep their literal text, as `json.Number` does. */
  datatype Json =
    | Null
    | Bool(value: bool)
    | Number(literal: string)
    | String(text: string)
    | Array(items: seq<Json>)
    | Object(fields: map<string, Json>)

  // ------------------------------------------------------------------ numbers

  predicate IsDigit(c: char) {
    '0' <= c <= '9'
  }

  predicate IsSign(c: char) {
    c == '+' || c == '-'
  }

  predicate IsNumberChar(c: char) {
    IsDigit(c) || c == '.' || IsSign(c) || c == 'e' || c == 'E'
  }

  function DigitRun(s: string): (n: nat)
    ensures n <= |s| && forall i :: 0 <= i < n ==> IsDigit(s[i])
  {
    if s != "" && IsDigit(s[0]) then 1 + DigitRun(s[1..]) else 0
  }

  predicate IsExponent(s: string) {
    s == "" ||
    ((s[0] == 'e' || s[0] == 'E') &&
     var v := if |s| > 1 && IsSign(s[1]) then s[2..] else s[1..];
     v != "" && DigitRun(v) == |v|)
  }

  predicate IsFractionExponent(s: string) {
    if s != "" && s[0] == '.' then
      var n := DigitRun(s[1..]);
      n > 0 && IsExponent(s[n + 1..])
    else
      IsExponent(s)
  }

  /** The number grammar of section 6 of RFC 8259. */
  predicate IsNumberLiteral(s: string) {
    var u := if s != "" && s[0] == '-' then s[1..] else s;
    var n := DigitRun(u);
    n > 0 && (u[0] == '0' ==> n == 1) && IsFractionExponent(u[n..])
  }

  /** Every number in the document is a number literal, which is what a decoder delivers. */
  predicate Decoded(v: Json) {
    match v
    case Number(lit) => IsNumberLiteral(lit)
    case Array(items) => forall x :: x in items ==> Decoded(x)
    case Object(fields) => forall k :: k in fields ==> Decoded(fields[k])
    case _ => true
  }

  // ---------------------------------------------------------- reading strings

  function HexValue(c: char): (n: Option<nat>)
    ensures n.Some? ==> n.value < 16
  {
    if '0' <= c <= '9' then Some(c as int - '0' as int)
    else if 'a' <= c <= 'f' then Some(c as int - 'a' as int + 10)
    else if 'A' <= c <= 'F' then Some(c as int - 'A' as int + 10)
    else None
  }

  /** The code unit written as four hexadecimal digits. */
  function HexUnit(a: char, b: char, c: char, d: char): (n: Option<nat>)
    ensures n.Some? ==> n.value < 0x10000
  {
    var p, q, r, s := HexValue(a), HexValue(b), HexValue(c), HexValue(d);
    if p.None? || q.None? || r.None? || s.None? then None
    else Some(4096 * p.value + 256 * q.value + 16 * r.value + s.value)
  }

  /** One character of a string, escaped or not. */
  function ReadChar(s: string): (r: Option<(char, string)>)
    ensures r.Some? ==> |r.value.1| < |s|
  {
    if s == "" || s[0] == '"' || s[0] as int < 0x20 then None
    else if s[0] != '\\' then Some((s[0], s[1..]))
    else if |s| < 2 then None
    else
      match s[1]
      case '"' => Some(('"', s[2..]))
      case '\\' => Some(('\\', s[2..]))
      case '/' => Some(('/', s[2..]))
      case 'b' => Some((8 as char, s[2..]))
      case 'f' => Some((12 as char, s[2..]))
      case 'n' => Some((10 as char, s[2..]))
      case 'r' => Some((13 as char, s[2..]))
      case 't' => Some((9 as char, s[2..]))
      case 'u' =>
        if |s| < 6 then None
        else
          var n := HexUnit(s[2], s[3], s[4], s[5]);
          if n.None? || 0xD800 <= n.value < 0xE000 then None else Some((n.value as char, s[6..]))
      case _ => None
  }

  /** The characters up to the closing quotation mark. */
  function ReadChars(s: string): (r: Option<(string, string)>)
    ensures r.Some? ==> |r.value.1| < |s|
    decreases |s|
  {
    if s != "" && s[0] == '"' then Some(("", s[1..]))
    else
      match ReadChar(s)
      case None => None
      case Some(first) =>
        match ReadChars(first.1)
        case None => None
        case Some(rest) => Some(([first.0] + rest.0, rest.1))
  }

  function ReadString(s: string): (r: Option<(string, string)>)
    ensures r.Some? ==> |r.value.1| < |s|
  {
    if s != "" && s[0] == '"' then ReadChars(s[1..]) else None
  }

  // ----------------------------------------------------------- reading values

  function NumberRun(s: string): (n: nat)
    ensures n <= |s| && (n < |s| ==> !IsNumberChar(s[n])) && forall i :: 0 <= i < n ==> IsNumberChar(s[i])
  {
    if s != "" && IsNumberChar(s[0]) then 1 + NumberRun(s[1..]) else 0
  }

  function ReadNumber(s: string): (r: Option<(string, string)>)
    ensures r.Some? ==> |r.value.1| < |s|
  {
    var n := NumberRun(s);
    if IsNumberLiteral(s[..n]) then Some((s[..n], s[n..])) else None
  }

  predicate StartsWith(s: string, p: string) {
    |p| <= |s| && s[..|p|] == p
  }

  /** A value at the front of a text, and what follows it. */
  function ReadValue(s: string): (r: Option<(Json, string)>)
    ensures r.Some? ==> |r.value.1| < |s|
    decreases |s|, 0
  {
    if StartsWith(s, "null") then Some((Null, s[4..]))
    else if StartsWith(s, "true") then Some((Bool(true), s[4..]))
    else if StartsWith(s, "false") then Some((Bool(false), s[5..]))
    else if StartsWith(s, "\"") then
      var r := ReadString(s);
      if r.None? then None else Some((String(r.value.0), r.value.1))
    else if StartsWith(s, "[]") then Some((Array([]), s[2..]))
    else if StartsWith(s, "[") then
      var r := ReadItems(s[1..]);
      if r.None? then None else Some((Array(r.value.0), r.value.1))
    else if StartsWith(s, "{}") then Some((Object(map[]), s[2..]))
    else if StartsWith(s, "{") then
      var r := ReadMembers(s[1..], None);
      if r.None? then None else Some((Object(r.value.0), r.value.1))
    else
      var r := ReadNumber(s);
      if r.None? then None else Some((Number(r.value.0), r.value.1))
  }

  /** One or more values up to the closing bracket. */
  function ReadItems(s: string): (r: Option<(seq<Json>, string)>)
    ensures r.Some? ==> |r.value.1| < |s|
    decreases |s|, 1
  {
    var v := ReadValue(s);
    if v.None? then None
    else if StartsWith(v.value.1, "]") then Some(([v.value.0], v.value.1[1..]))
    else if StartsWith(v.value.1, ",") then
      var rest := ReadItems(v.value.1[1..]);
      if rest.None? then None else Some(([v.value.0] + rest.value.0, rest.value.1))
    else None
  }

  /** One or more members up to the closing brace, each name after the one before. */
  function ReadMembers(s: string, after: Option<string>): (r: Option<(map<string, Json>, string)>)
    ensures r.Some? ==> |r.value.1| < |s|
    decreases |s|, 1
  {
    var name := ReadString(s);
    if name.None? || (after.Some? && !Less(after.value, name.value.0)) || !StartsWith(name.value.1, ":") then None
    else
      var v := ReadValue(name.value.1[1..]);
      if v.None? then None
      else
        var member := map[name.value.0 := v.value.0];
        if StartsWith(v.value.1, "}") then Some((member, v.value.1[1..]))
        else if StartsWith(v.value.1, ",") then
          var rest := ReadMembers(v.value.1[1..], Some(name.value.0));
          if rest.None? then None else Some((member + rest.value.0, rest.value.1))
        else None
  }

  /** The value a whole text stands for. */
  function Read(s: string): Option<Json> {
    var r := ReadValue(s);
    if r.Some? && r.value.1 == "" then Some(r.value.0) else None
  }
}
