/** Compact printing as `serde_json` prints, and parsing as `serde_json::from_str` parses. */
module JsonText {
  import opened Wrappers
  import opened Json
  import opened Text

  // ---------- printing ----------

  function HexChar(d: nat): char
    requires d < 16
  {
    if d < 10 then DigitChar(d) else ('a' as int + d - 10) as char
  }

  /** Escapes of section 7 of RFC 8259, in the short form where there is one. */
  function Escape(c: char): (s: string)
    ensures s != ""
  {
    if c == '"' then "\\\""
    else if c == '\\' then "\\\\"
    else if c == '\n' then "\\n"
    else if c == '\r' then "\\r"
    else if c == '\t' then "\\t"
    else if c == '\U{8}' then "\\b"
    else if c == '\U{C}' then "\\f"
    else if c < ' ' then "\\u00" + [HexChar(c as int / 16), HexChar(c as int % 16)]
    else [c]
  }

  function EscapeAll(s: string): string {
    if s == "" then "" else Escape(s[0]) + EscapeAll(s[1..])
  }

  function Quote(s: string): string {
    "\"" + EscapeAll(s) + "\""
  }

  function IntText(n: int): string {
    if n < 0 then "-" + Digits(-n) else Digits(n)
  }

  /** `serde_json::to_string`: no white space, fields in the order given. */
  function Compact(v: Value): string {
    match v
    case Null => "null"
    case Bool(b) => if b then "true" else "false"
    case Num(n) => IntText(n)
    case Str(s) => Quote(s)
    case Arr(items) => "[" + ItemsText(items) + "]"
    case Obj(fields) => "{" + FieldsText(fields) + "}"
  }

  function ItemsText(items: seq<Value>): string {
    if items == [] then ""
    else if |items| == 1 then Compact(items[0])
    else Compact(items[0]) + "," + ItemsText(items[1..])
  }

  function FieldText(f: Field): string {
    Quote(f.key) + ":" + Compact(f.value)
  }

  function FieldsText(fs: seq<Field>): string {
    if fs == [] then ""
    else if |fs| == 1 then FieldText(fs[0])
    else FieldText(fs[0]) + "," + FieldsText(fs[1..])
  }

  // ---------- parsing ----------

  predicate IsWs(c: char) {
    c == ' ' || c == '\n' || c == '\t' || c == '\r'
  }

  function SkipWs(s: string): (r: string)
    ensures |r| <= |s| && (r == "" || !IsWs(r[0]))
  {
    if s == "" || !IsWs(s[0]) then s else SkipWs(s[1..])
  }

  function HexValue(c: char): (r: Option<nat>)
    ensures r.Some? ==> r.value < 16
  {
    if IsDigit(c) then Some(DigitValue(c))
    else if 'a' <= c <= 'f' then Some(c as int - 'a' as int + 10)
    else if 'A' <= c <= 'F' then Some(c as int - 'A' as int + 10)
    else None
  }

  function ParseHex4(s: string): (r: Option<nat>)
    ensures r.Some? ==> |s| >= 4 && r.value < 0x10000
  {
    if |s| < 4 then None else
    var a :- HexValue(s[0]);
    var b :- HexValue(s[1]);
    var c :- HexValue(s[2]);
    var d :- HexValue(s[3]);
    Some(a * 0x1000 + b * 0x100 + c * 0x10 + d)
  }

  /** After `\u`: one code unit, or a surrogate pair. */
  function ParseUnicode(s: string): (r: Option<(char, string)>)
    ensures r.Some? ==> |r.value.1| < |s|
  {
    var n :- ParseHex4(s);
    if n < 0xD800 || 0xE000 <= n then Some((n as char, s[4..]))
    else if 0xDC00 <= n || |s| < 6 || s[4] != '\\' || s[5] != 'u' then None
    else
      var m :- ParseHex4(s[6..]);
      if m < 0xDC00 || 0xE000 <= m then None
      else Some(((0x10000 + (n - 0xD800) * 0x400 + (m - 0xDC00)) as char, s[10..]))
  }

  /** After a backslash. */
  function ParseEscape(s: string): (r: Option<(char, string)>)
    ensures r.Some? ==> |r.value.1| < |s|
  {
    if s == "" then None
    else if s[0] == '"' || s[0] == '\\' || s[0] == '/' then Some((s[0], s[1..]))
    else if s[0] == 'b' then Some(('\U{8}', s[1..]))
    else if s[0] == 'f' then Some(('\U{C}', s[1..]))
    else if s[0] == 'n' then Some(('\n', s[1..]))
    else if s[0] == 'r' then Some(('\r', s[1..]))
    else if s[0] == 't' then Some(('\t', s[1..]))
    else if s[0] == 'u' then ParseUnicode(s[1..])
    else None
  }

  /** After an opening quote: the text, and what follows the closing quote. */
  function ParseStr(s: string): (r: Option<(string, string)>)
    ensures r.Some? ==> |r.value.1| < |s|
    decreases |s|
  {
    if s == "" then None
    else if s[0] == '"' then Some(("", s[1..]))
    else if s[0] == '\\' then
      var (c, rest) :- ParseEscape(s[1..]);
      var (t, end) :- ParseStr(rest);
      Some(([c] + t, end))
    else if s[0] < ' ' then None
    else
      var (t, end) :- ParseStr(s[1..]);
      Some(([s[0]] + t, end))
  }

  function ParseNat(s: string): (r: Option<(nat, string)>)
    ensures r.Some? ==> |r.value.1| < |s|
  {
    if s == "" || !IsDigit(s[0]) then None
    else if s[0] == '0' then (if |s| > 1 && IsDigit(s[1]) then None else Some((0, s[1..])))
    else Some(ReadDigits(s[1..], DigitValue(s[0])))
  }

  predicate ExtendsNumber(c: char) {
    IsDigit(c) || c == '.' || c == 'e' || c == 'E'
  }

  /** Integers in the 64-bit ranges; everything else `serde_json` reads as a float, which is outside
      the model. */
  function ParseNumber(s: string): (r: Option<(Value, string)>)
    requires s != ""
    ensures r.Some? ==> |r.value.1| < |s| && Normal(r.value.0)
  {
    var negative := s[0] == '-';
    var (n, rest) :- ParseNat(if negative then s[1..] else s);
    if rest != "" && ExtendsNumber(rest[0]) then None
    else if negative then (if n == 0 || n > -MIN_I64 then None else Some((Num(0 - (n as int)), rest)))
    else if n > MAX_U64 then None
    else Some((Num(n), rest))
  }

  /** `depth` is the parser's remaining recursion depth: a container needs more than 1. */
  function ParseValue(text: string, depth: nat): (r: Option<(Value, string)>)
    ensures r.Some? ==> |r.value.1| < |text|
    decreases |text|, 0
  {
    var s := SkipWs(text);
    if s == "" then None
    else if s[0] == '"' then
      var (t, rest) :- ParseStr(s[1..]);
      Some((Str(t), rest))
    else if s[0] == '-' || IsDigit(s[0]) then ParseNumber(s)
    else if s[0] == '[' then
      if depth <= 1 then None else ParseArray(s[1..], depth - 1)
    else if s[0] == '{' then
      if depth <= 1 then None else ParseObject(s[1..], depth - 1)
    else if "null" <= s then Some((Null, s[4..]))
    else if "true" <= s then Some((Bool(true), s[4..]))
    else if "false" <= s then Some((Bool(false), s[5..]))
    else None
  }

  /** After an opening bracket. */
  function ParseArray(text: string, depth: nat): (r: Option<(Value, string)>)
    ensures r.Some? ==> |r.value.1| < |text|
    decreases |text|, 2
  {
    var inner := SkipWs(text);
    if inner != "" && inner[0] == ']' then Some((Arr([]), inner[1..])) else
    var (items, rest) :- ParseItems(inner, depth);
    Some((Arr(items), rest))
  }

  /** After an opening brace. */
  function ParseObject(text: string, depth: nat): (r: Option<(Value, string)>)
    ensures r.Some? ==> |r.value.1| < |text|
    decreases |text|, 2
  {
    var inner := SkipWs(text);
    if inner != "" && inner[0] == '}' then Some((Obj([]), inner[1..])) else
    var (fields, rest) :- ParseFields(inner, depth);
    Some((Obj(fields), rest))
  }

  /** One or more values up to the closing bracket. */
  function ParseItems(text: string, depth: nat): (r: Option<(seq<Value>, string)>)
    ensures r.Some? ==> |r.value.1| < |text|
    decreases |text|, 1
  {
    var (v, after) :- ParseValue(text, depth);
    var rest := SkipWs(after);
    if rest == "" then None
    else if rest[0] == ']' then Some(([v], rest[1..]))
    else if rest[0] == ',' then
      var (vs, end) :- ParseItems(rest[1..], depth);
      Some(([v] + vs, end))
    else None
  }

  /** One or more fields up to the closing brace, collected in a map: the last of equal keys wins. */
  function ParseFields(text: string, depth: nat): (r: Option<(seq<Field>, string)>)
    ensures r.Some? ==> |r.value.1| < |text|
    decreases |text|, 1
  {
    var s := SkipWs(text);
    if s == "" || s[0] != '"' then None else
    var (key, afterKey) :- ParseStr(s[1..]);
    var colon := SkipWs(afterKey);
    if colon == "" || colon[0] != ':' then None else
    var (v, after) :- ParseValue(colon[1..], depth);
    var rest := SkipWs(after);
    if rest == "" then None
    else if rest[0] == '}' then Some(([Field(key, v)], rest[1..]))
    else if rest[0] == ',' then
      var (fields, end) :- ParseFields(rest[1..], depth);
      Some((if HasKey(fields, key) then fields else Insert(Field(key, v), fields), end))
    else None
  }

  /** Nesting that `serde_json` refuses. */
  const RECURSION_LIMIT: nat := 128

  /** `serde_json::from_str` (and `from_slice` of the same text). */
  function FromStr(text: string): Option<Value> {
    var (v, rest) :- ParseValue(text, RECURSION_LIMIT);
    if SkipWs(rest) == "" then Some(v) else None
  }
}
