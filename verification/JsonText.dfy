/** JSON text (RFC 8259): printing a value, and decoding the value a text starts with. Numbers are
    kept as their literals. */
module JsonText {
  import opened Wrappers

  datatype Json =
    | Null
    | Bool(b: bool)
    | Number(literal: string)
    | Text(s: string)
    | Array(items: Items)
    | Object(members: Members)

  datatype Items = NoItems | Item(value: Json, rest: Items)

  datatype Members = NoMembers | Member(key: string, value: Json, rest: Members)

  // --- characters ---------------------------------------------------------------------------

  predicate IsBlank(c: char) {
    c == ' ' || c == '\t' || c == '\n' || c == '\r'
  }

  function Skip(s: string): (r: string)
    ensures |r| <= |s|
    ensures r != "" ==> !IsBlank(r[0])
  {
    if s != "" && IsBlank(s[0]) then Skip(s[1..]) else s
  }

  predicate StartsWith(s: string, prefix: string) {
    |prefix| <= |s| && s[..|prefix|] == prefix
  }

  function HexDigit(n: int): (c: char)
    requires 0 <= n < 16
    ensures HexValue(c) == Some(n)
  {
    if n < 10 then '0' + n as char else 'a' + (n - 10) as char
  }

  function HexValue(c: char): (v: Option<int>)
    ensures v.Some? ==> 0 <= v.value < 16
  {
    if '0' <= c <= '9' then Some((c - '0') as int)
    else if 'a' <= c <= 'f' then Some(10 + (c - 'a') as int)
    else if 'A' <= c <= 'F' then Some(10 + (c - 'A') as int)
    else None
  }

  /** The code unit spelled by the four hexadecimal digits `s` starts with. */
  function Unit(s: string): (u: Option<int>)
    ensures u.Some? ==> |s| >= 4 && 0 <= u.value < 0x10000
  {
    if |s| < 4 || HexValue(s[0]).None? || HexValue(s[1]).None? || HexValue(s[2]).None? || HexValue(s[3]).None? then None
    else Some(4096 * HexValue(s[0]).value + 256 * HexValue(s[1]).value + 16 * HexValue(s[2]).value
      + HexValue(s[3]).value)
  }

  /** The character that an escape starting after its backslash stands for, and its length. A
      surrogate pair is one character; an unpaired surrogate stands for U+FFFD. */
  function Escape(s: string): (r: Option<(char, nat)>)
    ensures r.Some? ==> 1 <= r.value.1 <= |s|
  {
    if s == "" then None
    else match s[0]
      case '"' => Some(('"', 1))
      case '\\' => Some(('\\', 1))
      case '/' => Some(('/', 1))
      case 'b' => Some(('\U{08}', 1))
      case 'f' => Some(('\U{0C}', 1))
      case 'n' => Some(('\n', 1))
      case 'r' => Some(('\r', 1))
      case 't' => Some(('\t', 1))
      case 'u' =>
        var high := Unit(s[1..]);
        if high.None? then None
        else if !(0xD800 <= high.value < 0xE000) then Some((high.value as char, 5))
        else
          var low := if |s| >= 7 && s[5] == '\\' && s[6] == 'u' then Unit(s[7..]) else None;
          if high.value < 0xDC00 && low.Some? && 0xDC00 <= low.value < 0xE000
          then Some(((0x10000 + (high.value - 0xD800) * 1024 + (low.value - 0xDC00)) as char, 11))
          else Some(('\U{FFFD}', 5))
      case _ => None
  }

  // --- strings (section 7) --------------------------------------------------------------------

  function PrintChar(c: char): string {
    if c == '"' then "\\\""
    else if c == '\\' then "\\\\"
    else if c < ' ' then "\\u00" + [HexDigit(c as int / 16), HexDigit(c as int % 16)]
    else [c]
  }

  function PrintChars(s: string): string {
    if s == "" then "" else PrintChar(s[0]) + PrintChars(s[1..])
  }

  function PrintString(s: string): string {
    "\"" + PrintChars(s) + "\""
  }

  /** The characters up to the closing quote, and what follows it. */
  function DecodeChars(s: string): (r: Option<(string, string)>)
    ensures r.Some? ==> |r.value.1| < |s|
    decreases |s|
  {
    if s == "" || s[0] < ' ' then None
    else if s[0] == '"' then Some(("", s[1..]))
    else if s[0] == '\\' then
      var e := Escape(s[1..]);
      if e.None? then None else Cons(e.value.0, DecodeChars(s[1 + e.value.1..]))
    else Cons(s[0], DecodeChars(s[1..]))
  }

  function Cons(c: char, r: Option<(string, string)>): Option<(string, string)> {
    if r.None? then None else Some(([c] + r.value.0, r.value.1))
  }

  // --- numbers (section 6) ---------------------------------------------------------------------

  function Digits(s: string): (n: nat)
    ensures n <= |s|
  {
    if s != "" && '0' <= s[0] <= '9' then 1 + Digits(s[1..]) else 0
  }

  function IntLength(s: string): (n: nat)
    ensures n <= |s|
  {
    var sign := if s != "" && s[0] == '-' then 1 else 0;
    if Digits(s[sign..]) == 0 then 0
    else if s[sign] == '0' then sign + 1
    else sign + Digits(s[sign..])
  }

  function FractionLength(s: string): (n: nat)
    ensures n <= |s|
  {
    if s != "" && s[0] == '.' && Digits(s[1..]) > 0 then 1 + Digits(s[1..]) else 0
  }

  function ExponentLength(s: string): (n: nat)
    ensures n <= |s|
  {
    if s == "" || (s[0] != 'e' && s[0] != 'E') then 0
    else
      var sign := if |s| > 1 && (s[1] == '+' || s[1] == '-') then 1 else 0;
      if Digits(s[1 + sign..]) == 0 then 0 else 1 + sign + Digits(s[1 + sign..])
  }

  /** The length of the number literal that `s` starts with; 0 when there is none. */
  function NumberLength(s: string): (n: nat)
    ensures n <= |s|
  {
    var i := IntLength(s);
    if i == 0 then 0
    else
      var f := FractionLength(s[i..]);
      i + f + ExponentLength(s[i + f..])
  }

  // --- values -------------------------------------------------------------------------------------

  /** The text of a value, with a blank after every comma and colon. */
  function Print(v: Json): string {
    match v
    case Null => "null"
    case Bool(b) => if b then "true" else "false"
    case Number(literal) => literal
    case Text(s) => PrintString(s)
    case Array(items) => if items.NoItems? then "[]" else "[" + PrintItems(items)
    case Object(members) => if members.NoMembers? then "{}" else "{" + PrintMembers(members)
  }

  /** The items and the closing bracket. */
  function PrintItems(items: Items): string {
    match items
    case NoItems => "]"
    case Item(value, rest) => Print(value) + (if rest.NoItems? then "]" else ", " + PrintItems(rest))
  }

  /** The members and the closing brace. */
  function PrintMembers(members: Members): string {
    match members
    case NoMembers => "}"
    case Member(key, value, rest) =>
      PrintString(key) + (": " + (Print(value) + (if rest.NoMembers? then "}" else ", " + PrintMembers(rest))))
  }

  /** The value at the start of `s`, with no blanks before it, and what follows it. */
  function Decode(s: string): (r: Option<(Json, string)>)
    ensures r.Some? ==> |r.value.1| < |s|
    decreases |s|, 0
  {
    if s == "" then None
    else if s[0] == '"' then
      var text := DecodeChars(s[1..]);
      if text.None? then None else Some((Text(text.value.0), text.value.1))
    else if s[0] == '{' then DecodeObject(s)
    else if s[0] == '[' then DecodeArray(s)
    else DecodeWord(s)
  }

  function DecodeWord(s: string): (r: Option<(Json, string)>)
    requires s != ""
    ensures r.Some? ==> |r.value.1| < |s|
  {
    if StartsWith(s, "null") then Some((Null, s[4..]))
    else if StartsWith(s, "true") then Some((Bool(true), s[4..]))
    else if StartsWith(s, "false") then Some((Bool(false), s[5..]))
    else if NumberLength(s) > 0 then Some((Number(s[..NumberLength(s)]), s[NumberLength(s)..]))
    else if StartsWith(s, "NaN") then Some((Number("NaN"), s[3..]))
    else if StartsWith(s, "Infinity") then Some((Number("Infinity"), s[8..]))
    else if StartsWith(s, "-Infinity") then Some((Number("-Infinity"), s[9..]))
    else None
  }

  function DecodeArray(s: string): (r: Option<(Json, string)>)
    requires s != ""
    ensures r.Some? ==> |r.value.1| < |s|
    decreases |s| - 1, 2
  {
    var inside := Skip(s[1..]);
    if inside != "" && inside[0] == ']' then Some((Array(NoItems), inside[1..]))
    else
      var items := DecodeItems(inside);
      if items.None? then None else Some((Array(items.value.0), items.value.1))
  }

  function DecodeItems(s: string): (r: Option<(Items, string)>)
    ensures r.Some? ==> |r.value.1| < |s|
    decreases |s|, 1
  {
    var value := Decode(s);
    if value.None? then None
    else
      var after := Skip(value.value.1);
      if after == "" then None
      else if after[0] == ']' then Some((Item(value.value.0, NoItems), after[1..]))
      else if after[0] != ',' then None
      else
        var rest := DecodeItems(Skip(after[1..]));
        if rest.None? then None else Some((Item(value.value.0, rest.value.0), rest.value.1))
  }

  /** An object (section 4), from its opening brace. */
  function DecodeObject(s: string): (r: Option<(Json, string)>)
    requires s != ""
    ensures r.Some? ==> |r.value.1| < |s| && r.value.0.Object?
    decreases |s| - 1, 2
  {
    var inside := Skip(s[1..]);
    if inside != "" && inside[0] == '}' then Some((Object(NoMembers), inside[1..]))
    else
      var members := DecodeMembers(inside);
      if members.None? then None else Some((Object(members.value.0), members.value.1))
  }

  function DecodeMembers(s: string): (r: Option<(Members, string)>)
    ensures r.Some? ==> |r.value.1| < |s|
    decreases |s|, 1
  {
    if s == "" || s[0] != '"' || DecodeChars(s[1..]).None? then None
    else
      var (key, afterKey) := DecodeChars(s[1..]).value;
      var colon := Skip(afterKey);
      if colon == "" || colon[0] != ':' || Decode(Skip(colon[1..])).None? then None
      else
        var (value, afterValue) := Decode(Skip(colon[1..])).value;
        var after := Skip(afterValue);
        if after == "" then None
        else if after[0] == '}' then Some((Member(key, value, NoMembers), after[1..]))
        else if after[0] != ',' then None
        else
          var rest := DecodeMembers(Skip(after[1..]));
          if rest.None? then None else Some((Member(key, value, rest.value.0), rest.value.1))
  }
}
