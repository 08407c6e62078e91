/** JSON values as Python prints them with sorted keys, compact separators and ASCII escapes. */
module Json {
  import opened Wrappers

  /** Code points of a Python string, or the UTF-16 code units that it is printed as. */
  type Text = seq<int>

  datatype Json =
    | Null
    | Bool(b: bool)
    | Number(literal: string)
    | Str(text: Text)
    | Arr(items: seq<Json>)
    | Obj(members: seq<Member>)

  /** Dictionary members keep the order in which they were inserted. */
  datatype Member = Member(key: Text, value: Json)

  predicate IsAscii(s: string) { forall c | c in s :: c < 128 as char }

  /** The code points of a literal. */
  function Ascii(s: string): (t: Text)
    ensures |t| == |s| && forall i | 0 <= i < |s| :: t[i] == s[i] as int
  {
    seq(|s|, i requires 0 <= i < |s| => s[i] as int)
  }

  /** `dict.get`. */
  function Lookup(ms: seq<Member>, key: Text): Option<Json> {
    if ms == [] then None
    else if ms[0].key == key then Some(ms[0].value)
    else Lookup(ms[1..], key)
  }

  // ----- Writing -----

  function Hex(n: int): char
    requires 0 <= n < 16
  {
    if n < 10 then '0' + n as char else 'a' + (n - 10) as char
  }

  predicate IsUnit(u: int) { 0 <= u < 0x10000 }

  /** Quote, backslash and anything outside printable ASCII is escaped. */
  function Escape(u: int): string
    requires IsUnit(u)
  {
    if u == 0x22 then "\\\""
    else if u == 0x5c then "\\\\"
    else if u == 0x0a then "\\n"
    else if u == 0x0d then "\\r"
    else if u == 0x09 then "\\t"
    else if u == 0x0c then "\\f"
    else if u == 0x08 then "\\b"
    else if 0x20 <= u <= 0x7e then [u as char]
    else ['\\', 'u', Hex(u / 4096), Hex(u / 256 % 16), Hex(u / 16 % 16), Hex(u % 16)]
  }

  predicate UnitsOnly(t: Text) { forall u | u in t :: IsUnit(u) }

  /** A text up to and including its closing quote. */
  function WriteText(t: Text): string
    requires UnitsOnly(t)
  {
    if t == [] then "\"" else Escape(t[0]) + WriteText(t[1..])
  }

  predicate WordChar(c: char) {
    'a' <= c <= 'z' || 'A' <= c <= 'Z' || '0' <= c <= '9' || c == '+' || c == '-' || c == '.'
  }

  /** A number is kept as its literal; no literal begins like null, true or false. */
  predicate IsLiteral(s: string) {
    && s != ""
    && (forall c | c in s :: WordChar(c))
    && s[0] != 'n' && s[0] != 't' && s[0] != 'f'
  }

  /** Values whose texts are code units and whose numbers are literals. */
  predicate Printable(v: Json) {
    match v
    case Null => true
    case Bool(_) => true
    case Number(s) => IsLiteral(s)
    case Str(t) => UnitsOnly(t)
    case Arr(xs) => forall x | x in xs :: Printable(x)
    case Obj(ms) => forall m | m in ms :: UnitsOnly(m.key) && Printable(m.value)
  }

  predicate PrintableItems(xs: seq<Json>) { forall x | x in xs :: Printable(x) }

  predicate PrintableMembers(ms: seq<Member>) { forall m | m in ms :: UnitsOnly(m.key) && Printable(m.value) }

  /** Members in the order given. */
  function Write(v: Json): string
    requires Printable(v)
    decreases v
  {
    match v
    case Null => "null"
    case Bool(b) => if b then "true" else "false"
    case Number(s) => s
    case Str(t) => "\"" + WriteText(t)
    case Arr(xs) => "[" + (if xs == [] then "]" else Write(xs[0]) + WriteItems(xs[1..]))
    case Obj(ms) => "{" + (if ms == [] then "}" else WriteMember(ms[0]) + WriteMembers(ms[1..]))
  }

  function WriteItems(xs: seq<Json>): string
    requires PrintableItems(xs)
    decreases xs
  {
    if xs == [] then "]" else "," + Write(xs[0]) + WriteItems(xs[1..])
  }

  function WriteMember(m: Member): string
    requires UnitsOnly(m.key) && Printable(m.value)
    decreases m
  {
    "\"" + WriteText(m.key) + ":" + Write(m.value)
  }

  function WriteMembers(ms: seq<Member>): string
    requires PrintableMembers(ms)
    decreases ms
  {
    if ms == [] then "}" else "," + WriteMember(ms[0]) + WriteMembers(ms[1..])
  }

  // ----- Reading -----

  function Digit(c: char): Option<int> {
    if '0' <= c <= '9' then Some((c - '0') as int)
    else if 'a' <= c <= 'f' then Some((c - 'a') as int + 10)
    else if 'A' <= c <= 'F' then Some((c - 'A') as int + 10)
    else None
  }

  /** One code unit of a text, escaped or not, and what follows it. */
  function ReadUnit(s: string): (r: Option<(int, string)>)
    ensures r.Some? ==> |r.value.1| < |s|
  {
    if s == "" || s[0] < ' ' || s[0] == '"' then None
    else if s[0] != '\\' then Some((s[0] as int, s[1..]))
    else if |s| < 2 then None
    else if s[1] == 'u' then
      if |s| >= 6 && Digit(s[2]).Some? && Digit(s[3]).Some? && Digit(s[4]).Some? && Digit(s[5]).Some?
      then
        var a, b, c, d := Digit(s[2]).value, Digit(s[3]).value, Digit(s[4]).value, Digit(s[5]).value;
        Some((a * 4096 + b * 256 + c * 16 + d, s[6..]))
      else None
    else
      match s[1]
      case '"' => Some((0x22, s[2..]))
      case '\\' => Some((0x5c, s[2..]))
      case '/' => Some((0x2f, s[2..]))
      case 'n' => Some((0x0a, s[2..]))
      case 'r' => Some((0x0d, s[2..]))
      case 't' => Some((0x09, s[2..]))
      case 'f' => Some((0x0c, s[2..]))
      case 'b' => Some((0x08, s[2..]))
      case _ => None
  }

  function ReadText(s: string): (r: Option<(Text, string)>)
    ensures r.Some? ==> |r.value.1| < |s|
    decreases |s|
  {
    if s != "" && s[0] == '"' then Some(([], s[1..]))
    else
      match ReadUnit(s)
      case None => None
      case Some((u, rest)) =>
        match ReadText(rest)
        case None => None
        case Some((t, end)) => Some(([u] + t, end))
  }

  /** The longest run of word characters. */
  function WordLength(s: string): (n: nat)
    ensures n <= |s|
  {
    if s != "" && WordChar(s[0]) then 1 + WordLength(s[1..]) else 0
  }

  function WordValue(s: string): Option<Json> {
    if s == "null" then Some(Null)
    else if s == "true" then Some(Bool(true))
    else if s == "false" then Some(Bool(false))
    else if IsLiteral(s) then Some(Number(s))
    else None
  }

  function Read(s: string): (r: Option<(Json, string)>)
    ensures r.Some? ==> |r.value.1| < |s|
    decreases |s|, 0
  {
    if s == "" then None
    else if s[0] == '"' then
      match ReadText(s[1..])
      case None => None
      case Some((t, rest)) => Some((Str(t), rest))
    else if s[0] == '[' then
      if |s| > 1 && s[1] == ']' then Some((Arr([]), s[2..]))
      else
        match Read(s[1..])
        case None => None
        case Some((x, rest)) =>
          match ReadItems(rest)
          case None => None
          case Some((xs, end)) => Some((Arr([x] + xs), end))
    else if s[0] == '{' then
      if |s| > 1 && s[1] == '}' then Some((Obj([]), s[2..]))
      else
        match ReadMember(s[1..])
        case None => None
        case Some((m, rest)) =>
          match ReadMembers(rest)
          case None => None
          case Some((ms, end)) => Some((Obj([m] + ms), end))
    else
      var n := WordLength(s);
      match WordValue(s[..n])
      case None => None
      case Some(v) => if n == 0 then None else Some((v, s[n..]))
  }

  function ReadItems(s: string): (r: Option<(seq<Json>, string)>)
    ensures r.Some? ==> |r.value.1| < |s|
    decreases |s|, 1
  {
    if s == "" then None
    else if s[0] == ']' then Some(([], s[1..]))
    else if s[0] != ',' then None
    else
      match Read(s[1..])
      case None => None
      case Some((x, rest)) =>
        match ReadItems(rest)
        case None => None
        case Some((xs, end)) => Some(([x] + xs, end))
  }

  function ReadMember(s: string): (r: Option<(Member, string)>)
    ensures r.Some? ==> |r.value.1| < |s|
    decreases |s|, 1
  {
    if s == "" || s[0] != '"' then None
    else
      match ReadText(s[1..])
      case None => None
      case Some((key, rest)) =>
        if rest == "" || rest[0] != ':' then None
        else
          match Read(rest[1..])
          case None => None
          case Some((v, end)) => Some((Member(key, v), end))
  }

  function ReadMembers(s: string): (r: Option<(seq<Member>, string)>)
    ensures r.Some? ==> |r.value.1| < |s|
    decreases |s|, 2
  {
    if s == "" then None
    else if s[0] == '}' then Some(([], s[1..]))
    else if s[0] != ',' then None
    else
      match ReadMember(s[1..])
      case None => None
      case Some((m, rest)) =>
        match ReadMembers(rest)
        case None => None
        case Some((ms, end)) => Some(([m] + ms, end))
  }
}
