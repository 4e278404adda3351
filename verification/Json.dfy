/** JSON values, their text (the dump functions of json11.cpp) and what its parser accepts. A char stands for one
    byte. */
module Json {
  datatype Entry = Entry(key: string, value: Json)

  datatype Json = Null | Bool(b: bool) | Int(n: int) | Double(r: real) | Str(s: string)
    | Arr(items: seq<Json>) | Obj(members: seq<Entry>)

  // Text

  function Digit(d: int): char
    requires 0 <= d < 16
  {
    "0123456789abcdef"[d]
  }

  /** Decimal digits without leading zeros ("%d"). */
  function Decimal(n: nat): (t: string)
    ensures t != "" && forall k :: 0 <= k < |t| ==> '0' <= t[k] <= '9'
    ensures n > 0 ==> t[0] != '0'
    ensures n == 0 ==> t == "0"
  {
    if n < 10 then [Digit(n)] else Decimal(n / 10) + [Digit(n % 10)]
  }

  function IntText(n: int): string { if n < 0 then "-" + Decimal(-n) else Decimal(n) }

  function Hex4(n: int): string
    requires 0 <= n < 0x10000
  {
    [Digit(n / 0x1000), Digit(n / 0x100 % 16), Digit(n / 0x10 % 16), Digit(n % 16)]
  }

  /** The character at a position, or NUL behind the end. */
  function At(s: string, i: nat): char { if i < |s| then s[i] else '\0' }

  /** The three bytes of U+2028 or U+2029. */
  predicate Separator(s: string) {
    At(s, 0) as int == 0xE2 && At(s, 1) as int == 0x80 && (At(s, 2) as int == 0xA8 || At(s, 2) as int == 0xA9)
  }

  /** One character of a string, or one line separator. */
  function Piece(s: string): string
    requires s != ""
  {
    var ch := s[0];
    if ch == '\\' then "\\\\" else if ch == '\"' then "\\\"" else if ch as int == 0x08 then "\\b"
    else if ch as int == 0x0C then "\\f" else if ch == '\n' then "\\n" else if ch == '\r' then "\\r"
    else if ch == '\t' then "\\t" else if ch as int <= 0x1F then "\\u" + Hex4(ch as int)
    else if Separator(s) then (if s[2] as int == 0xA8 then "\\u2028" else "\\u2029")
    else [ch]
  }

  function PieceLength(s: string): nat
    requires s != ""
  {
    if Separator(s) then 3 else 1
  }

  function Escape(s: string): string {
    if s == "" then "" else Piece(s) + Escape(s[PieceLength(s)..])
  }

  function StringText(s: string): string { "\"" + Escape(s) + "\"" }

  function Text(v: Json): string {
    match v
    case Null => "null"
    case Bool(b) => if b then "true" else "false"
    case Int(n) => IntText(n)
    case Double(r) => ""
    case Str(s) => StringText(s)
    case Arr(items) => "[" + ItemsText(items) + "]"
    case Obj(members) => "{" + MembersText(members) + "}"
  }

  function ItemsText(items: seq<Json>): string {
    if items == [] then "" else if |items| == 1 then Text(items[0]) else Text(items[0]) + ", " + ItemsText(items[1..])
  }

  function MembersText(members: seq<Entry>): string {
    if members == [] then ""
    else if |members| == 1 then MemberText(members[0])
    else MemberText(members[0]) + ", " + MembersText(members[1..])
  }

  function MemberText(m: Entry): string { StringText(m.key) + ": " + Text(m.value) }
}
