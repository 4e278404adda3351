/** What the parser of json11.cpp accepts, as functions from the rest of the text to a result and what is left. */
module JsonGrammar {
  import opened Json

  datatype Parsed<+T> = Done(value: T, rest: string) | Failed

  /** The conversion of the text of a floating-point number, which is a parameter. */
  type Strtod = string -> real

  const MAX_DEPTH := 200
  const DIGITS10 := 9

  function Head(t: string): char { At(t, 0) }

  predicate Space(c: char) { c == ' ' || c == '\r' || c == '\n' || c == '\t' }

  predicate IsDigit(c: char) { '0' <= c <= '9' }

  function Skip(t: string): (r: string)
    ensures |r| <= |t| && !Space(Head(r))
  {
    if t != "" && Space(t[0]) then Skip(t[1..]) else t
  }

  // Strings

  /** The UTF-8 form of a code point (section 3 of RFC 3629); nothing for -1. */
  function Utf8(pt: int): string
    requires pt < 0x110000
  {
    if pt < 0 then ""
    else if pt < 0x80 then [pt as char]
    else if pt < 0x800 then [(0xC0 + pt / 0x40) as char, (0x80 + pt % 0x40) as char]
    else if pt < 0x10000 then [(0xE0 + pt / 0x1000) as char, (0x80 + pt / 0x40 % 0x40) as char,
      (0x80 + pt % 0x40) as char]
    else [(0xF0 + pt / 0x40000) as char, (0x80 + pt / 0x1000 % 0x40) as char, (0x80 + pt / 0x40 % 0x40) as char,
          (0x80 + pt % 0x40) as char]
  }

  predicate IsHex(c: char) { 'a' <= c <= 'f' || 'A' <= c <= 'F' || '0' <= c <= '9' }

  function HexValue(c: char): (n: int)
    requires IsHex(c)
    ensures 0 <= n < 16
  {
    if 'a' <= c <= 'f' then c as int - 'a' as int + 10
    else if 'A' <= c <= 'F' then c as int - 'A' as int + 10
    else c as int - '0' as int
  }

  predicate FourHex(t: string) {
    |t| >= 4 && IsHex(t[0]) && IsHex(t[1]) && IsHex(t[2]) && IsHex(t[3])
  }

  function HexCode(t: string): (n: int)
    requires FourHex(t)
    ensures 0 <= n < 0x10000
  {
    0x1000 * HexValue(t[0]) + 0x100 * HexValue(t[1]) + 0x10 * HexValue(t[2]) + HexValue(t[3])
  }

  predicate Lead(pt: int) { 0xD800 <= pt <= 0xDBFF }

  predicate Trail(pt: int) { 0xDC00 <= pt <= 0xDFFF }

  function Join(lead: int, trail: int): int { (lead - 0xD800) * 0x400 + (trail - 0xDC00) + 0x10000 }

  predicate Simple(c: char) {
    c == 'b' || c == 'f' || c == 'n' || c == 'r' || c == 't' || c == '\"' || c == '\\' || c == '/'
  }

  function Unescaped(c: char): char
    requires Simple(c)
  {
    if c == 'b' then 8 as char else if c == 'f' then 12 as char else if c == 'n' then '\n'
    else if c == 'r' then '\r' else if c == 't' then '\t' else c
  }

  /** The text behind an opening quote. `out` is what was read so far, `pending` the code point of an escape that may be
      the first half of a surrogate pair, or -1. */
  function ParseString(t: string, out: string, pending: int): (r: Parsed<string>)
    requires pending < 0x10000
    ensures r.Done? ==> |r.rest| < |t|
    decreases |t|
  {
    if t == "" then Failed
    else if t[0] == '\"' then Done(out + Utf8(pending), t[1..])
    else if t[0] as int <= 0x1F then Failed
    else if t[0] != '\\' then ParseString(t[1..], out + Utf8(pending) + [t[0]], -1)
    else if |t| == 1 then Failed
    else if t[1] == 'u' then
      if !FourHex(t[2..]) then Failed
      else
        var pt := HexCode(t[2..]);
        if Lead(pending) && Trail(pt) then ParseString(t[6..], out + Utf8(Join(pending, pt)), -1)
        else ParseString(t[6..], out + Utf8(pending), pt)
    else if Simple(t[1]) then ParseString(t[2..], out + Utf8(pending) + [Unescaped(t[1])], -1)
    else Failed
  }

  // Numbers

  function DropDigits(t: string): (r: string)
    ensures |r| <= |t| && !IsDigit(Head(r)) && (IsDigit(Head(t)) ==> |r| < |t|)
  {
    if t != "" && IsDigit(t[0]) then DropDigits(t[1..]) else t
  }

  /** atoi for texts of this grammar. */
  function Atoi(t: string): int { if Head(t) == '-' then -(Value(t[1..]) as int) else Value(t) }

  function Value(t: string): nat {
    if t == "" then 0 else 10 * Value(t[..|t| - 1]) + DigitValue(t[|t| - 1])
  }

  function DigitValue(c: char): nat { if IsDigit(c) then c as int - '0' as int else 0 }

  function AfterSign(t: string): (r: string)
    ensures |r| <= |t|
  {
    if Head(t) == '-' then t[1..] else t
  }

  /** What follows the integer part. */
  function ParseInteger(t: string): (r: Parsed<()>)
    ensures r.Done? ==> |r.rest| < |t|
  {
    var u := AfterSign(t);
    if Head(u) == '0' then (if IsDigit(At(u, 1)) then Failed else Done((), u[1..]))
    else if IsDigit(Head(u)) then Done((), DropDigits(u))
    else Failed
  }

  function ParseFraction(t: string): (r: Parsed<()>)
    ensures r.Done? ==> |r.rest| <= |t|
  {
    if Head(t) != '.' then Done((), t)
    else if IsDigit(At(t, 1)) then Done((), DropDigits(t[1..]))
    else Failed
  }

  function ParseExponent(t: string): (r: Parsed<()>)
    ensures r.Done? ==> |r.rest| <= |t|
  {
    if Head(t) != 'e' && Head(t) != 'E' then Done((), t)
    else
      var u := if At(t, 1) == '+' || At(t, 1) == '-' then t[2..] else t[1..];
      if IsDigit(Head(u)) then Done((), DropDigits(u)) else Failed
  }

  function Consumed(t: string, rest: string): string
    requires |rest| <= |t|
  {
    t[..|t| - |rest|]
  }

  function ParseNumber(t: string, strtod: Strtod): (r: Parsed<Json>)
    ensures r.Done? ==> |r.rest| < |t|
  {
    match ParseInteger(t)
    case Failed => Failed
    case Done(_, u) =>
      if Head(u) != '.' && Head(u) != 'e' && Head(u) != 'E' && |t| - |u| <= DIGITS10
      then Done(Int(Atoi(Consumed(t, u))), u)
      else
        match ParseFraction(u)
        case Failed => Failed
        case Done(_, v) =>
          match ParseExponent(v)
          case Failed => Failed
          case Done(_, w) => Done(Double(strtod(Consumed(t, w))), w)
  }

  // Values

  function Expect(t: string, expected: string, v: Json): (r: Parsed<Json>)
    requires expected != ""
    ensures r.Done? ==> |r.rest| < |t|
  {
    if expected <= t then Done(v, t[|expected|..]) else Failed
  }

  /** std::string's order: by bytes, and a prefix comes first. */
  predicate Less(a: string, b: string) {
    b != "" && (a == "" || a[0] < b[0] || (a[0] == b[0] && Less(a[1..], b[1..])))
  }

  /** Assignment to the element of a std::map, whose entries are sorted by key. */
  function Insert(m: seq<Entry>, key: string, v: Json): seq<Entry> {
    if m == [] || Less(key, m[0].key) then [Entry(key, v)] + m
    else if key == m[0].key then [Entry(key, v)] + m[1..]
    else [m[0]] + Insert(m[1..], key, v)
  }

  function ParseValue(text: string, depth: nat, strtod: Strtod): (r: Parsed<Json>)
    ensures r.Done? ==> |r.rest| < |text|
    decreases |text|, 1
  {
    if depth > MAX_DEPTH then Failed else ParseToken(Skip(text), depth, strtod)
  }

  /** A value whose first character is the first of the text. */
  function ParseToken(t: string, depth: nat, strtod: Strtod): (r: Parsed<Json>)
    ensures r.Done? ==> |r.rest| < |t|
    decreases |t|, 0
  {
    if t == "" then Failed
    else if t[0] == '-' || IsDigit(t[0]) then ParseNumber(t, strtod)
    else if t[0] == 't' then Expect(t, "true", Bool(true))
    else if t[0] == 'f' then Expect(t, "false", Bool(false))
    else if t[0] == 'n' then Expect(t, "null", Null)
    else if t[0] == '\"' then
      match ParseString(t[1..], "", -1)
      case Failed => Failed
      case Done(s, rest) => Done(Str(s), rest)
    else if t[0] == '{' then
      var u := Skip(t[1..]);
      if Head(u) == '}' then Done(Obj([]), u[1..]) else ParseMembers(u, depth, [], strtod)
    else if t[0] == '[' then
      var u := Skip(t[1..]);
      if u == "" then Failed
      else if u[0] == ']' then Done(Arr([]), u[1..])
      else ParseItems(u, depth, [], strtod)
    else Failed
  }

  function ParseItems(t: string, depth: nat, items: seq<Json>, strtod: Strtod): (r: Parsed<Json>)
    ensures r.Done? ==> |r.rest| < |t|
    decreases |t|, 2
  {
    match ParseValue(t, depth + 1, strtod)
    case Failed => Failed
    case Done(v, rest) => MoreItems(rest, depth, items + [v], strtod)
  }

  /** The end of an array or a comma and more elements. */
  function MoreItems(t: string, depth: nat, items: seq<Json>, strtod: Strtod): (r: Parsed<Json>)
    ensures r.Done? ==> |r.rest| < |t|
    decreases |t|, 2
  {
    var u := Skip(t);
    if Head(u) == ']' then Done(Arr(items), u[1..])
    else if Head(u) != ',' then Failed
    else
      var w := Skip(u[1..]);
      if w == "" then Failed else ParseItems(w, depth, items, strtod)
  }

  function ParseMembers(t: string, depth: nat, members: seq<Entry>, strtod: Strtod): (r: Parsed<Json>)
    ensures r.Done? ==> |r.rest| < |t|
    decreases |t|, 2
  {
    if Head(t) != '\"' then Failed
    else
      match ParseString(t[1..], "", -1)
      case Failed => Failed
      case Done(key, rest) =>
        var u := Skip(rest);
        if Head(u) != ':' then Failed
        else
          match ParseValue(u[1..], depth + 1, strtod)
          case Failed => Failed
          case Done(v, rest') => MoreMembers(rest', depth, Insert(members, key, v), strtod)
  }

  /** The end of an object or a comma and more entries. */
  function MoreMembers(t: string, depth: nat, members: seq<Entry>, strtod: Strtod): (r: Parsed<Json>)
    ensures r.Done? ==> |r.rest| < |t|
    decreases |t|, 2
  {
    var u := Skip(t);
    if Head(u) == '}' then Done(Obj(members), u[1..])
    else if Head(u) != ',' then Failed
    else ParseMembers(Skip(u[1..]), depth, members, strtod)
  }

  /** Json::parse: one value, and nothing but white space behind it. */
  function Parse(text: string, strtod: Strtod): Parsed<Json> {
    match ParseValue(text, 0, strtod)
    case Failed => Failed
    case Done(v, rest) => if Skip(rest) == "" then Done(v, "") else Failed
  }
}
