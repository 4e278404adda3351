/** The grammar of JSON texts (RFC 8259), with white space, and what a text means. */
module JsonSyntax {
  import opened Json
  import opened JsonGrammar

  /** White space of section 2 of the RFC. */
  predicate BlankChar(c: char) { c == ' ' || c == '\t' || c == '\n' || c == '\r' }

  predicate Blank(s: string) { forall k :: 0 <= k < |s| ==> BlankChar(s[k]) }

  // ----- strings (section 7)

  /** One character of a string as it is written: as itself, as a short escape, or by four hexadecimal digits. */
  datatype Letter = Itself(c: char) | Short(c: char) | Code(hex: string)

  predicate HexDigit(c: char) { '0' <= c <= '9' || 'a' <= c <= 'f' || 'A' <= c <= 'F' }

  predicate ValidLetter(l: Letter) {
    match l
    case Itself(c) => c as int >= 0x20 && c != '\"' && c != '\\'
    case Short(c) => c in "\"\\/bfnrt"
    case Code(hex) => |hex| == 4 && forall k :: 0 <= k < 4 ==> HexDigit(hex[k])
  }

  predicate ValidLetters(ls: seq<Letter>) { forall k :: 0 <= k < |ls| ==> ValidLetter(ls[k]) }

  function LetterText(l: Letter): string {
    match l
    case Itself(c) => [c]
    case Short(c) => ['\\', c]
    case Code(hex) => "\\u" + hex
  }

  function LettersText(ls: seq<Letter>): string {
    if ls == [] then "" else LetterText(ls[0]) + LettersText(ls[1..])
  }

  /** What a short escape stands for. */
  function Escaped(c: char): char {
    if c == 'b' then 8 as char else if c == 'f' then 12 as char else if c == 'n' then 10 as char
    else if c == 'r' then 13 as char else if c == 't' then 9 as char else c
  }

  function HexNumber(c: char): (n: nat)
    requires HexDigit(c)
    ensures n < 16
  {
    if c <= '9' then c as int - '0' as int
    else if c <= 'F' then c as int - 'A' as int + 10
    else c as int - 'a' as int + 10
  }

  /** The code unit of four digits. */
  function UnitOf(l: Letter): (n: nat)
    requires ValidLetter(l) && l.Code?
    ensures n < 0x10000
  {
    0x1000 * HexNumber(l.hex[0]) + 0x100 * HexNumber(l.hex[1]) + 0x10 * HexNumber(l.hex[2]) + HexNumber(l.hex[3])
  }

  /** A high and a low surrogate next to each other. */
  predicate Surrogates(n: int, m: int) { 0xD800 <= n <= 0xDBFF && 0xDC00 <= m <= 0xDFFF }

  /** What a string means, in UTF-8: two escaped surrogates make one character. */
  function Meaning(ls: seq<Letter>): string
    requires ValidLetters(ls)
  {
    if ls == [] then ""
    else match ls[0]
      case Itself(c) => [c] + Meaning(ls[1..])
      case Short(c) => [Escaped(c)] + Meaning(ls[1..])
      case Code(_) =>
        var n := UnitOf(ls[0]);
        if |ls| >= 2 && ls[1].Code? && Surrogates(n, UnitOf(ls[1])) then
          Utf8(0x10000 + 0x400 * (n - 0xD800) + (UnitOf(ls[1]) - 0xDC00)) + Meaning(ls[2..])
        else Utf8(n) + Meaning(ls[1..])
  }

  // ----- numbers (section 6)

  datatype Number = Number(minus: bool, whole: string, fraction: string, exponent: string)

  predicate AllDigits(s: string) { s != "" && forall k :: 0 <= k < |s| ==> '0' <= s[k] <= '9' }

  predicate ValidWhole(s: string) { AllDigits(s) && (s[0] == '0' ==> |s| == 1) }

  predicate ValidFraction(s: string) { s == "" || (s[0] == '.' && AllDigits(s[1..])) }

  predicate ValidExponent(s: string) {
    s == "" ||
    ((s[0] == 'e' || s[0] == 'E')
     && (AllDigits(s[1..]) || (|s| >= 2 && (s[1] == '+' || s[1] == '-') && AllDigits(s[2..]))))
  }

  predicate ValidNumber(n: Number) { ValidWhole(n.whole) && ValidFraction(n.fraction) && ValidExponent(n.exponent) }

  function NumberText(n: Number): string { (if n.minus then "-" else "") + n.whole + n.fraction + n.exponent }

  /** A text that does not go on with the number. */
  predicate NumberEnds(n: Number, rest: string) {
    rest == "" ||
    (&& !('0' <= rest[0] <= '9')
     && (n.exponent == "" ==> rest[0] != 'e' && rest[0] != 'E' && (n.fraction == "" ==> rest[0] != '.')))
  }

  function DecimalOf(s: string): int {
    if s == "" then 0 else 10 * DecimalOf(s[..|s| - 1]) + (s[|s| - 1] as int - '0' as int)
  }

  /** A short integer is an int, any other number a double. */
  function NumberValue(n: Number, strtod: Strtod): Json
    requires ValidNumber(n)
  {
    if n.fraction == "" && n.exponent == "" && |NumberText(n)| <= 9
    then Int(if n.minus then -DecimalOf(n.whole) else DecimalOf(n.whole))
    else Double(strtod(NumberText(n)))
  }

  // ----- values (sections 2 to 5)

  datatype Doc = NullDoc | TrueDoc | FalseDoc | NumberDoc(n: Number) | StringDoc(letters: seq<Letter>)
    | ArrayDoc(items: seq<Item>, blank: string) | ObjectDoc(members: seq<Member>, blank: string)

  /** A value with the white space around it. */
  datatype Item = Item(before: string, doc: Doc, after: string)

  datatype Member = Member(before: string, key: seq<Letter>, colon: string, item: Item)

  predicate ValidDoc(d: Doc) {
    match d
    case NullDoc | TrueDoc | FalseDoc => true
    case NumberDoc(n) => ValidNumber(n)
    case StringDoc(letters) => ValidLetters(letters)
    case ArrayDoc(items, blank) => Blank(blank) && ValidItems(items)
    case ObjectDoc(members, blank) => Blank(blank) && ValidMembers(members)
  }

  predicate ValidItem(i: Item) { Blank(i.before) && Blank(i.after) && ValidDoc(i.doc) }

  predicate ValidMember(m: Member) {
    Blank(m.before) && Blank(m.colon) && ValidLetters(m.key) && ValidItem(m.item)
  }

  predicate ValidItems(items: seq<Item>) { items == [] || (ValidItem(items[0]) && ValidItems(items[1..])) }

  predicate ValidMembers(members: seq<Member>) {
    members == [] || (ValidMember(members[0]) && ValidMembers(members[1..]))
  }

  /** The text. */
  function DocText(d: Doc): string {
    match d
    case NullDoc => "null"
    case TrueDoc => "true"
    case FalseDoc => "false"
    case NumberDoc(n) => NumberText(n)
    case StringDoc(letters) => Quoted(letters)
    case ArrayDoc(items, blank) => "[" + (if items == [] then blank else ItemsLine(items)) + "]"
    case ObjectDoc(members, blank) => "{" + (if members == [] then blank else MembersLine(members)) + "}"
  }

  function Quoted(letters: seq<Letter>): string { "\"" + LettersText(letters) + "\"" }

  function ItemLine(i: Item): string { i.before + DocText(i.doc) + i.after }

  function MemberLine(m: Member): string { m.before + Quoted(m.key) + m.colon + ":" + ItemLine(m.item) }

  function ItemsLine(items: seq<Item>): string {
    if items == [] then "" else ItemLine(items[0]) + if |items| == 1 then "" else "," + ItemsLine(items[1..])
  }

  function MembersLine(members: seq<Member>): string {
    if members == [] then ""
    else MemberLine(members[0]) + if |members| == 1 then "" else "," + MembersLine(members[1..])
  }

  /** A number must not go on behind the text of a value. */
  predicate DocEnds(d: Doc, rest: string) { d.NumberDoc? ==> NumberEnds(d.n, rest) }

  /** How deep the deepest value lies. */
  function Depth(d: Doc): nat {
    match d
    case NullDoc | TrueDoc | FalseDoc | NumberDoc(_) | StringDoc(_) => 0
    case ArrayDoc(items, _) => ItemsDepth(items)
    case ObjectDoc(members, _) => MembersDepth(members)
  }

  function Larger(a: nat, b: nat): nat { if a >= b then a else b }

  function ItemsDepth(items: seq<Item>): nat {
    if items == [] then 0 else Larger(1 + Depth(items[0].doc), ItemsDepth(items[1..]))
  }

  function MembersDepth(members: seq<Member>): nat {
    if members == [] then 0 else Larger(1 + Depth(members[0].item.doc), MembersDepth(members[1..]))
  }

  /** The value. */
  function DocValue(d: Doc, strtod: Strtod): Json
    requires ValidDoc(d)
  {
    match d
    case NullDoc => Null
    case TrueDoc => Bool(true)
    case FalseDoc => Bool(false)
    case NumberDoc(n) => NumberValue(n, strtod)
    case StringDoc(letters) => Str(Meaning(letters))
    case ArrayDoc(items, _) => Arr(ItemsValue(items, strtod))
    case ObjectDoc(members, _) => Obj(MembersValue([], members, strtod))
  }

  function ItemsValue(items: seq<Item>, strtod: Strtod): seq<Json>
    requires ValidItems(items)
  {
    if items == [] then []
    else
      assert ValidItem(items[0]);
      [DocValue(items[0].doc, strtod)] + ItemsValue(items[1..], strtod)
  }

  /** The entries that members add to those before them. */
  function MembersValue(before: seq<Entry>, members: seq<Member>, strtod: Strtod): seq<Entry>
    requires ValidMembers(members)
    decreases members
  {
    if members == [] then before
    else
      assert ValidMember(members[0]) && ValidItem(members[0].item);
      var m := members[0];
      MembersValue(Insert(before, Meaning(m.key), DocValue(m.item.doc, strtod)), members[1..], strtod)
  }
}
