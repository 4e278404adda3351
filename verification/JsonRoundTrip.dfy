/** The text of a JSON value is one of the grammar, so that parsing it gives the value back. */
module JsonRoundTrip {
  import opened Json
  import opened JsonGrammar
  import opened JsonSyntax
  import opened JsonAccepts
  import opened JsonMap
  import opened JsonSound
  import opened Sequences

  // Strings

  lemma DigitHex(d: int)
    requires 0 <= d < 16
    ensures IsHex(Digit(d)) && HexValue(Digit(d)) == d
  {
  }

  lemma Hex4Parsed(n: int, rest: string)
    requires 0 <= n < 0x10000
    ensures FourHex(Hex4(n) + rest) && HexCode(Hex4(n) + rest) == n
  {
    HexDigits(n);
    DigitHex(n / 0x1000);
    DigitHex(n / 0x100 % 16);
    DigitHex(n / 0x10 % 16);
    DigitHex(n % 16);
    hide Digit, HexValue, IsHex;
    var t := Hex4(n) + rest;
    assert t[0] == Digit(n / 0x1000) && t[1] == Digit(n / 0x100 % 16) && t[2] == Digit(n / 0x10 % 16)
      && t[3] == Digit(n % 16);
  }

  lemma HexDigits(n: int)
    requires 0 <= n < 0x10000
    ensures 0 <= n / 0x1000 < 16
    ensures n == 0x1000 * (n / 0x1000) + 0x100 * (n / 0x100 % 16) + 0x10 * (n / 0x10 % 16) + n % 16
  {
    assert n / 0x10 / 0x10 == n / 0x100 && n / 0x100 / 0x10 == n / 0x1000;
    assert n == 0x10 * (n / 0x10) + n % 16;
    assert n / 0x10 == 0x10 * (n / 0x100) + n / 0x10 % 16;
    assert n / 0x100 == 0x10 * (n / 0x1000) + n / 0x100 % 16;
  }

  /** A \u escape at the head of a text. */
  lemma UnicodeEscape(n: int, rest: string, out: string, p: int)
    requires 0 <= n < 0x10000 && p < 0x10000
    ensures ParseString("\\u" + Hex4(n) + rest, out, p) ==
      if Lead(p) && Trail(n) then ParseString(rest, out + Utf8(Join(p, n)), -1) else ParseString(rest, out + Utf8(p), n)
  {
    var t := "\\u" + Hex4(n) + rest;
    Hex4Parsed(n, rest);
    assert t[2..] == Hex4(n) + rest && t[6..] == rest;
    hide Utf8, Hex4, HexCode, FourHex;
  }

  /** The code unit of a control character or a line separator. */
  function UnitFor(s: string): (n: int)
    requires s != ""
    ensures 0 <= n < 0x10000
  {
    if s[0] as int <= 0x1F then s[0] as int else if Separator(s) then 0x2000 + (s[2] as int - 0x80) else 0
  }

  /** The letter that a character, or a line separator, is printed as. */
  function LetterOf(s: string): Letter
    requires s != ""
  {
    var ch := s[0];
    if ch == '\\' || ch == '\"' then Short(ch)
    else if ch as int == 0x08 then Short('b')
    else if ch as int == 0x0C then Short('f')
    else if ch == '\n' then Short('n')
    else if ch == '\r' then Short('r')
    else if ch == '\t' then Short('t')
    else if ch as int <= 0x1F || Separator(s) then Code(Hex4(UnitFor(s)))
    else Itself(ch)
  }

  lemma LetterPrinted(s: string)
    requires s != ""
    ensures ValidLetter(LetterOf(s)) && LetterText(LetterOf(s)) == Piece(s)
  {
    hide Separator, Hex4, UnitFor;
    if LetterOf(s).Code? {
      HexUnit(UnitFor(s));
      hide ValidLetter;
      EscapedUnit(s);
    }
  }

  lemma EscapedUnit(s: string)
    requires s != "" && LetterOf(s).Code?
    ensures LetterOf(s) == Code(Hex4(UnitFor(s))) && Piece(s) == "\\u" + Hex4(UnitFor(s))
  {
    hide Hex4, Separator;
    if Separator(s) { SeparatorUnit(s); }
  }

  lemma SeparatorUnit(s: string)
    requires s != "" && Separator(s)
    ensures s[0] as int > 0x1F && "\\u" + Hex4(UnitFor(s)) == Piece(s)
  {
    SeparatorCodes();
    hide Hex4;
  }

  lemma SeparatorCodes()
    ensures "\\u" + Hex4(0x2028) == "\\u2028" && "\\u" + Hex4(0x2029) == "\\u2029"
  {
  }

  function LettersOf(s: string): seq<Letter> {
    if s == "" then [] else [LetterOf(s)] + LettersOf(s[PieceLength(s)..])
  }

  lemma {:induction false} LettersPrinted(s: string)
    ensures ValidLetters(LettersOf(s)) && LettersText(LettersOf(s)) == Escape(s)
  {
    if s != "" {
      EscapeStep(s);
      LetterPrinted(s);
      LettersPrinted(s[PieceLength(s)..]);
      assert LettersOf(s)[1..] == LettersOf(s[PieceLength(s)..]);
      hide LetterOf, Piece, PieceLength, LetterText, ValidLetter;
    }
  }

  lemma EscapeStep(s: string)
    requires s != ""
    ensures PieceLength(s) <= |s| && PieceLength(s) > 0 && Escape(s) == Piece(s) + Escape(s[PieceLength(s)..])
  {
    hide Piece;
  }

  /** What one letter means, unless it is the first half of a surrogate pair. */
  function Said(l: Letter): string
    requires ValidLetter(l)
  {
    match l
    case Itself(c) => [c]
    case Short(c) => [Escaped(c)]
    case Code(_) => Utf8(UnitOf(l))
  }

  lemma SaidFirst(l: Letter, ls: seq<Letter>)
    requires ValidLetter(l) && ValidLetters(ls) && (l.Code? ==> !Lead(UnitOf(l)))
    ensures ValidLetters([l] + ls) && Meaning([l] + ls) == Said(l) + Meaning(ls)
  {
    assert ([l] + ls)[1..] == ls;
    hide UnitOf, Utf8, ValidLetter;
  }

  lemma LetterMeans(s: string)
    requires s != ""
    ensures PieceLength(s) <= |s| && ValidLetter(LetterOf(s)) && Said(LetterOf(s)) == s[..PieceLength(s)]
    ensures LetterOf(s).Code? ==> !Lead(UnitOf(LetterOf(s)))
  {
    hide *;
    LetterPrinted(s);
    CodeOrNot(s);
    if LetterOf(s).Code? {
      var n := UnitFor(s);
      HexUnit(n);
      UnitMeans(n);
      CodeSaid(LetterOf(s));
    } else {
      PlainMeans(s);
    }
  }

  lemma PlainMeans(s: string)
    requires s != "" && !LetterOf(s).Code? && ValidLetter(LetterOf(s))
    ensures PieceLength(s) == 1 && Said(LetterOf(s)) == s[..1]
  {
    hide Hex4, UnitOf, Utf8;
  }

  lemma CodeSaid(l: Letter)
    requires ValidLetter(l) && l.Code?
    ensures Said(l) == Utf8(UnitOf(l))
  {
    hide Utf8, UnitOf, ValidLetter;
  }

  lemma CodeOrNot(s: string)
    requires s != ""
    ensures LetterOf(s).Code? ==> var n := UnitFor(s);
      && (0 <= n <= 0x1F || n == 0x2028 || n == 0x2029) && LetterOf(s) == Code(Hex4(n))
      && PieceLength(s) <= |s|
      && s[..PieceLength(s)] == if n <= 0x1F then [n as char] else [0xE2 as char, 0x80 as char, (n - 0x1F80) as char]
  {
  }

  lemma HexUnit(n: int)
    requires 0 <= n < 0x10000
    ensures ValidLetter(Code(Hex4(n))) && UnitOf(Code(Hex4(n))) == n
  {
    Hex4Parsed(n, "");
    hide HexCode, UnitOf;
    assert Hex4(n) + "" == Hex4(n);
    hide Hex4;
    CodeRead(Code(Hex4(n)), "");
  }

  /** The code points that are printed as escapes. */
  lemma UnitMeans(n: int)
    requires 0 <= n <= 0x1F || n == 0x2028 || n == 0x2029
    ensures !Lead(n)
    ensures Utf8(n) == if n <= 0x1F then [n as char] else [0xE2 as char, 0x80 as char, (n - 0x1F80) as char]
  {
  }

  lemma {:induction false} LettersMean(s: string)
    requires ValidLetters(LettersOf(s))
    ensures Meaning(LettersOf(s)) == s
  {
    if s != "" {
      hide *;
      var n := PieceLength(s);
      EscapeStep(s);
      LetterPrinted(s);
      LettersPrinted(s[n..]);
      LettersMean(s[n..]);
      LetterMeans(s);
      SaidFirst(LetterOf(s), LettersOf(s[n..]));
      LettersUnfold(s);
      assert s == s[..n] + s[n..];
    }
  }

  lemma LettersUnfold(s: string)
    requires s != "" && PieceLength(s) <= |s|
    ensures LettersOf(s) == [LetterOf(s)] + LettersOf(s[PieceLength(s)..])
  {
    hide LetterOf;
  }

  /** The parser undoes the escaping of a string, whatever harmless escape came before it. */
  lemma EscapeParsed(s: string, rest: string, out: string, p: int)
    requires p < 0x10000 && !Lead(p)
    ensures ParseString(Escape(s) + "\"" + rest, out, p) == Done(out + Utf8(p) + s, rest)
  {
    var ls := LettersOf(s);
    LettersPrinted(s);
    LettersMean(s);
    LettersParsed(ls, rest, out, p);
    hide LettersOf, LettersText, ParseString, Meaning, Utf8, ValidLetters;
    if p < 0 { NonePending(p); }
    assert Pend(p, ls) == Utf8(p) + s;
    Regroup(out, Utf8(p), s);
  }

  // Numbers

  function NumberFor(n: int): Number { Number(n < 0, Decimal(if n < 0 then -n else n), "", "") }

  lemma {:induction false} DecimalRead(n: nat)
    ensures AllDigits(Decimal(n)) && DecimalOf(Decimal(n)) == n
  {
    var d := n % 10;
    assert Digit(d) as int - '0' as int == d;
    if n < 10 {
      assert Decimal(n)[..0] == "";
    } else {
      DecimalRead(n / 10);
      assert Decimal(n)[..|Decimal(n)| - 1] == Decimal(n / 10);
    }
  }

  /** The parsed number: up to nine characters make an int, longer ones a double. */
  function NumberOf(n: int, strtod: Strtod): Json {
    if |IntText(n)| <= 9 then Int(n) else Double(strtod(IntText(n)))
  }

  lemma NumberPrinted(n: int, strtod: Strtod)
    ensures ValidNumber(NumberFor(n)) && NumberText(NumberFor(n)) == IntText(n)
    ensures NumberValue(NumberFor(n), strtod) == NumberOf(n, strtod)
  {
    hide *;
    NumberSpelled(n);
    ValueSpelled(n, strtod);
  }

  lemma NumberSpelled(n: int)
    ensures ValidNumber(NumberFor(n)) && NumberText(NumberFor(n)) == IntText(n)
  {
    TextSpelled(n);
    hide NumberText, IntText;
    var m: nat := if n < 0 then -n else n;
    DecimalRead(m);
    NoLeadingZero(m);
    hide Decimal, DecimalOf, AllDigits;
  }

  lemma TextSpelled(n: int)
    ensures NumberText(NumberFor(n)) == IntText(n)
  {
    hide Decimal;
    assert NumberText(NumberFor(n)) == (if n < 0 then "-" else "") + Decimal(if n < 0 then -n else n);
  }

  lemma NoLeadingZero(n: nat)
    ensures Decimal(n)[0] == '0' ==> |Decimal(n)| == 1
  {
  }

  lemma ValueSpelled(n: int, strtod: Strtod)
    requires ValidNumber(NumberFor(n)) && NumberText(NumberFor(n)) == IntText(n)
    ensures NumberValue(NumberFor(n), strtod) == NumberOf(n, strtod)
  {
    DecimalRead(if n < 0 then -n else n);
    hide Decimal, DecimalOf, ValidNumber, NumberText, IntText;
  }

  // Values

  /** Values whose numbers are ints and whose objects are maps. */
  ghost predicate Plain(v: Json) {
    match v
    case Null | Bool(_) | Str(_) => true
    case Int(n) => -0x8000_0000 <= n < 0x8000_0000
    case Double(_) => false
    case Arr(items) => forall k :: 0 <= k < |items| ==> Plain(items[k])
    case Obj(members) => Sorted(members) && forall k :: 0 <= k < |members| ==> Plain(members[k].value)
  }

  /** The depth at which the deepest value inside `v` lies. */
  function Height(v: Json): nat {
    match v
    case Null | Bool(_) | Str(_) | Int(_) | Double(_) => 0
    case Arr(items) => ItemsHeight(items)
    case Obj(members) => MembersHeight(members)
  }

  function ItemsHeight(items: seq<Json>): nat {
    if items == [] then 0 else Larger(1 + Height(items[0]), ItemsHeight(items[1..]))
  }

  function MembersHeight(members: seq<Entry>): nat {
    if members == [] then 0 else Larger(1 + Height(members[0].value), MembersHeight(members[1..]))
  }

  /** What the parser makes of a value: the same, but ints of more than nine characters come back as doubles. */
  function Reparsed(v: Json, strtod: Strtod): Json {
    match v
    case Null | Bool(_) | Str(_) | Double(_) => v
    case Int(n) => NumberOf(n, strtod)
    case Arr(items) => Arr(ItemsReparsed(items, strtod))
    case Obj(members) => Obj(MembersReparsed(members, strtod))
  }

  function ItemsReparsed(items: seq<Json>, strtod: Strtod): (r: seq<Json>)
    ensures |r| == |items|
  {
    if items == [] then [] else [Reparsed(items[0], strtod)] + ItemsReparsed(items[1..], strtod)
  }

  function MembersReparsed(members: seq<Entry>, strtod: Strtod): (r: seq<Entry>)
    ensures |r| == |members| && forall k :: 0 <= k < |r| ==> r[k].key == members[k].key
  {
    if members == [] then []
    else [Entry(members[0].key, Reparsed(members[0].value, strtod))] + MembersReparsed(members[1..], strtod)
  }

  /** Json::operator==: numbers compare by value, whether int or double. */
  predicate Equal(a: Json, b: Json) {
    match (a, b)
    case (Null, Null) => true
    case (Bool(x), Bool(y)) => x == y
    case (Int(x), Int(y)) => x == y
    case (Int(x), Double(y)) => x as real == y
    case (Double(x), Int(y)) => x == y as real
    case (Double(x), Double(y)) => x == y
    case (Str(x), Str(y)) => x == y
    case (Arr(x), Arr(y)) => |x| == |y| && forall k :: 0 <= k < |x| ==> Equal(x[k], y[k])
    case (Obj(x), Obj(y)) => |x| == |y| && forall k :: 0 <= k < |x| ==>
      x[k].key == y[k].key && Equal(x[k].value, y[k].value)
    case _ => false
  }

  /** strtod is exact on the ints, which a double can represent. */
  ghost predicate ExactOnInts(strtod: Strtod) {
    forall n: int :: -0x8000_0000 <= n < 0x8000_0000 ==> strtod(IntText(n)) == n as real
  }

  lemma {:induction false} ReparsedEqual(v: Json, strtod: Strtod)
    requires Plain(v) && ExactOnInts(strtod)
    ensures Equal(Reparsed(v, strtod), v)
  {
    match v {
      case Null | Bool(_) | Str(_) | Double(_) =>
      case Int(n) =>
      case Arr(items) =>
        forall k | 0 <= k < |items| ensures Equal(ItemsReparsed(items, strtod)[k], items[k]) {
          ReparsedEqual(items[k], strtod);
          ItemReparsed(items, strtod, k);
        }
      case Obj(members) =>
        forall k | 0 <= k < |members| ensures Equal(MembersReparsed(members, strtod)[k].value, members[k].value) {
          ReparsedEqual(members[k].value, strtod);
          MemberReparsed(members, strtod, k);
        }
    }
  }

  lemma {:induction false} ItemReparsed(items: seq<Json>, strtod: Strtod, k: nat)
    requires k < |items|
    ensures ItemsReparsed(items, strtod)[k] == Reparsed(items[k], strtod)
  {
    if k > 0 { ItemReparsed(items[1..], strtod, k - 1); }
  }

  lemma {:induction false} MemberReparsed(members: seq<Entry>, strtod: Strtod, k: nat)
    requires k < |members|
    ensures MembersReparsed(members, strtod)[k].value == Reparsed(members[k].value, strtod)
  {
    if k > 0 { MemberReparsed(members[1..], strtod, k - 1); }
  }

  /** A value as it is printed: one blank behind each comma and colon. */
  function DocOf(v: Json): Doc {
    match v
    case Null | Double(_) => NullDoc
    case Bool(b) => if b then TrueDoc else FalseDoc
    case Int(n) => NumberDoc(NumberFor(n))
    case Str(s) => StringDoc(LettersOf(s))
    case Arr(items) => ArrayDoc(ItemsOf("", items), "")
    case Obj(members) => ObjectDoc(MembersOf("", members), "")
  }

  function ItemsOf(before: string, items: seq<Json>): seq<Item>
    decreases items
  {
    if items == [] then [] else [Item(before, DocOf(items[0]), "")] + ItemsOf(" ", items[1..])
  }

  function MembersOf(before: string, members: seq<Entry>): seq<Member>
    decreases members
  {
    if members == [] then []
    else [MemberOf(before, members[0].key, DocOf(members[0].value))] + MembersOf(" ", members[1..])
  }

  function MemberOf(before: string, key: string, d: Doc): Member {
    Member(before, LettersOf(key), "", Item(" ", d, ""))
  }

  /** The text of a value is one of the grammar, as deep as the value, and means what the parser makes of it. */
  lemma {:induction false} DocPrinted(v: Json, strtod: Strtod)
    requires Plain(v)
    ensures ValidDoc(DocOf(v)) && DocText(DocOf(v)) == Text(v) && Depth(DocOf(v)) == Height(v)
    ensures DocValue(DocOf(v), strtod) == Reparsed(v, strtod)
    decreases v, 1
  {
    match v {
      case Null | Bool(_) =>
      case Int(n) => NumberPrinted(n, strtod);
      case Str(s) =>
        LettersPrinted(s);
        LettersMean(s);
      case Arr(items) =>
        ItemsPrinted("", items, strtod);
        ArrayPrinted(items, strtod);
      case Obj(members) =>
        MembersPrinted("", members, [], strtod);
        ObjectPrinted(members, strtod);
    }
  }

  lemma ArrayPrinted(items: seq<Json>, strtod: Strtod)
    requires ValidItems(ItemsOf("", items)) && ItemsDepth(ItemsOf("", items)) == ItemsHeight(items)
    requires ItemsLine(ItemsOf("", items)) == "" + ItemsText(items)
    requires ItemsValue(ItemsOf("", items), strtod) == ItemsReparsed(items, strtod)
    ensures var v := Arr(items);
      && ValidDoc(DocOf(v)) && DocText(DocOf(v)) == Text(v) && Depth(DocOf(v)) == Height(v)
      && DocValue(DocOf(v), strtod) == Reparsed(v, strtod)
  {
    hide ValidItems, ItemsDepth, ItemsHeight, ItemsValue, ItemsReparsed;
  }

  lemma ObjectPrinted(members: seq<Entry>, strtod: Strtod)
    requires ValidMembers(MembersOf("", members)) && MembersDepth(MembersOf("", members)) == MembersHeight(members)
    requires MembersLine(MembersOf("", members)) == "" + MembersText(members)
    requires MembersValue([], MembersOf("", members), strtod) == [] + MembersReparsed(members, strtod)
    ensures var v := Obj(members);
      && ValidDoc(DocOf(v)) && DocText(DocOf(v)) == Text(v) && Depth(DocOf(v)) == Height(v)
      && DocValue(DocOf(v), strtod) == Reparsed(v, strtod)
  {
    hide ValidMembers, MembersDepth, MembersHeight, MembersValue, MembersReparsed;
  }

  lemma {:induction false} ItemsPrinted(before: string, items: seq<Json>, strtod: Strtod)
    requires before == "" || before == " "
    requires forall k :: 0 <= k < |items| ==> Plain(items[k])
    ensures ValidItems(ItemsOf(before, items)) && ItemsDepth(ItemsOf(before, items)) == ItemsHeight(items)
    ensures ItemsLine(ItemsOf(before, items)) == if items == [] then "" else before + ItemsText(items)
    ensures ItemsValue(ItemsOf(before, items), strtod) == ItemsReparsed(items, strtod)
    decreases items, 0
  {
    hide *;
    if items == [] {
      NoItemsPrinted(before, strtod);
    } else {
      ItemsUnfold(before, items, strtod);
      DocPrinted(items[0], strtod);
      ItemsPrinted(" ", items[1..], strtod);
      var i, others := Item(before, DocOf(items[0]), ""), ItemsOf(" ", items[1..]);
      ItemPrinted(i);
      ItemsJoined(i, others);
      ItemsPut(i, others, strtod);
      Commas(before, Text(items[0]), ItemsText(items[1..]));
    }
  }

  lemma NoItemsPrinted(before: string, strtod: Strtod)
    ensures ItemsOf(before, []) == [] && ValidItems([]) && ItemsLine([]) == "" && ItemsDepth([]) == 0
    ensures ItemsHeight([]) == 0 && ItemsValue([], strtod) == [] && ItemsReparsed([], strtod) == []
  {
  }

  lemma ItemsUnfold(before: string, items: seq<Json>, strtod: Strtod)
    requires items != []
    ensures ItemsOf(before, items) == [Item(before, DocOf(items[0]), "")] + ItemsOf(" ", items[1..])
    ensures ItemsOf(" ", items[1..]) == [] <==> items[1..] == []
    ensures ItemsText(items) == Text(items[0]) + if items[1..] == [] then "" else ", " + ItemsText(items[1..])
    ensures ItemsHeight(items) == Larger(1 + Height(items[0]), ItemsHeight(items[1..]))
    ensures ItemsReparsed(items, strtod) == [Reparsed(items[0], strtod)] + ItemsReparsed(items[1..], strtod)
  {
    hide DocOf, Text, Height, Reparsed;
  }

  lemma ItemPrinted(i: Item)
    requires (i.before == "" || i.before == " ") && i.after == "" && ValidDoc(i.doc)
    ensures ValidItem(i) && ItemLine(i) == i.before + DocText(i.doc)
  {
    hide ValidDoc, DocText;
  }

  lemma ItemsPut(i: Item, others: seq<Item>, strtod: Strtod)
    requires ValidItem(i) && ValidItems(others) && ValidItems([i] + others)
    ensures ValidDoc(i.doc) && ItemsDepth([i] + others) == Larger(1 + Depth(i.doc), ItemsDepth(others))
    ensures ItemsValue([i] + others, strtod) == [DocValue(i.doc, strtod)] + ItemsValue(others, strtod)
  {
    assert ([i] + others)[1..] == others;
    hide Depth, DocValue, ValidDoc;
  }

  lemma Commas(before: string, x: string, y: string)
    ensures before + x + ("," + (" " + y)) == before + (x + (", " + y))
    ensures before + x + "" == before + (x + "")
  {
  }

  lemma {:induction false} MembersPrinted(blank: string, members: seq<Entry>, before: seq<Entry>, strtod: Strtod)
    requires (blank == "" || blank == " ") && Sorted(members) && KeysBefore(before, members)
    requires forall k :: 0 <= k < |members| ==> Plain(members[k].value)
    ensures ValidMembers(MembersOf(blank, members)) && MembersDepth(MembersOf(blank, members)) == MembersHeight(members)
    ensures MembersLine(MembersOf(blank, members)) == if members == [] then "" else blank + MembersText(members)
    ensures MembersValue(before, MembersOf(blank, members), strtod) == before + MembersReparsed(members, strtod)
    decreases members, 0
  {
    hide *;
    if members == [] {
      NoMembersPrinted(blank, before, strtod);
    } else {
      MembersUnfold(blank, members, strtod);
      DocPrinted(members[0].value, strtod);
      var e := Entry(members[0].key, Reparsed(members[0].value, strtod));
      KeysMove(before, members, e);
      MembersPrinted(" ", members[1..], before + [e], strtod);
      var m, others := MemberOf(blank, e.key, DocOf(members[0].value)), MembersOf(" ", members[1..]);
      MemberPrinted(blank, members[0]);
      MembersJoined(m, others);
      MembersPut(m, others, before, strtod);
      Commas(blank, MemberText(members[0]), MembersText(members[1..]));
      Regroup(before, [e], MembersReparsed(members[1..], strtod));
    }
  }

  lemma NoMembersPrinted(blank: string, before: seq<Entry>, strtod: Strtod)
    ensures MembersOf(blank, []) == [] && ValidMembers([]) && MembersLine([]) == "" && MembersDepth([]) == 0
    ensures MembersHeight([]) == 0 && MembersValue(before, [], strtod) == before + []
    ensures MembersReparsed([], strtod) == []
  {
  }

  lemma MembersUnfold(blank: string, members: seq<Entry>, strtod: Strtod)
    requires members != []
    ensures MembersOf(blank, members)
      == [MemberOf(blank, members[0].key, DocOf(members[0].value))] + MembersOf(" ", members[1..])
    ensures MembersOf(" ", members[1..]) == [] <==> members[1..] == []
    ensures MembersText(members)
      == MemberText(members[0]) + if members[1..] == [] then "" else ", " + MembersText(members[1..])
    ensures MembersHeight(members) == Larger(1 + Height(members[0].value), MembersHeight(members[1..]))
    ensures MembersReparsed(members, strtod)
      == [Entry(members[0].key, Reparsed(members[0].value, strtod))] + MembersReparsed(members[1..], strtod)
  {
    hide DocOf, MemberText, Height, Reparsed, LettersOf;
  }

  lemma MemberPrinted(blank: string, e: Entry)
    requires (blank == "" || blank == " ") && ValidDoc(DocOf(e.value)) && DocText(DocOf(e.value)) == Text(e.value)
    ensures var m := MemberOf(blank, e.key, DocOf(e.value));
      ValidMember(m) && MemberLine(m) == blank + MemberText(e) && Meaning(m.key) == e.key
      && m.item.doc == DocOf(e.value)
  {
    LettersPrinted(e.key);
    LettersMean(e.key);
    hide DocOf, DocText, Text, LettersOf, Meaning, ValidDoc, ValidLetters;
    var m := MemberOf(blank, e.key, DocOf(e.value));
    assert m.key == LettersOf(e.key) && Quoted(m.key) == StringText(e.key) by { hide ValidMember, ItemLine; }
    assert ValidMember(m);
    assert " " + Text(e.value) + "" == " " + Text(e.value) && ItemLine(m.item) == " " + Text(e.value);
    hide Quoted, StringText, ItemLine, ValidMember;
    Colon(blank, StringText(e.key), Text(e.value));
  }

  lemma Colon(blank: string, key: string, value: string)
    ensures blank + key + "" + ":" + (" " + value) == blank + (key + ": " + value)
  {
  }

  lemma MembersPut(m: Member, others: seq<Member>, before: seq<Entry>, strtod: Strtod)
    requires ValidMember(m) && ValidMembers(others) && ValidMembers([m] + others)
    ensures ValidDoc(m.item.doc) && MembersDepth([m] + others) == Larger(1 + Depth(m.item.doc), MembersDepth(others))
    ensures MembersValue(before, [m] + others, strtod)
      == MembersValue(Insert(before, Meaning(m.key), DocValue(m.item.doc, strtod)), others, strtod)
  {
    assert ([m] + others)[1..] == others;
    hide Depth, DocValue, ValidDoc, Meaning, Insert, ValidLetters;
  }

  ghost predicate KeysBefore(before: seq<Entry>, members: seq<Entry>) {
    forall i, j :: 0 <= i < |before| && 0 <= j < |members| ==> Less(before[i].key, members[j].key)
  }

  lemma KeysMove(before: seq<Entry>, members: seq<Entry>, w: Entry)
    requires members != [] && Sorted(members) && KeysBefore(before, members) && w.key == members[0].key
    ensures Sorted(members[1..]) && KeysBefore(before + [w], members[1..])
    ensures Insert(before, w.key, w.value) == before + [w]
  {
    OrderedIsSorted(members);
    InsertLast(before, w.key, w.value);
    hide Less, Insert, Before;
  }

  lemma {:induction false} InsertLast(m: seq<Entry>, key: string, v: Json)
    requires forall k :: 0 <= k < |m| ==> Less(m[k].key, key)
    ensures Insert(m, key, v) == m + [Entry(key, v)]
  {
    if m != [] {
      LessTotal(m[0].key, key);
      LessTotal(key, key);
      InsertLast(m[1..], key, v);
    }
  }

  // Parsing what was printed

  /** A text that does not go on with a number. */
  predicate Ends(rest: string) { rest == "" || rest[0] !in "0123456789.eE" }

  /** The text of a value, followed by anything that does not continue a number, is parsed to the value, unless it is
      nested too deep. */
  lemma ValueParsed(v: Json, rest: string, depth: nat, strtod: Strtod)
    requires Plain(v) && Ends(rest)
    ensures ParseValue(Text(v) + rest, depth, strtod)
      == Verdict(depth + Height(v) <= 200, Reparsed(v, strtod), rest)
  {
    DocPrinted(v, strtod);
    EndsDoc(DocOf(v), rest);
    hide Plain, Ends, ParseValue, DocOf, Text, DocText, Height, Depth, Reparsed, DocValue, ValidDoc;
    assert "" + Text(v) + rest == Text(v) + rest;
    DocParsed("", DocOf(v), rest, depth, strtod);
  }

  lemma EndsDoc(d: Doc, rest: string)
    requires Ends(rest)
    ensures DocEnds(d, rest)
  {
  }

  /** Parsing the text of a value succeeds exactly when the value is nested at most 200 deep; then the whole text is
      used and the result is equal to the value. */
  lemma RoundTrip(v: Json, strtod: Strtod)
    requires Plain(v) && ExactOnInts(strtod)
    ensures Parse(Text(v), strtod).Done? <==> Height(v) <= 200
    ensures Parse(Text(v), strtod).Done? ==> Equal(Parse(Text(v), strtod).value, v)
  {
    ValueParsed(v, "", 0, strtod);
    ReparsedEqual(v, strtod);
    assert Text(v) + "" == Text(v);
    hide ParseValue, Text, Height, Reparsed, Equal;
  }
}
