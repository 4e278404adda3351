/** The parser of JSON texts accepts the texts of the grammar, with any white space, and gives them their meaning. */
module JsonAccepts {
  import opened Json
  import opened JsonGrammar
  import opened JsonSyntax
  import opened Sequences

  // White space

  lemma {:induction false} BlankSkipped(ws: string, t: string)
    requires Blank(ws)
    ensures Skip(ws + t) == Skip(t)
  {
    if ws == "" {
      assert ws + t == t;
    } else {
      assert (ws + t)[1..] == ws[1..] + t;
      BlankSkipped(ws[1..], t);
    }
  }

  lemma NothingSkipped(t: string)
    requires t == "" || !BlankChar(t[0])
    ensures Skip(t) == t
  {
  }

  // Strings

  /** What letters mean behind an escaped code unit that is still pending. */
  function Pend(p: int, ls: seq<Letter>): string
    requires p < 0x10000 && ValidLetters(ls)
  {
    if p < 0 then Meaning(ls)
    else if ls != [] && ls[0].Code? && Surrogates(p, UnitOf(ls[0])) then
      Utf8(0x10000 + 0x400 * (p - 0xD800) + (UnitOf(ls[0]) - 0xDC00)) + Meaning(ls[1..])
    else Utf8(p) + Meaning(ls)
  }

  lemma {:induction false} LettersParsed(ls: seq<Letter>, rest: string, out: string, p: int)
    requires ValidLetters(ls) && p < 0x10000
    ensures ParseString(LettersText(ls) + "\"" + rest, out, p) == Done(out + Pend(p, ls), rest)
    decreases |ls|
  {
    if ls == [] {
      assert LettersText(ls) + "\"" + rest == "\"" + rest && ("\"" + rest)[1..] == rest;
      assert Pend(p, ls) == Utf8(p);
    } else {
      var tail := LettersText(ls[1..]) + "\"" + rest;
      FirstLetter(ls, rest);
      LetterParsed(ls[0], tail, out, p);
      var next := After(ls[0], out, p);
      LettersParsed(ls[1..], rest, next.out, next.pending);
      PendStep(ls, out, p);
    }
  }

  lemma FirstLetter(ls: seq<Letter>, rest: string)
    requires ls != []
    ensures LettersText(ls) + "\"" + rest == LetterText(ls[0]) + (LettersText(ls[1..]) + "\"" + rest)
  {
  }

  /** One letter, as the parser goes on behind it. */
  lemma LetterParsed(l: Letter, tail: string, out: string, p: int)
    requires ValidLetter(l) && p < 0x10000
    ensures After(l, out, p).pending < 0x10000
    ensures ParseString(LetterText(l) + tail, out, p)
      == ParseString(tail, After(l, out, p).out, After(l, out, p).pending)
  {
    var t := LetterText(l) + tail;
    hide Utf8;
    match l
    case Itself(c) => assert t[1..] == tail;
    case Short(c) => assert t[2..] == tail;
    case Code(hex) =>
      assert t[2..] == hex + tail && t[6..] == tail;
      CodeRead(l, tail);
  }

  /** What has been read of a string, and the code unit that is pending. */
  datatype SoFar = SoFar(out: string, pending: int)

  function After(l: Letter, out: string, p: int): SoFar
    requires ValidLetter(l) && p < 0x10000
  {
    match l
    case Itself(c) => SoFar(out + Utf8(p) + [c], -1)
    case Short(c) => SoFar(out + Utf8(p) + [Escaped(c)], -1)
    case Code(_) =>
      if Surrogates(p, UnitOf(l)) then SoFar(out + Utf8(0x10000 + 0x400 * (p - 0xD800) + (UnitOf(l) - 0xDC00)), -1)
      else SoFar(out + Utf8(p), UnitOf(l))
  }

  lemma CodeRead(l: Letter, tail: string)
    requires ValidLetter(l) && l.Code?
    ensures FourHex(l.hex + tail) && HexCode(l.hex + tail) == UnitOf(l)
  {
    var t := l.hex + tail;
    assert t[0] == l.hex[0] && t[1] == l.hex[1] && t[2] == l.hex[2] && t[3] == l.hex[3];
  }

  lemma PendStep(ls: seq<Letter>, out: string, p: int)
    requires ls != [] && ValidLetters(ls) && p < 0x10000
    ensures
      var a := After(ls[0], out, p);
      a.pending < 0x10000 && a.out + Pend(a.pending, ls[1..]) == out + Pend(p, ls)
  {
    if p < 0 { NonePending(p); }
    match ls[0]
    case Itself(c) =>
      PlainMeaning(ls, c, p);
      hide *;
      Three(out, Utf8(p), [c], Meaning(ls[1..]));
    case Short(c) =>
      PlainMeaning(ls, Escaped(c), p);
      hide *;
      Three(out, Utf8(p), [Escaped(c)], Meaning(ls[1..]));
    case Code(_) =>
      CodeMeaning(ls, p);
      hide Utf8, UnitOf, Pend, Meaning;
      var n := UnitOf(ls[0]);
      if Surrogates(p, n) {
        Regroup(out, Utf8(0x10000 + 0x400 * (p - 0xD800) + (n - 0xDC00)), Meaning(ls[1..]));
      } else {
        Regroup(out, Utf8(p), Pend(n, ls[1..]));
      }
  }

  lemma NonePending(p: int)
    requires p < 0
    ensures Utf8(p) == ""
  {
  }

  lemma Three(a: string, b: string, c: string, d: string)
    ensures a + b + c + d == a + (b + (c + d))
  {
  }

  lemma PlainMeaning(ls: seq<Letter>, c: char, p: int)
    requires ls != [] && ValidLetters(ls) && p < 0x10000 && (p < 0 ==> Utf8(p) == "")
    requires ls[0] == Itself(c) || (ls[0].Short? && c == Escaped(ls[0].c))
    ensures Pend(p, ls) == Utf8(p) + ([c] + Meaning(ls[1..])) && Pend(-1, ls[1..]) == Meaning(ls[1..])
  {
    hide Utf8, UnitOf;
  }

  lemma CodeMeaning(ls: seq<Letter>, p: int)
    requires ls != [] && ValidLetters(ls) && p < 0x10000 && (p < 0 ==> Utf8(p) == "") && ls[0].Code?
    ensures
      var n := UnitOf(ls[0]);
      if Surrogates(p, n) then
        && Pend(p, ls) == Utf8(0x10000 + 0x400 * (p - 0xD800) + (n - 0xDC00)) + Meaning(ls[1..])
        && Pend(-1, ls[1..]) == Meaning(ls[1..])
      else Pend(p, ls) == Utf8(p) + Pend(n, ls[1..])
  {
    hide Utf8, UnitOf;
    assert Pend(UnitOf(ls[0]), ls[1..]) == Meaning(ls) by { PendFirst(ls); }
    assert p < 0 ==> "" + Meaning(ls) == Meaning(ls);
  }

  lemma PendFirst(ls: seq<Letter>)
    requires ls != [] && ValidLetters(ls) && ls[0].Code?
    ensures Pend(UnitOf(ls[0]), ls[1..]) == Meaning(ls)
  {
    hide Utf8, UnitOf;
    assert |ls| >= 2 ==> ls[1..][0] == ls[1] && ls[1..][1..] == ls[2..];
  }

  // Numbers

  lemma {:induction false} DigitsDropped(digits: string, rest: string)
    requires digits == "" || AllDigits(digits)
    requires !IsDigit(Head(rest))
    ensures DropDigits(digits + rest) == rest
  {
    if digits == "" {
      assert digits + rest == rest;
    } else {
      assert (digits + rest)[1..] == digits[1..] + rest;
      DigitsDropped(digits[1..], rest);
    }
  }

  lemma NumberParsed(n: Number, rest: string, strtod: Strtod)
    requires ValidNumber(n) && NumberEnds(n, rest)
    ensures ParseNumber(NumberText(n) + rest, strtod) == Done(NumberValue(n, strtod), rest)
    ensures Head(NumberText(n) + rest) == '-' || IsDigit(Head(NumberText(n) + rest))
  {
    hide *;
    var t, u, v := NumberText(n) + rest, n.fraction + n.exponent + rest, n.exponent + rest;
    Behinds(n, rest);
    IntegerParsed(n, u, t);
    FractionParsed(n, v, u);
    ExponentParsed(n, rest);
    NumberRead(n, t, u, v, rest, strtod);
  }

  /** The parts of a number together. */
  lemma NumberRead(n: Number, t: string, u: string, v: string, rest: string, strtod: Strtod)
    requires ValidNumber(n) && t == NumberText(n) + rest && u == n.fraction + v && v == n.exponent + rest
    requires ParseInteger(t) == Done((), u) && ParseFraction(u) == Done((), v) && ParseExponent(v) == Done((), rest)
    requires Head(u) == '.' <==> n.fraction != ""
    requires n.fraction == "" ==> (Head(u) == 'e' || Head(u) == 'E' <==> n.exponent != "")
    ensures ParseNumber(t, strtod) == Done(NumberValue(n, strtod), rest)
  {
    hide NumberText, ParseInteger, ParseFraction, ParseExponent, Atoi, DecimalOf, ValidNumber, Consumed;
    AllButRest(NumberText(n), rest);
    if n.fraction == "" && n.exponent == "" {
      NothingBefore(n.fraction, v);
      NothingBefore(n.exponent, rest);
      AtoiIs(n);
    }
  }

  lemma NothingBefore(a: string, b: string)
    ensures a == "" ==> a + b == b
  {
  }

  lemma AllButRest(a: string, rest: string)
    ensures Consumed(a + rest, rest) == a && |a + rest| - |rest| == |a|
  {
  }

  /** What follows the parts of a number does not go on with them. */
  lemma Behinds(n: Number, rest: string)
    requires ValidNumber(n) && NumberEnds(n, rest)
    ensures var t, u, v := NumberText(n) + rest, n.fraction + n.exponent + rest, n.exponent + rest;
      && t == (if n.minus then "-" else "") + (n.whole + u) && u == n.fraction + v
      && !IsDigit(Head(u)) && !IsDigit(Head(v)) && !IsDigit(Head(rest))
      && (Head(u) == '.' <==> n.fraction != "")
      && (n.fraction == "" ==> (Head(u) == 'e' || Head(u) == 'E' <==> n.exponent != ""))
      && (Head(v) == 'e' || Head(v) == 'E' <==> n.exponent != "")
  {
    var v := n.exponent + rest;
    HeadOf(n.exponent, rest);
    HeadOf(n.fraction, v);
    PartsOf(n, rest);
    hide NumberText;
  }

  lemma PartsOf(n: Number, rest: string)
    ensures n.fraction + n.exponent + rest == n.fraction + (n.exponent + rest)
    ensures NumberText(n) + rest == (if n.minus then "-" else "") + (n.whole + (n.fraction + n.exponent + rest))
  {
  }

  lemma HeadOf(a: string, b: string)
    ensures Head(a + b) == if a == "" then Head(b) else a[0]
  {
  }

  lemma IntegerParsed(n: Number, u: string, t: string)
    requires ValidNumber(n) && !IsDigit(Head(u)) && t == (if n.minus then "-" else "") + (n.whole + u)
    ensures ParseInteger(t) == Done((), u) && (Head(t) == '-' || IsDigit(Head(t)))
  {
    var w := n.whole + u;
    assert AfterSign(t) == w;
    assert w[0] == n.whole[0];
    DigitsDropped(n.whole, u);
    if n.whole[0] == '0' { assert w[1..] == u && At(w, 1) == Head(u); }
  }

  lemma FractionParsed(n: Number, v: string, u: string)
    requires ValidNumber(n) && u == n.fraction + v && !IsDigit(Head(v)) && (n.fraction == "" ==> Head(u) != '.')
    ensures ParseFraction(u) == Done((), v)
  {
    if n.fraction == "" {
      assert u == v;
    } else {
      assert u[1..] == n.fraction[1..] + v && At(u, 1) == n.fraction[1];
      DigitsDropped(n.fraction[1..], v);
    }
  }

  lemma ExponentParsed(n: Number, rest: string)
    requires ValidNumber(n) && NumberEnds(n, rest)
    ensures ParseExponent(n.exponent + rest) == Done((), rest)
  {
    var v := n.exponent + rest;
    if n.exponent == "" {
      assert v == rest;
    } else if AllDigits(n.exponent[1..]) {
      assert v[1..] == n.exponent[1..] + rest && At(v, 1) == n.exponent[1];
      DigitsDropped(n.exponent[1..], rest);
    } else {
      assert v[2..] == n.exponent[2..] + rest && At(v, 1) == n.exponent[1] && Head(v[2..]) == n.exponent[2];
      DigitsDropped(n.exponent[2..], rest);
    }
  }

  lemma AtoiIs(n: Number)
    requires ValidNumber(n) && n.fraction == "" && n.exponent == ""
    ensures Atoi(NumberText(n)) == if n.minus then -DecimalOf(n.whole) else DecimalOf(n.whole)
  {
    DecimalIs(n.whole);
    assert NumberText(n) == if n.minus then "-" + n.whole else n.whole;
    assert ("-" + n.whole)[1..] == n.whole;
  }

  lemma {:induction false} DecimalIs(s: string)
    requires s == "" || AllDigits(s)
    ensures DecimalOf(s) == Value(s)
  {
    if s != "" { DecimalIs(s[..|s| - 1]); }
  }

  // Values

  function Verdict(ok: bool, v: Json, rest: string): Parsed<Json> { if ok then Done(v, rest) else Failed }

  lemma TextStarts(d: Doc)
    requires ValidDoc(d)
    ensures DocText(d) != "" && !BlankChar(DocText(d)[0]) && DocText(d)[0] != ']' && DocText(d)[0] != '}'
  {
    if d.NumberDoc? { assert DocText(d)[0] == if d.n.minus then '-' else d.n.whole[0]; }
  }

  /** White space and the text of a value, followed by anything that does not continue it: the parser takes exactly
      that text and gives the value, unless it is nested too deep. */
  lemma {:induction false} DocParsed(ws: string, d: Doc, rest: string, depth: nat, strtod: Strtod)
    requires Blank(ws) && ValidDoc(d) && DocEnds(d, rest)
    ensures ParseValue(ws + DocText(d) + rest, depth, strtod)
      == Verdict(depth + Depth(d) <= 200, DocValue(d, strtod), rest)
    decreases d, 2
  {
    var t := DocText(d) + rest;
    TokenFirst(ws, d, rest);
    match d
    case NullDoc | TrueDoc | FalseDoc | NumberDoc(_) | StringDoc(_) =>
      ScalarParsed(d, rest, depth, strtod);
    case ArrayDoc(_, _) =>
      if depth <= 200 { ArrayParsed(d, rest, depth, strtod); }
    case ObjectDoc(_, _) =>
      if depth <= 200 { ObjectParsed(d, rest, depth, strtod); }
  }

  lemma TokenFirst(ws: string, d: Doc, rest: string)
    requires Blank(ws) && ValidDoc(d)
    ensures Skip(ws + DocText(d) + rest) == DocText(d) + rest
  {
    var t := DocText(d) + rest;
    TextStarts(d);
    assert ws + DocText(d) + rest == ws + t && t[0] == DocText(d)[0];
    hide DocText;
    BlankSkipped(ws, t);
    NothingSkipped(t);
  }

  lemma ScalarParsed(d: Doc, rest: string, depth: nat, strtod: Strtod)
    requires ValidDoc(d) && DocEnds(d, rest) && !d.ArrayDoc? && !d.ObjectDoc?
    ensures ParseToken(DocText(d) + rest, depth, strtod) == Done(DocValue(d, strtod), rest)
  {
    hide ParseNumber, ParseString, Expect, NumberEnds, NumberText, NumberValue, Meaning;
    match d
    case NullDoc => WordParsed("null", rest, Null);
    case TrueDoc => WordParsed("true", rest, Bool(true));
    case FalseDoc => WordParsed("false", rest, Bool(false));
    case NumberDoc(n) => NumberParsed(n, rest, strtod);
    case StringDoc(letters) =>
      QuotedParsed(letters, rest);
      assert (Quoted(letters) + rest)[0] == '\"';
  }

  lemma WordParsed(word: string, rest: string, v: Json)
    requires word != ""
    ensures Expect(word + rest, word, v) == Done(v, rest)
    ensures (word + rest)[0] == word[0]
  {
    assert word <= word + rest && (word + rest)[|word|..] == rest;
  }

  lemma QuotedParsed(letters: seq<Letter>, rest: string)
    requires ValidLetters(letters)
    ensures ParseString((Quoted(letters) + rest)[1..], "", -1) == Done(Meaning(letters), rest)
    ensures Head(Quoted(letters) + rest) == '\"'
  {
    assert (Quoted(letters) + rest)[1..] == LettersText(letters) + "\"" + rest;
    LettersParsed(letters, rest, "", -1);
    assert "" + Pend(-1, letters) == Meaning(letters);
  }

  // Arrays

  /** Items, each with a comma behind it. */
  function CommaItems(items: seq<Item>): string {
    if items == [] then "" else ItemLine(items[0]) + "," + CommaItems(items[1..])
  }

  lemma NoItems(depth: nat, before: seq<Json>, strtod: Strtod)
    ensures ParseItems("", depth, before, strtod) == Failed
  {
  }

  /** The parser goes through items with commas behind them one by one. */
  lemma {:induction false} ItemsBefore(items: seq<Item>, x: string, before: seq<Json>, depth: nat, strtod: Strtod)
    requires ValidItems(items)
    ensures ParseItems(Skip(CommaItems(items) + x), depth, before, strtod) ==
      if items == [] || depth + ItemsDepth(items) <= 200
      then ParseItems(Skip(x), depth, before + ItemsValue(items, strtod), strtod) else Failed
    decreases items, 1
  {
    if items == [] {
      assert CommaItems(items) + x == x && before + ItemsValue(items, strtod) == before;
    } else {
      var i, more := items[0], CommaItems(items[1..]) + x;
      assert ValidItem(i) && CommaItems(items) + x == ItemLine(i) + ("," + more);
      EndsThere(i.doc, i.after, "," + more);
      ItemParsed(i, "," + more, before, depth, strtod);
      ItemsBefore(items[1..], x, before + [DocValue(i.doc, strtod)], depth, strtod);
      CommaFound(i.after, more, before + [DocValue(i.doc, strtod)], depth, strtod);
      ItemsAdd(items, before, strtod);
      hide ParseItems, MoreItems, CommaItems, ItemLine, DocValue, Skip, Depth;
    }
  }

  lemma ItemsAdd(items: seq<Item>, before: seq<Json>, strtod: Strtod)
    requires items != [] && ValidItems(items)
    ensures ValidItem(items[0])
    ensures before + [DocValue(items[0].doc, strtod)] + ItemsValue(items[1..], strtod)
      == before + ItemsValue(items, strtod)
    ensures ItemsDepth(items) == Larger(1 + Depth(items[0].doc), ItemsDepth(items[1..]))
  {
    hide DocValue, Depth;
    assert ValidItem(items[0]);
    var v := DocValue(items[0].doc, strtod);
    assert ItemsValue(items, strtod) == [v] + ItemsValue(items[1..], strtod);
    hide ItemsValue;
    Regroup(before, [v], ItemsValue(items[1..], strtod));
  }

  /** One item and what follows it. */
  lemma ItemParsed(i: Item, y: string, before: seq<Json>, depth: nat, strtod: Strtod)
    requires ValidItem(i) && DocEnds(i.doc, i.after + y)
    ensures ParseItems(Skip(ItemLine(i) + y), depth, before, strtod) ==
      if depth + 1 + Depth(i.doc) <= 200
      then MoreItems(i.after + y, depth, before + [DocValue(i.doc, strtod)], strtod) else Failed
    decreases i, 0
  {
    var rest := i.after + y;
    assert ItemLine(i) + y == i.before + DocText(i.doc) + rest;
    TokenFirst(i.before, i.doc, rest);
    DocParsed("", i.doc, rest, depth + 1, strtod);
    assert "" + DocText(i.doc) + rest == DocText(i.doc) + rest;
    hide ParseValue, MoreItems, DocValue, Skip, DocText, ItemLine;
  }

  lemma EndsThere(d: Doc, after: string, y: string)
    requires Blank(after) && y != "" && (y[0] == ',' || y[0] == ']' || y[0] == '}')
    ensures DocEnds(d, after + y)
  {
    assert (after + y)[0] == if after == "" then y[0] else after[0];
  }

  lemma CommaFound(after: string, more: string, items: seq<Json>, depth: nat, strtod: Strtod)
    requires Blank(after)
    ensures MoreItems(after + ("," + more), depth, items, strtod) == ParseItems(Skip(more), depth, items, strtod)
  {
    BlankSkipped(after, "," + more);
    NothingSkipped("," + more);
    assert ("," + more)[1..] == more;
    NoItems(depth, items, strtod);
    hide ParseItems, Skip;
  }

  lemma BracketFound(after: string, rest: string, items: seq<Json>, depth: nat, strtod: Strtod)
    requires Blank(after)
    ensures MoreItems(after + ("]" + rest), depth, items, strtod) == Done(Arr(items), rest)
  {
    BlankSkipped(after, "]" + rest);
    NothingSkipped("]" + rest);
    assert ("]" + rest)[1..] == rest;
    hide ParseItems, Skip;
  }

  lemma {:induction false} LastOf(items: seq<Item>)
    requires items != [] && ValidItems(items)
    ensures
      var n := |items| - 1;
      && ItemsLine(items) == CommaItems(items[..n]) + ItemLine(items[n])
      && ValidItems(items[..n]) && ValidItem(items[n]) && ValidDoc(items[n].doc) && Blank(items[n].after)
      && ItemsDepth(items) == Larger(ItemsDepth(items[..n]), 1 + Depth(items[n].doc))
  {
    hide ItemLine, Depth;
    var n := |items| - 1;
    if n > 0 {
      LastOf(items[1..]);
      assert items[1..][..n - 1] == items[..n][1..] && items[..n][0] == items[0] && items[1..][n - 1] == items[n];
    }
  }

  lemma {:induction false} LastValue(items: seq<Item>, strtod: Strtod)
    requires items != [] && ValidItems(items)
    ensures var n := |items| - 1;
      && ValidItems(items[..n]) && ValidItem(items[n])
      && ItemsValue(items, strtod) == ItemsValue(items[..n], strtod) + [DocValue(items[n].doc, strtod)]
  {
    hide DocValue;
    var n := |items| - 1;
    LastOf(items);
    if n > 0 {
      LastValue(items[1..], strtod);
      assert items[1..][..n - 1] == items[..n][1..] && items[..n][0] == items[0] && items[1..][n - 1] == items[n];
    }
  }

  lemma ItemsParsed(items: seq<Item>, rest: string, depth: nat, strtod: Strtod)
    requires items != [] && ValidItems(items)
    ensures ParseItems(Skip(ItemsLine(items) + ("]" + rest)), depth, [], strtod)
      == Verdict(depth + ItemsDepth(items) <= 200, Arr(ItemsValue(items, strtod)), rest)
    decreases items, 2
  {
    hide *;
    var n, y := |items| - 1, "]" + rest;
    LastOf(items);
    LastValue(items, strtod);
    var most, last := ItemsValue(items[..n], strtod), DocValue(items[n].doc, strtod);
    ItemsBefore(items[..n], ItemLine(items[n]) + y, [], depth, strtod);
    EndsThere(items[n].doc, items[n].after, y);
    ItemParsed(items[n], y, most, depth, strtod);
    BracketFound(items[n].after, rest, most + [last], depth, strtod);
    Regroup(CommaItems(items[..n]), ItemLine(items[n]), y);
    assert [] + most == most;
    Depths(items[..n], items[n], depth);
    Verdicts(depth + ItemsDepth(items) <= 200, Arr(ItemsValue(items, strtod)), rest);
  }

  lemma Depths(items: seq<Item>, i: Item, depth: nat)
    ensures depth + Larger(ItemsDepth(items), 1 + Depth(i.doc)) <= 200 <==>
      (items == [] || depth + ItemsDepth(items) <= 200) && depth + 1 + Depth(i.doc) <= 200
  {
    hide Depth;
  }

  lemma Verdicts(ok: bool, v: Json, rest: string)
    ensures Verdict(ok, v, rest) == if ok then Done(v, rest) else Failed
  {
  }

  lemma ArrayParsed(d: Doc, rest: string, depth: nat, strtod: Strtod)
    requires ValidDoc(d) && d.ArrayDoc? && depth <= 200
    ensures ParseToken(DocText(d) + rest, depth, strtod)
      == Verdict(depth + Depth(d) <= 200, DocValue(d, strtod), rest)
    decreases d, 1
  {
    ArrayIs(d, rest, strtod);
    hide *;
    if d.items == [] {
      EmptyArray(d.blank, rest, depth, strtod);
      Verdicts(depth + Depth(d) <= 200, DocValue(d, strtod), rest);
    } else {
      ItemsParsed(d.items, rest, depth, strtod);
      FirstItem(d.items, "]" + rest);
      ArrayOpened(ItemsLine(d.items) + ("]" + rest), depth, strtod);
    }
  }

  lemma ArrayIs(d: Doc, rest: string, strtod: Strtod)
    requires ValidDoc(d) && d.ArrayDoc?
    ensures Blank(d.blank) && ValidItems(d.items) && Depth(d) == ItemsDepth(d.items)
    ensures DocValue(d, strtod) == Arr(ItemsValue(d.items, strtod))
    ensures d.items == [] ==>
      Depth(d) == 0 && DocText(d) + rest == "[" + d.blank + "]" + rest && DocValue(d, strtod) == Arr([])
    ensures d.items != [] ==> DocText(d) + rest == "[" + (ItemsLine(d.items) + ("]" + rest))
  {
    hide Blank, ValidItems, ItemsLine;
  }

  lemma EmptyArray(blank: string, rest: string, depth: nat, strtod: Strtod)
    requires Blank(blank)
    ensures ParseToken("[" + blank + "]" + rest, depth, strtod) == Done(Arr([]), rest)
  {
    var t := "[" + blank + "]" + rest;
    assert t[1..] == blank + ("]" + rest);
    BlankSkipped(blank, "]" + rest);
    NothingSkipped("]" + rest);
    assert ("]" + rest)[1..] == rest;
    hide Skip, ParseItems;
  }

  lemma FirstItem(items: seq<Item>, y: string)
    requires items != [] && ValidItems(items)
    ensures var u := Skip(ItemsLine(items) + y); u != "" && u[0] != ']'
  {
    var z := (if |items| == 1 then "" else "," + ItemsLine(items[1..])) + y;
    assert ItemsLine(items) + y == ItemLine(items[0]) + z;
    assert ValidItem(items[0]) by { hide ValidItem; }
    hide *;
    ItemFirst(items[0], z);
  }

  lemma ItemFirst(i: Item, y: string)
    requires ValidItem(i)
    ensures var u := Skip(ItemLine(i) + y); u != "" && u[0] != ']'
  {
    TextStarts(i.doc);
    hide DocText, Skip;
    assert ItemLine(i) + y == i.before + DocText(i.doc) + (i.after + y);
    TokenFirst(i.before, i.doc, i.after + y);
    assert (DocText(i.doc) + (i.after + y))[0] == DocText(i.doc)[0];
  }

  lemma ArrayOpened(x: string, depth: nat, strtod: Strtod)
    requires Skip(x) != "" && Skip(x)[0] != ']'
    ensures ParseToken("[" + x, depth, strtod) == ParseItems(Skip(x), depth, [], strtod)
  {
    assert ("[" + x)[1..] == x;
    hide Skip, ParseItems;
  }

  // Objects

  function CommaMembers(members: seq<Member>): string {
    if members == [] then "" else MemberLine(members[0]) + "," + CommaMembers(members[1..])
  }

  function Added(before: seq<Entry>, m: Member, strtod: Strtod): seq<Entry>
    requires ValidMember(m)
  {
    assert ValidItem(m.item);
    Insert(before, Meaning(m.key), DocValue(m.item.doc, strtod))
  }

  lemma {:induction false} MembersBefore(members: seq<Member>, x: string, before: seq<Entry>, depth: nat,
                                         strtod: Strtod)
    requires ValidMembers(members)
    ensures ParseMembers(Skip(CommaMembers(members) + x), depth, before, strtod) ==
      if members == [] || depth + MembersDepth(members) <= 200
      then ParseMembers(Skip(x), depth, MembersValue(before, members, strtod), strtod) else Failed
    decreases members, 1
  {
    if members == [] {
      assert CommaMembers(members) + x == x;
    } else {
      var m, more := members[0], CommaMembers(members[1..]) + x;
      assert ValidMember(m) && CommaMembers(members) + x == MemberLine(m) + ("," + more);
      EndsThere(m.item.doc, m.item.after, "," + more);
      MemberParsed(m, "," + more, before, depth, strtod);
      MembersBefore(members[1..], x, Added(before, m, strtod), depth, strtod);
      MemberComma(m.item.after, more, Added(before, m, strtod), depth, strtod);
      MembersAdd(members, before, strtod);
      hide ParseMembers, MoreMembers, CommaMembers, MemberLine, DocValue, Skip, Depth, Added;
    }
  }

  lemma MembersAdd(members: seq<Member>, before: seq<Entry>, strtod: Strtod)
    requires members != [] && ValidMembers(members)
    ensures ValidMember(members[0])
    ensures MembersValue(Added(before, members[0], strtod), members[1..], strtod)
      == MembersValue(before, members, strtod)
    ensures MembersDepth(members) == Larger(1 + Depth(members[0].item.doc), MembersDepth(members[1..]))
  {
    hide DocValue, Depth, Meaning, Insert;
    assert ValidMember(members[0]);
  }

  /** One member and what follows it. */
  lemma MemberParsed(m: Member, y: string, before: seq<Entry>, depth: nat, strtod: Strtod)
    requires ValidMember(m) && DocEnds(m.item.doc, m.item.after + y)
    ensures ParseMembers(Skip(MemberLine(m) + y), depth, before, strtod) ==
      if depth + 1 + Depth(m.item.doc) <= 200
      then MoreMembers(m.item.after + y, depth, Added(before, m, strtod), strtod) else Failed
    decreases m, 0
  {
    var rest := m.item.after + y;
    var value := m.item.before + DocText(m.item.doc) + rest;
    KeyParsed(m, y);
    DocParsed(m.item.before, m.item.doc, rest, depth + 1, strtod);
    hide ParseValue, ParseString, MoreMembers, DocValue, Skip, DocText, MemberLine, Meaning, Insert;
  }

  /** A key up to what follows it. */
  lemma KeyRead(before: string, letters: seq<Letter>, after: string, u: string)
    requires Blank(before) && ValidLetters(letters) && Blank(after) && u != "" && !BlankChar(u[0])
    ensures var t := Skip(before + Quoted(letters) + after + u);
      && Head(t) == '\"' && t != "" && ParseString(t[1..], "", -1) == Done(Meaning(letters), after + u)
      && Skip(after + u) == u
  {
    var t := Quoted(letters) + (after + u);
    QuotedParsed(letters, after + u);
    assert t[0] == '\"';
    hide Quoted, ParseString, Meaning, ValidLetters;
    assert before + Quoted(letters) + after + u == before + t;
    BlankSkipped(before, t);
    NothingSkipped(t);
    BlankSkipped(after, u);
    NothingSkipped(u);
  }

  /** A key up to the text of its value. */
  lemma KeyParsed(m: Member, y: string)
    requires ValidMember(m)
    ensures
      var t, u := Skip(MemberLine(m) + y), ":" + (m.item.before + DocText(m.item.doc) + (m.item.after + y));
      && Head(t) == '\"' && t != "" && ParseString(t[1..], "", -1) == Done(Meaning(m.key), m.colon + u)
      && Skip(m.colon + u) == u && u[1..] == m.item.before + DocText(m.item.doc) + (m.item.after + y)
  {
    hide DocText, Quoted, Skip, ParseString, Meaning, Blank, ValidLetters;
    var u := ":" + (m.item.before + DocText(m.item.doc) + (m.item.after + y));
    assert MemberLine(m) + y == m.before + Quoted(m.key) + m.colon + u;
    hide MemberLine;
    KeyRead(m.before, m.key, m.colon, u);
  }

  lemma MemberComma(after: string, more: string, members: seq<Entry>, depth: nat, strtod: Strtod)
    requires Blank(after)
    ensures MoreMembers(after + ("," + more), depth, members, strtod)
      == ParseMembers(Skip(more), depth, members, strtod)
  {
    BlankSkipped(after, "," + more);
    NothingSkipped("," + more);
    assert ("," + more)[1..] == more;
    hide ParseMembers, Skip;
  }

  lemma BraceFound(after: string, rest: string, members: seq<Entry>, depth: nat, strtod: Strtod)
    requires Blank(after)
    ensures MoreMembers(after + ("}" + rest), depth, members, strtod) == Done(Obj(members), rest)
  {
    BlankSkipped(after, "}" + rest);
    NothingSkipped("}" + rest);
    assert ("}" + rest)[1..] == rest;
    hide ParseMembers, Skip;
  }

  lemma {:induction false} LastMember(members: seq<Member>)
    requires members != [] && ValidMembers(members)
    ensures
      var n := |members| - 1;
      && MembersLine(members) == CommaMembers(members[..n]) + MemberLine(members[n])
      && ValidMembers(members[..n]) && ValidMember(members[n]) && Blank(members[n].item.after)
      && MembersDepth(members) == Larger(MembersDepth(members[..n]), 1 + Depth(members[n].item.doc))
  {
    hide MemberLine, Depth;
    var n := |members| - 1;
    if n > 0 {
      LastMember(members[1..]);
      assert members[1..][..n - 1] == members[..n][1..] && members[..n][0] == members[0]
        && members[1..][n - 1] == members[n];
    }
  }

  lemma {:induction false} LastMemberValue(members: seq<Member>, before: seq<Entry>, strtod: Strtod)
    requires members != [] && ValidMembers(members)
    ensures var n := |members| - 1;
      && ValidMembers(members[..n]) && ValidMember(members[n])
      && MembersValue(before, members, strtod) == Added(MembersValue(before, members[..n], strtod), members[n], strtod)
    decreases |members|
  {
    hide DocValue, Meaning, Insert;
    var n := |members| - 1;
    LastMember(members);
    if n > 0 {
      LastMemberValue(members[1..], Added(before, members[0], strtod), strtod);
      assert members[1..][..n - 1] == members[..n][1..] && members[..n][0] == members[0]
        && members[1..][n - 1] == members[n];
    }
  }

  lemma MembersParsed(members: seq<Member>, rest: string, depth: nat, strtod: Strtod)
    requires members != [] && ValidMembers(members)
    ensures ParseMembers(Skip(MembersLine(members) + ("}" + rest)), depth, [], strtod)
      == Verdict(depth + MembersDepth(members) <= 200, Obj(MembersValue([], members, strtod)), rest)
    decreases members, 2
  {
    hide *;
    var n, y := |members| - 1, "}" + rest;
    LastMember(members);
    LastMemberValue(members, [], strtod);
    MembersBefore(members[..n], MemberLine(members[n]) + y, [], depth, strtod);
    EndsThere(members[n].item.doc, members[n].item.after, y);
    MemberParsed(members[n], y, MembersValue([], members[..n], strtod), depth, strtod);
    BraceFound(members[n].item.after, rest, MembersValue([], members, strtod), depth, strtod);
    Regroup(CommaMembers(members[..n]), MemberLine(members[n]), y);
    NoMembers(strtod);
    MemberDepths(members[..n], members[n], depth);
    Verdicts(depth + MembersDepth(members) <= 200, Obj(MembersValue([], members, strtod)), rest);
  }

  lemma NoMembers(strtod: Strtod)
    ensures MembersValue([], [], strtod) == []
  {
  }

  lemma MemberDepths(members: seq<Member>, m: Member, depth: nat)
    ensures depth + Larger(MembersDepth(members), 1 + Depth(m.item.doc)) <= 200 <==>
      (members == [] || depth + MembersDepth(members) <= 200) && depth + 1 + Depth(m.item.doc) <= 200
  {
    hide Depth;
  }

  lemma ObjectParsed(d: Doc, rest: string, depth: nat, strtod: Strtod)
    requires ValidDoc(d) && d.ObjectDoc? && depth <= 200
    ensures ParseToken(DocText(d) + rest, depth, strtod)
      == Verdict(depth + Depth(d) <= 200, DocValue(d, strtod), rest)
    decreases d, 1
  {
    ObjectIs(d, rest, strtod);
    hide *;
    if d.members == [] {
      EmptyObject(d.blank, rest, depth, strtod);
      Verdicts(depth + Depth(d) <= 200, DocValue(d, strtod), rest);
    } else {
      MembersParsed(d.members, rest, depth, strtod);
      FirstMember(d.members, "}" + rest);
      ObjectOpened(MembersLine(d.members) + ("}" + rest), depth, strtod);
    }
  }

  lemma ObjectIs(d: Doc, rest: string, strtod: Strtod)
    requires ValidDoc(d) && d.ObjectDoc?
    ensures Blank(d.blank) && ValidMembers(d.members) && Depth(d) == MembersDepth(d.members)
    ensures DocValue(d, strtod) == Obj(MembersValue([], d.members, strtod))
    ensures d.members == [] ==>
      Depth(d) == 0 && DocText(d) + rest == "{" + d.blank + "}" + rest && DocValue(d, strtod) == Obj([])
    ensures d.members != [] ==> DocText(d) + rest == "{" + (MembersLine(d.members) + ("}" + rest))
  {
    hide Blank, ValidMembers, MembersLine;
  }

  lemma EmptyObject(blank: string, rest: string, depth: nat, strtod: Strtod)
    requires Blank(blank)
    ensures ParseToken("{" + blank + "}" + rest, depth, strtod) == Done(Obj([]), rest)
  {
    var t := "{" + blank + "}" + rest;
    assert t[1..] == blank + ("}" + rest);
    BlankSkipped(blank, "}" + rest);
    NothingSkipped("}" + rest);
    assert ("}" + rest)[1..] == rest;
    hide Skip, ParseMembers;
  }

  lemma FirstMember(members: seq<Member>, y: string)
    requires members != [] && ValidMembers(members)
    ensures Head(Skip(MembersLine(members) + y)) == '\"'
  {
    var z := (if |members| == 1 then "" else "," + MembersLine(members[1..])) + y;
    assert MembersLine(members) + y == MemberLine(members[0]) + z by { hide MemberLine; }
    assert ValidMember(members[0]) by { hide ValidMember; }
    hide *;
    KeyParsed(members[0], z);
  }

  lemma ObjectOpened(x: string, depth: nat, strtod: Strtod)
    requires Head(Skip(x)) != '}'
    ensures ParseToken("{" + x, depth, strtod) == ParseMembers(Skip(x), depth, [], strtod)
  {
    assert ("{" + x)[1..] == x;
    hide Skip, ParseMembers;
  }
}
