/** Every text that the parser of JSON texts accepts is one of the grammar. */
module JsonSound {
  import opened Json
  import opened JsonGrammar
  import opened JsonSyntax
  import opened JsonAccepts
  import opened Sequences

  lemma {:induction false} SkipSplit(t: string) returns (ws: string)
    ensures Blank(ws) && t == ws + Skip(t)
    ensures Skip(t) == "" || !BlankChar(Skip(t)[0])
  {
    if t != "" && Space(t[0]) {
      var more := SkipSplit(t[1..]);
      ws := [t[0]] + more;
      assert t == [t[0]] + t[1..];
      Regroup([t[0]], more, Skip(t[1..]));
    } else {
      ws := "";
      assert t == "" + t;
    }
  }

  // Strings

  lemma {:induction false} StringSound(t: string, out: string, p: int) returns (ls: seq<Letter>)
    requires p < 0x10000 && ParseString(t, out, p).Done?
    ensures ValidLetters(ls) && t == LettersText(ls) + "\"" + ParseString(t, out, p).rest
    decreases |t|
  {
    if t[0] == '\"' {
      ls := [];
      assert t == "\"" + t[1..];
    } else {
      var l := FirstRead(t, out, p);
      var n := |LetterText(l)|;
      assert t == LetterText(l) + t[n..];
      LetterParsed(l, t[n..], out, p);
      var a := After(l, out, p);
      var more := StringSound(t[n..], a.out, a.pending);
      ls := [l] + more;
      assert ls[1..] == more;
      FirstLetter(ls, ParseString(t, out, p).rest);
    }
  }

  /** The letter that a text inside a string starts with. */
  lemma FirstRead(t: string, out: string, p: int) returns (l: Letter)
    requires p < 0x10000 && ParseString(t, out, p).Done? && t[0] != '\"'
    ensures ValidLetter(l) && LetterText(l) != "" && LetterText(l) <= t
  {
    hide Utf8, HexCode;
    if t[0] != '\\' {
      l := Itself(t[0]);
    } else if t[1] == 'u' {
      l := Code(t[2..6]);
      assert t[2..][0] == t[2] && t[2..][1] == t[3] && t[2..][2] == t[4] && t[2..][3] == t[5];
      assert LetterText(l) == t[..6];
    } else {
      l := Short(t[1]);
      assert LetterText(l) == t[..2];
    }
  }

  // Numbers

  lemma {:induction false} DigitsTaken(t: string) returns (ds: string)
    ensures t == ds + DropDigits(t) && (ds == "" || AllDigits(ds)) && (ds == "" <==> !IsDigit(Head(t)))
  {
    if t != "" && IsDigit(t[0]) {
      var more := DigitsTaken(t[1..]);
      ds := [t[0]] + more;
      assert t == [t[0]] + t[1..];
      Regroup([t[0]], more, DropDigits(t[1..]));
    } else {
      ds := "";
      assert t == "" + t;
    }
  }

  lemma NumberSound(t: string, strtod: Strtod) returns (n: Number)
    requires ParseNumber(t, strtod).Done?
    ensures ValidNumber(n) && t == NumberText(n) + ParseNumber(t, strtod).rest
    ensures NumberEnds(n, ParseNumber(t, strtod).rest)
  {
    hide *;
    Stages(t, strtod);
    var u := ParseInteger(t).rest;
    var v := ParseFraction(u).rest;
    var w := ParseExponent(v).rest;
    var minus, whole := IntegerSound(t);
    var fraction := FractionSound(u);
    var exponent := ExponentSound(v);
    n := Number(minus, whole, fraction, exponent);
    Assembled(n, u, v, w);
  }

  /** The three parts of an accepted number. */
  lemma Stages(t: string, strtod: Strtod)
    requires ParseNumber(t, strtod).Done?
    ensures ParseInteger(t).Done? && ParseFraction(ParseInteger(t).rest).Done?
    ensures var v := ParseFraction(ParseInteger(t).rest).rest;
      ParseExponent(v).Done? && ParseExponent(v).rest == ParseNumber(t, strtod).rest
  {
    hide ParseInteger, Atoi, DropDigits;
  }

  lemma Assembled(n: Number, u: string, v: string, w: string)
    requires ValidWhole(n.whole) && ValidFraction(n.fraction) && ValidExponent(n.exponent)
    requires u == n.fraction + v && v == n.exponent + w && !IsDigit(Head(w))
    requires n.fraction == "" ==> Head(u) != '.'
    requires n.exponent == "" ==> Head(v) != 'e' && Head(v) != 'E'
    ensures ValidNumber(n) && (if n.minus then "-" else "") + n.whole + u == NumberText(n) + w && NumberEnds(n, w)
  {
    var sign := if n.minus then "-" else "";
    assert sign + n.whole + u == NumberText(n) + w;
    hide NumberText, AllDigits;
    assert n.exponent == "" ==> v == w;
    assert n.fraction == "" ==> u == v;
  }

  lemma IntegerSound(t: string) returns (minus: bool, whole: string)
    requires ParseInteger(t).Done?
    ensures ValidWhole(whole)
    ensures t == (if minus then "-" else "") + whole + ParseInteger(t).rest && !IsDigit(Head(ParseInteger(t).rest))
  {
    minus := Head(t) == '-';
    var u := AfterSign(t);
    assert t == (if minus then "-" else "") + u;
    if Head(u) == '0' {
      whole := "0";
      assert u == whole + u[1..];
      assert At(u, 1) == Head(u[1..]);
    } else {
      whole := DigitsTaken(u);
      assert whole[0] == u[0];
    }
    Regroup(if minus then "-" else "", whole, ParseInteger(t).rest);
  }

  lemma FractionSound(u: string) returns (fraction: string)
    requires ParseFraction(u).Done?
    ensures u == fraction + ParseFraction(u).rest
    ensures ValidFraction(fraction) && (fraction == "" ==> Head(u) != '.')
    ensures !IsDigit(Head(u)) ==> !IsDigit(Head(ParseFraction(u).rest))
  {
    if Head(u) != '.' {
      fraction := "";
      assert u == "" + u;
    } else {
      var ds := DigitsTaken(u[1..]);
      fraction := "." + ds;
      assert fraction[1..] == ds && u == "." + u[1..] && Head(u[1..]) == At(u, 1);
      Regroup(".", ds, DropDigits(u[1..]));
    }
  }

  lemma ExponentSound(v: string) returns (exponent: string)
    requires ParseExponent(v).Done?
    ensures v == exponent + ParseExponent(v).rest
    ensures ValidExponent(exponent) && (exponent == "" ==> Head(v) != 'e' && Head(v) != 'E')
    ensures !IsDigit(Head(v)) ==> !IsDigit(Head(ParseExponent(v).rest))
  {
    if Head(v) != 'e' && Head(v) != 'E' {
      exponent := "";
      assert v == "" + v;
    } else {
      var k := if At(v, 1) == '+' || At(v, 1) == '-' then 2 else 1;
      var ds := DigitsTaken(v[k..]);
      exponent := v[..k] + ds;
      assert exponent[k..] == ds && v == v[..k] + v[k..];
      Regroup(v[..k], ds, DropDigits(v[k..]));
    }
  }

  function Power10(n: nat): nat { if n == 0 then 1 else 10 * Power10(n - 1) }

  lemma {:induction false} DecimalBelow(s: string)
    requires s == "" || AllDigits(s)
    ensures 0 <= DecimalOf(s) < Power10(|s|)
  {
    if s != "" { DecimalBelow(s[..|s| - 1]); }
  }

  lemma {:induction false} PowersGrow(m: nat, n: nat)
    requires m <= n
    ensures Power10(m) <= Power10(n)
  {
    if m < n { PowersGrow(m, n - 1); }
  }

  /** A number that is read as an int has at most nine digits, so that its conversion fits 32 bits. */
  lemma IntsFit(n: Number, strtod: Strtod)
    requires ValidNumber(n) && NumberValue(n, strtod).Int?
    ensures -1_000_000_000 < NumberValue(n, strtod).n < 1_000_000_000
  {
    DecimalBelow(n.whole);
    PowersGrow(|n.whole|, 9);
    assert Power10(9) == 1_000_000_000 by { assert Power10(5) == 100000; }
  }

  // Values

  /** The parser accepts a text only if it starts with white space and a value of the grammar. */
  lemma {:induction false} ValueSound(t: string, depth: nat, strtod: Strtod) returns (ws: string, d: Doc)
    requires ParseValue(t, depth, strtod).Done?
    ensures var rest := ParseValue(t, depth, strtod).rest;
      Blank(ws) && ValidDoc(d) && DocEnds(d, rest) && t == ws + DocText(d) + rest
    decreases |t|, 2
  {
    hide *;
    ValueToken(t, depth, strtod);
    ws := SkipSplit(t);
    d := TokenSound(Skip(t), depth, strtod);
    Regroup(ws, DocText(d), ParseValue(t, depth, strtod).rest);
  }

  lemma ValueToken(t: string, depth: nat, strtod: Strtod)
    requires ParseValue(t, depth, strtod).Done?
    ensures ParseToken(Skip(t), depth, strtod) == ParseValue(t, depth, strtod) && |Skip(t)| <= |t|
  {
  }

  lemma {:induction false} TokenSound(t: string, depth: nat, strtod: Strtod) returns (d: Doc)
    requires ParseToken(t, depth, strtod).Done?
    ensures var rest := ParseToken(t, depth, strtod).rest;
      ValidDoc(d) && DocEnds(d, rest) && t == DocText(d) + rest
    decreases |t|, 1
  {
    hide *;
    Opening(t, depth, strtod);
    if t[0] == '[' {
      d := ArraySound(t, depth, strtod);
    } else if t[0] == '{' {
      d := ObjectSound(t, depth, strtod);
    } else {
      d := ScalarSound(t, depth, strtod);
    }
    EndsAlways(d, ParseToken(t, depth, strtod).rest);
  }

  lemma Opening(t: string, depth: nat, strtod: Strtod)
    requires ParseToken(t, depth, strtod).Done?
    ensures t != ""
  {
  }

  lemma EndsAlways(d: Doc, rest: string)
    ensures !d.NumberDoc? ==> DocEnds(d, rest)
  {
  }

  lemma ScalarSound(t: string, depth: nat, strtod: Strtod) returns (d: Doc)
    requires ParseToken(t, depth, strtod).Done? && t[0] != '[' && t[0] != '{'
    ensures var rest := ParseToken(t, depth, strtod).rest;
      ValidDoc(d) && DocEnds(d, rest) && t == DocText(d) + rest
  {
    hide ParseNumber, ParseString, NumberEnds, NumberText, ValidNumber, ValidLetters, LettersText;
    if t[0] == '-' || IsDigit(t[0]) {
      var n := NumberSound(t, strtod);
      d := NumberDoc(n);
    } else if t[0] == '\"' {
      var letters := StringSound(t[1..], "", -1);
      d := StringDoc(letters);
      assert t == "\"" + t[1..];
    } else {
      d := if t[0] == 't' then TrueDoc else if t[0] == 'f' then FalseDoc else NullDoc;
    }
  }

  lemma {:induction false} ArraySound(t: string, depth: nat, strtod: Strtod) returns (d: Doc)
    requires ParseToken(t, depth, strtod).Done? && t[0] == '['
    ensures ValidDoc(d) && d.ArrayDoc? && t == DocText(d) + ParseToken(t, depth, strtod).rest
    decreases |t|, 0
  {
    hide *;
    ArrayToken(t, depth, strtod);
    var ws := SkipSplit(t[1..]);
    var u := Skip(t[1..]);
    var rest := ParseToken(t, depth, strtod).rest;
    if u[0] == ']' {
      d := ArrayDoc([], ws);
      EmptyEnclosed(t, ws, u, rest);
    } else {
      var items := ItemsSound(u, depth, [], strtod);
      Preceded(ws, items);
      d := ArrayDoc([Spaced(ws, items[0])] + items[1..], "");
      Enclosed(t, ws, ItemsLine(items), rest, "]");
    }
    ArrayShape(d, rest);
  }

  lemma ArrayToken(t: string, depth: nat, strtod: Strtod)
    requires ParseToken(t, depth, strtod).Done? && t[0] == '['
    ensures var u, r := Skip(t[1..]), ParseToken(t, depth, strtod);
      && u != "" && |u| < |t|
      && if u[0] == ']' then u[1..] == r.rest else ParseItems(u, depth, [], strtod) == r
  {
    hide ParseItems;
  }

  lemma EmptyEnclosed(t: string, ws: string, u: string, rest: string)
    requires t != "" && u != "" && t[1..] == ws + u && rest == u[1..]
    ensures t == [t[0]] + ws + [u[0]] + rest
  {
  }

  lemma Enclosed(t: string, ws: string, line: string, rest: string, close: string)
    requires t != "" && t[1..] == ws + (line + close + rest)
    ensures t == [t[0]] + (ws + line) + close + rest
  {
  }

  lemma ArrayShape(d: Doc, rest: string)
    requires d.ArrayDoc?
    ensures Blank(d.blank) && ValidItems(d.items) ==> ValidDoc(d)
    ensures DocText(d) == "[" + (if d.items == [] then d.blank else ItemsLine(d.items)) + "]"
    ensures ValidItems([])
  {
    hide ItemsLine, Blank;
  }

  function Spaced(ws: string, i: Item): Item { i.(before := ws + i.before) }

  /** White space in front of the first item. */
  lemma Preceded(ws: string, items: seq<Item>)
    requires Blank(ws) && items != [] && ValidItems(items)
    ensures ValidItems([Spaced(ws, items[0])] + items[1..])
    ensures ItemsLine([Spaced(ws, items[0])] + items[1..]) == ws + ItemsLine(items)
    ensures Blank("")
  {
    var i, others := items[0], items[1..];
    assert ValidItem(i) && ValidItem(Spaced(ws, i)) by { hide ValidDoc; }
    hide *;
    assert [i] + others == items;
    ItemsJoined(i, others);
    ItemsJoined(Spaced(ws, i), others);
    SpacedLine(ws, i);
    if others != [] { Regroup(ws, ItemLine(i), "," + ItemsLine(others)); }
    Nothing();
  }

  lemma SpacedLine(ws: string, i: Item)
    ensures ItemLine(Spaced(ws, i)) == ws + ItemLine(i)
    ensures ws + (ItemLine(i) + "") == ws + ItemLine(i) + ""
  {
    hide DocText;
  }

  lemma Nothing()
    ensures Blank("")
  {
  }

  lemma {:induction false} ItemsSound(t: string, depth: nat, before: seq<Json>, strtod: Strtod)
    returns (items: seq<Item>)
    requires ParseItems(t, depth, before, strtod).Done?
    ensures items != [] && ValidItems(items)
    ensures t == ItemsLine(items) + "]" + ParseItems(t, depth, before, strtod).rest
    decreases |t|, 3
  {
    hide ParseValue, MoreItems, DocText, ItemsLine, ValidItems, Skip;
    var ws, d := ValueSound(t, depth + 1, strtod);
    var v, more := ParseValue(t, depth + 1, strtod).value, ParseValue(t, depth + 1, strtod).rest;
    var after, others := MoreItemsSound(more, depth, before + [v], strtod);
    items := [Item(ws, d, after)] + others;
    ItemsJoined(Item(ws, d, after), others);
  }

  lemma ItemsJoined(i: Item, others: seq<Item>)
    requires ValidItem(i) && ValidItems(others)
    ensures ValidItems([i] + others)
    ensures ItemsLine([i] + others) == ItemLine(i) + if others == [] then "" else "," + ItemsLine(others)
  {
    assert ([i] + others)[1..] == others;
    hide ItemLine, ValidItem;
  }

  lemma {:induction false} MoreItemsSound(t: string, depth: nat, items: seq<Json>, strtod: Strtod)
    returns (after: string, others: seq<Item>)
    requires MoreItems(t, depth, items, strtod).Done?
    ensures Blank(after) && ValidItems(others)
    ensures t == after + (if others == [] then "" else "," + ItemsLine(others)) + "]"
      + MoreItems(t, depth, items, strtod).rest
    decreases |t|, 3
  {
    hide *;
    MoreItemsAre(t, depth, items, strtod);
    after := SkipSplit(t);
    var u := Skip(t);
    var rest := MoreItems(t, depth, items, strtod).rest;
    if u[0] == ']' {
      others := [];
      NoneLeft(after, u, rest, "]");
    } else {
      var ws := SkipSplit(u[1..]);
      var more := ItemsSound(Skip(u[1..]), depth, items, strtod);
      Preceded(ws, more);
      others := [Spaced(ws, more[0])] + more[1..];
      SomeLeft(after, u, ws, ItemsLine(more), rest, "]");
    }
  }

  lemma MoreItemsAre(t: string, depth: nat, items: seq<Json>, strtod: Strtod)
    requires MoreItems(t, depth, items, strtod).Done?
    ensures var u, r := Skip(t), MoreItems(t, depth, items, strtod);
      && u != "" && |u| <= |t|
      && (u[0] == ']' || (u[0] == ',' && |Skip(u[1..])| < |u| && ParseItems(Skip(u[1..]), depth, items, strtod) == r))
      && (u[0] == ']' ==> u[1..] == r.rest)
    ensures ValidItems([])
  {
    hide ParseItems;
  }

  lemma NoneLeft(after: string, u: string, rest: string, close: string)
    requires u != "" && close == [u[0]] && u[1..] == rest
    ensures after + u == after + "" + close + rest
  {
  }

  lemma SomeLeft(after: string, u: string, ws: string, line: string, rest: string, close: string)
    requires u != "" && u[0] == ',' && u[1..] == ws + (line + close + rest)
    ensures after + u == after + ("," + (ws + line)) + close + rest
  {
  }

  // Objects

  lemma {:induction false} ObjectSound(t: string, depth: nat, strtod: Strtod) returns (d: Doc)
    requires ParseToken(t, depth, strtod).Done? && t[0] == '{'
    ensures ValidDoc(d) && d.ObjectDoc? && t == DocText(d) + ParseToken(t, depth, strtod).rest
    decreases |t|, 0
  {
    hide *;
    ObjectToken(t, depth, strtod);
    var ws := SkipSplit(t[1..]);
    var u := Skip(t[1..]);
    var rest := ParseToken(t, depth, strtod).rest;
    if u[0] == '}' {
      d := ObjectDoc([], ws);
      EmptyEnclosed(t, ws, u, rest);
    } else {
      var members := MembersSound(u, depth, [], strtod);
      MembersPreceded(ws, members);
      d := ObjectDoc([SpacedMember(ws, members[0])] + members[1..], "");
      Enclosed(t, ws, MembersLine(members), rest, "}");
    }
    ObjectShape(d, rest);
  }

  lemma ObjectToken(t: string, depth: nat, strtod: Strtod)
    requires ParseToken(t, depth, strtod).Done? && t[0] == '{'
    ensures var u, r := Skip(t[1..]), ParseToken(t, depth, strtod);
      && u != "" && |u| < |t|
      && if u[0] == '}' then u[1..] == r.rest else ParseMembers(u, depth, [], strtod) == r
  {
    hide Skip;
  }

  lemma ObjectShape(d: Doc, rest: string)
    requires d.ObjectDoc?
    ensures Blank(d.blank) && ValidMembers(d.members) ==> ValidDoc(d)
    ensures DocText(d) == "{" + (if d.members == [] then d.blank else MembersLine(d.members)) + "}"
    ensures ValidMembers([])
  {
    hide MembersLine, Blank;
  }

  function SpacedMember(ws: string, m: Member): Member { m.(before := ws + m.before) }

  lemma MembersPreceded(ws: string, members: seq<Member>)
    requires Blank(ws) && members != [] && ValidMembers(members)
    ensures ValidMembers([SpacedMember(ws, members[0])] + members[1..])
    ensures MembersLine([SpacedMember(ws, members[0])] + members[1..]) == ws + MembersLine(members)
    ensures Blank("")
  {
    var m, others := members[0], members[1..];
    assert ValidMember(m) && ValidMember(SpacedMember(ws, m)) by { hide ValidItem, ValidLetters; }
    hide *;
    assert [m] + others == members;
    MembersJoined(m, others);
    MembersJoined(SpacedMember(ws, m), others);
    SpacedMemberLine(ws, m);
    if others != [] { Regroup(ws, MemberLine(m), "," + MembersLine(others)); }
    Nothing();
  }

  lemma SpacedMemberLine(ws: string, m: Member)
    ensures MemberLine(SpacedMember(ws, m)) == ws + MemberLine(m)
    ensures ws + (MemberLine(m) + "") == ws + MemberLine(m) + ""
  {
    hide ItemLine, Quoted;
  }

  lemma {:induction false} MembersSound(t: string, depth: nat, before: seq<Entry>, strtod: Strtod)
    returns (members: seq<Member>)
    requires ParseMembers(t, depth, before, strtod).Done?
    ensures members != [] && ValidMembers(members)
    ensures t == MembersLine(members) + "}" + ParseMembers(t, depth, before, strtod).rest
    decreases |t|, 3
  {
    hide *;
    MemberThere(t, depth, before, strtod);
    var letters := StringSound(t[1..], "", -1);
    var key, rest := ParseString(t[1..], "", -1).value, ParseString(t[1..], "", -1).rest;
    var colon := SkipSplit(rest);
    var u := Skip(rest)[1..];
    var ws, d := ValueSound(u, depth + 1, strtod);
    var v, more := ParseValue(u, depth + 1, strtod).value, ParseValue(u, depth + 1, strtod).rest;
    var after, others := MoreMembersSound(more, depth, Insert(before, key, v), strtod);
    var m := Member("", letters, colon, Item(ws, d, after));
    members := [m] + others;
    MemberValid(m);
    MembersJoined(m, others);
    var line := if others == [] then "" else "," + MembersLine(others);
    LineOf(m, t, rest, Skip(rest), u, more, line, ParseMembers(t, depth, before, strtod).rest);
  }

  lemma MemberValid(m: Member)
    requires m.before == "" && ValidLetters(m.key) && Blank(m.colon)
    requires Blank(m.item.before) && ValidDoc(m.item.doc) && Blank(m.item.after)
    ensures ValidMember(m)
  {
    hide ValidDoc, ValidLetters;
  }

  /** The key, the colon and the value of an accepted member. */
  lemma MemberThere(t: string, depth: nat, before: seq<Entry>, strtod: Strtod)
    requires ParseMembers(t, depth, before, strtod).Done?
    ensures t != "" && t == "\"" + t[1..] && ParseString(t[1..], "", -1).Done?
    ensures
      var key, rest := ParseString(t[1..], "", -1).value, ParseString(t[1..], "", -1).rest;
      var u := Skip(rest);
      && u != "" && u == ":" + u[1..] && |u| < |t| && ParseValue(u[1..], depth + 1, strtod).Done?
      && var r := ParseValue(u[1..], depth + 1, strtod);
         |r.rest| < |t|
         && MoreMembers(r.rest, depth, Insert(before, key, r.value), strtod) == ParseMembers(t, depth, before, strtod)
  {
    hide ParseValue, ParseString, MoreMembers, Insert;
  }

  /** The text of a member and of what follows it, piece by piece. */
  lemma LineOf(m: Member, t: string, rest: string, v: string, u: string, more: string, line: string, left: string)
    requires m.before == "" && t != "" && t == "\"" + t[1..] && t[1..] == LettersText(m.key) + "\"" + rest
    requires rest == m.colon + v && v == ":" + u && u == m.item.before + DocText(m.item.doc) + more
    requires more == m.item.after + line + "}" + left
    ensures t == MemberLine(m) + line + "}" + left
  {
    hide DocText, LettersText;
    Pieces(m.item.before, DocText(m.item.doc), m.item.after, line, left);
    assert u == ItemLine(m.item) + line + "}" + left;
    hide ItemLine;
  }

  lemma Pieces(a: string, b: string, c: string, line: string, left: string)
    ensures a + b + (c + line + "}" + left) == a + b + c + line + "}" + left
  {
  }

  lemma MembersJoined(m: Member, others: seq<Member>)
    requires ValidMember(m) && ValidMembers(others)
    ensures ValidMembers([m] + others)
    ensures MembersLine([m] + others) == MemberLine(m) + if others == [] then "" else "," + MembersLine(others)
  {
    assert ([m] + others)[1..] == others;
    hide MemberLine, ValidMember;
  }

  lemma {:induction false} MoreMembersSound(t: string, depth: nat, members: seq<Entry>, strtod: Strtod)
    returns (after: string, others: seq<Member>)
    requires MoreMembers(t, depth, members, strtod).Done?
    ensures Blank(after) && ValidMembers(others)
    ensures t == after + (if others == [] then "" else "," + MembersLine(others)) + "}"
      + MoreMembers(t, depth, members, strtod).rest
    decreases |t|, 3
  {
    hide *;
    MoreMembersAre(t, depth, members, strtod);
    after := SkipSplit(t);
    var u := Skip(t);
    var rest := MoreMembers(t, depth, members, strtod).rest;
    if u[0] == '}' {
      others := [];
      NoneLeft(after, u, rest, "}");
    } else {
      var ws := SkipSplit(u[1..]);
      var more := MembersSound(Skip(u[1..]), depth, members, strtod);
      MembersPreceded(ws, more);
      others := [SpacedMember(ws, more[0])] + more[1..];
      SomeLeft(after, u, ws, MembersLine(more), rest, "}");
    }
  }

  lemma MoreMembersAre(t: string, depth: nat, members: seq<Entry>, strtod: Strtod)
    requires MoreMembers(t, depth, members, strtod).Done?
    ensures var u, r := Skip(t), MoreMembers(t, depth, members, strtod);
      && u != "" && |u| <= |t|
      && (u[0] == '}' || u[0] == ',')
      && (u[0] == ',' ==> |Skip(u[1..])| < |u| && ParseMembers(Skip(u[1..]), depth, members, strtod) == r)
      && (u[0] == '}' ==> u[1..] == r.rest)
    ensures ValidMembers([])
  {
    hide ParseMembers;
  }

  // Both directions

  /** A JSON text: a value of the grammar with white space before and behind it. */
  predicate Written(text: string, a: string, d: Doc, b: string) {
    Blank(a) && ValidDoc(d) && Blank(b) && text == a + DocText(d) + b
  }

  ghost predicate IsJson(text: string) { exists a, d, b :: Written(text, a, d, b) && Depth(d) <= 200 }

  /** A text of the grammar is parsed to its value, unless it is nested too deep. */
  lemma WrittenParsed(text: string, a: string, d: Doc, b: string, strtod: Strtod)
    requires Written(text, a, d, b)
    ensures Parse(text, strtod) == Verdict(Depth(d) <= 200, DocValue(d, strtod), "")
  {
    BlankEnds(d, b);
    hide DocText, ParseValue, Depth, DocEnds, DocValue, Blank;
    DocParsed(a, d, b, 0, strtod);
    BlankSkipped(b, "");
    assert b + "" == b;
  }

  lemma WrittenValue(text: string, a: string, d: Doc, b: string, strtod: Strtod)
    requires Written(text, a, d, b) && Parse(text, strtod).Done?
    ensures ValidDoc(d) && Parse(text, strtod).value == DocValue(d, strtod)
  {
    hide Parse, DocText, Blank, DocValue, Depth, ValidDoc;
    WrittenParsed(text, a, d, b, strtod);
  }

  lemma BlankEnds(d: Doc, b: string)
    requires Blank(b)
    ensures DocEnds(d, b)
  {
  }

  /** Exactly the texts of the grammar that are nested at most 200 deep are accepted. */
  lemma AcceptedIsJson(text: string, strtod: Strtod)
    ensures Parse(text, strtod).Done? <==> IsJson(text)
  {
    if Parse(text, strtod).Done? {
      var a, d := ValueSound(text, 0, strtod);
      var b := SkipSplit(ParseValue(text, 0, strtod).rest);
      assert Written(text, a, d, b) by { hide ValidDoc, DocText, Blank, ParseValue; }
      WrittenParsed(text, a, d, b, strtod);
      assert Depth(d) <= 200 by { hide Depth; }
    }
    forall a, d, b | Written(text, a, d, b) && Depth(d) <= 200 ensures Parse(text, strtod).Done? {
      WrittenParsed(text, a, d, b, strtod);
    }
  }
}
