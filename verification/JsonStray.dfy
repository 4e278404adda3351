/** A text with a character between its tokens that the grammar does not allow there is refused, whatever follows. */
module JsonStray {
  import opened Json
  import opened JsonGrammar
  import opened JsonSyntax
  import opened JsonAccepts
  import opened Sequences

  /** The start of a text up to a misplaced character `c`: where a value must start, behind a value, where a key must
      start or where a colon must stand, in an array or object that may itself stand in others. */
  datatype Stray =
    | NoValue(before: string, c: char)
    | InItem(before: string, items: seq<Item>, inner: Stray)
    | BehindItem(before: string, items: seq<Item>, item: Item, c: char)
    | InMember(before: string, members: seq<Member>, key: Key, inner: Stray)
    | NoKey(before: string, members: seq<Member>, blank: string, c: char)
    | NoColon(before: string, members: seq<Member>, key: Key, c: char)
    | BehindMember(before: string, members: seq<Member>, member: Member, c: char)

  /** A key with the white space around it. */
  datatype Key = Key(before: string, letters: seq<Letter>, after: string)

  predicate ValidKey(k: Key) { Blank(k.before) && ValidLetters(k.letters) && Blank(k.after) }

  function KeyLine(k: Key): string { k.before + Quoted(k.letters) + k.after }

  predicate ValidStray(s: Stray) {
    Blank(s.before) &&
    match s
    case NoValue(_, c) => !BlankChar(c) && c !in "-0123456789tfn\"[{"
    case InItem(_, items, inner) =>
      ValidItems(items) && ValidStray(inner) && !(items == [] && inner.NoValue? && inner.c == ']')
    case BehindItem(_, items, i, c) =>
      && ValidItems(items) && ValidItem(i) && !BlankChar(c) && c != ',' && c != ']'
      && DocEnds(i.doc, i.after + [c])
    case InMember(_, members, key, inner) => ValidMembers(members) && ValidKey(key) && ValidStray(inner)
    case NoKey(_, members, blank, c) =>
      ValidMembers(members) && Blank(blank) && !BlankChar(c) && c != '\"' && !(members == [] && c == '}')
    case NoColon(_, members, key, c) => ValidMembers(members) && ValidKey(key) && !BlankChar(c) && c != ':'
    case BehindMember(_, members, m, c) =>
      && ValidMembers(members) && ValidMember(m) && !BlankChar(c) && c != ',' && c != '}'
      && DocEnds(m.item.doc, m.item.after + [c])
  }

  function StrayText(s: Stray): string { s.before + Core(s) }

  /** The text from the first token on. */
  function Core(s: Stray): string {
    match s
    case NoValue(_, c) => [c]
    case InItem(_, items, inner) => "[" + (CommaItems(items) + (inner.before + Core(inner)))
    case BehindItem(_, items, i, c) => "[" + (CommaItems(items) + (ItemLine(i) + [c]))
    case InMember(_, members, key, inner) =>
      "{" + (CommaMembers(members) + (KeyLine(key) + ":" + (inner.before + Core(inner))))
    case NoKey(_, members, blank, c) => "{" + (CommaMembers(members) + (blank + [c]))
    case NoColon(_, members, key, c) => "{" + (CommaMembers(members) + (KeyLine(key) + [c]))
    case BehindMember(_, members, m, c) => "{" + (CommaMembers(members) + (MemberLine(m) + [c]))
  }

  lemma CoreStarts(s: Stray)
    requires ValidStray(s)
    ensures Core(s) != "" && !BlankChar(Core(s)[0]) && Blank(s.before)
    ensures Core(s)[0] == if s.NoValue? then s.c else if s.InItem? || s.BehindItem? then '[' else '{'
  {
    hide Blank, ValidItems, ValidMembers, ValidLetters, ItemLine, MemberLine, KeyLine, CommaItems, CommaMembers;
  }

  lemma CoreFirst(s: Stray, rest: string)
    requires ValidStray(s)
    ensures Skip(StrayText(s) + rest) == Core(s) + rest && Core(s) != "" && (Core(s) + rest)[0] == Core(s)[0]
  {
    CoreStarts(s);
    hide Core, ValidStray, Blank;
    assert StrayText(s) + rest == s.before + (Core(s) + rest);
    BlankSkipped(s.before, Core(s) + rest);
    NothingSkipped(Core(s) + rest);
  }

  /** No text that starts like this has a value. */
  lemma {:induction false} StrayFails(s: Stray, rest: string, depth: nat, strtod: Strtod)
    requires ValidStray(s)
    ensures ParseValue(StrayText(s) + rest, depth, strtod) == Failed
    decreases s
  {
    hide *;
    TokenThere(s, rest, depth, strtod);
    match s {
      case NoValue(_, _) => NoToken(s, rest, depth, strtod);
      case InItem(_, _, inner) =>
        InnerValid(s);
        StrayFails(inner, rest, depth + 1, strtod);
        InItemFails(s, rest, depth, strtod);
      case BehindItem(_, _, _, _) => BehindItemFails(s, rest, depth, strtod);
      case InMember(_, _, _, inner) =>
        InnerValid(s);
        StrayFails(inner, rest, depth + 1, strtod);
        InMemberFails(s, rest, depth, strtod);
      case NoKey(_, _, _, _) => NoKeyFails(s, rest, depth, strtod);
      case NoColon(_, _, _, _) => NoColonFails(s, rest, depth, strtod);
      case BehindMember(_, _, _, _) => BehindMemberFails(s, rest, depth, strtod);
    }
  }

  lemma InnerValid(s: Stray)
    requires ValidStray(s)
    ensures s.InItem? || s.InMember? ==> ValidStray(s.inner)
  {
    hide Blank, ValidItems, ValidMembers, ValidKey;
  }

  lemma TokenThere(s: Stray, rest: string, depth: nat, strtod: Strtod)
    requires ValidStray(s)
    ensures ParseToken(Core(s) + rest, depth, strtod) == Failed ==>
      ParseValue(StrayText(s) + rest, depth, strtod) == Failed
  {
    CoreFirst(s, rest);
    hide Core, ParseToken, Skip, ValidStray, StrayText;
  }

  lemma NoToken(s: Stray, rest: string, depth: nat, strtod: Strtod)
    requires ValidStray(s) && s.NoValue?
    ensures ParseToken(Core(s) + rest, depth, strtod) == Failed
  {
    assert (Core(s) + rest)[0] == s.c;
  }

  // Arrays

  /** An array is refused if what follows some of its items is. */
  lemma ArrayFails(items: seq<Item>, tail: string, depth: nat, strtod: Strtod)
    requires ValidItems(items) && (items == [] ==> Skip(tail) != "" && Skip(tail)[0] != ']')
    requires ParseItems(Skip(tail), depth, ItemsValue(items, strtod), strtod) == Failed
    ensures ParseToken("[" + (CommaItems(items) + tail), depth, strtod) == Failed
  {
    hide *;
    var x := CommaItems(items) + tail;
    ItemsOrTail(items, tail);
    ArrayOpened(x, depth, strtod);
    ItemsBefore(items, tail, [], depth, strtod);
    assert [] + ItemsValue(items, strtod) == ItemsValue(items, strtod);
  }

  lemma ItemsOrTail(items: seq<Item>, tail: string)
    requires ValidItems(items) && (items == [] ==> Skip(tail) != "" && Skip(tail)[0] != ']')
    ensures var u := Skip(CommaItems(items) + tail); u != "" && u[0] != ']'
  {
    hide Skip, ItemLine, ValidItem;
    if items == [] {
      assert CommaItems(items) + tail == tail;
    } else {
      var y := "," + CommaItems(items[1..]) + tail;
      assert CommaItems(items) + tail == ItemLine(items[0]) + y;
      ItemFirst(items[0], y);
    }
  }

  lemma InItemFails(s: Stray, rest: string, depth: nat, strtod: Strtod)
    requires ValidStray(s) && s.InItem?
    requires ParseValue(StrayText(s.inner) + rest, depth + 1, strtod) == Failed
    ensures ParseToken(Core(s) + rest, depth, strtod) == Failed
  {
    var inner, tail := s.inner, StrayText(s.inner) + rest;
    assert Core(s) + rest == "[" + (CommaItems(s.items) + tail) by { hide CommaItems; }
    assert ValidItems(s.items) && ValidStray(inner) by { hide ValidItems; }
    CoreFirst(inner, rest);
    CoreStarts(inner);
    assert s.items == [] ==> Skip(tail)[0] != ']' by { hide ValidItems, Core, Skip; }
    hide *;
    SkippedFails(tail, depth, ItemsValue(s.items, strtod), strtod);
    ArrayFails(s.items, tail, depth, strtod);
  }

  lemma SkippedFails(tail: string, depth: nat, items: seq<Json>, strtod: Strtod)
    requires ParseValue(tail, depth + 1, strtod) == Failed
    ensures ParseItems(Skip(tail), depth, items, strtod) == Failed
  {
    SkipTwice(tail);
    hide Skip, ParseToken;
  }

  lemma SkipTwice(t: string)
    ensures Skip(Skip(t)) == Skip(t)
  {
    NothingSkipped(Skip(t));
  }

  lemma BehindItemFails(s: Stray, rest: string, depth: nat, strtod: Strtod)
    requires ValidStray(s) && s.BehindItem?
    ensures ParseToken(Core(s) + rest, depth, strtod) == Failed
  {
    var i, y := s.item, [s.c] + rest;
    assert Core(s) + rest == "[" + (CommaItems(s.items) + (ItemLine(i) + y)) by { hide CommaItems, ItemLine; }
    StillEnds(i.doc, i.after, s.c, rest) by { hide DocEnds, Blank, ValidDoc; }
    assert ValidItem(i) && Blank(i.after) && ValidItems(s.items) by { hide ValidItems, Blank; }
    StrayBehindItem(i.after, s.c, rest, depth, ItemsValue(s.items, strtod) + [DocValue(i.doc, strtod)], strtod);
    hide *;
    ItemFirst(i, y);
    ItemParsed(i, y, ItemsValue(s.items, strtod), depth, strtod);
    ArrayFails(s.items, ItemLine(i) + y, depth, strtod);
  }

  lemma StillEnds(d: Doc, after: string, c: char, rest: string)
    requires DocEnds(d, after + [c])
    ensures DocEnds(d, after + ([c] + rest))
  {
    assert (after + ([c] + rest))[0] == (after + [c])[0];
  }

  lemma StrayBehindItem(after: string, c: char, rest: string, depth: nat, items: seq<Json>, strtod: Strtod)
    requires Blank(after) && !BlankChar(c) && c != ',' && c != ']'
    ensures MoreItems(after + ([c] + rest), depth, items, strtod) == Failed
  {
    BlankSkipped(after, [c] + rest);
    NothingSkipped([c] + rest);
    hide Skip, ParseItems;
  }

  // Objects

  /** An object is refused if what follows some of its members is. */
  lemma ObjectFails(members: seq<Member>, tail: string, depth: nat, strtod: Strtod)
    requires ValidMembers(members) && (members == [] ==> Head(Skip(tail)) != '}')
    requires ParseMembers(Skip(tail), depth, MembersValue([], members, strtod), strtod) == Failed
    ensures ParseToken("{" + (CommaMembers(members) + tail), depth, strtod) == Failed
  {
    hide *;
    var x := CommaMembers(members) + tail;
    MembersOrTail(members, tail);
    ObjectOpened(x, depth, strtod);
    MembersBefore(members, tail, [], depth, strtod);
  }

  lemma MembersOrTail(members: seq<Member>, tail: string)
    requires ValidMembers(members) && (members == [] ==> Head(Skip(tail)) != '}')
    ensures Head(Skip(CommaMembers(members) + tail)) != '}'
  {
    hide Skip, MemberLine, ValidMember;
    if members == [] {
      assert CommaMembers(members) + tail == tail;
    } else {
      var y := "," + CommaMembers(members[1..]) + tail;
      assert CommaMembers(members) + tail == MemberLine(members[0]) + y;
      KeyParsed(members[0], y);
    }
  }

  lemma InMemberFails(s: Stray, rest: string, depth: nat, strtod: Strtod)
    requires ValidStray(s) && s.InMember?
    requires ParseValue(StrayText(s.inner) + rest, depth + 1, strtod) == Failed
    ensures ParseToken(Core(s) + rest, depth, strtod) == Failed
  {
    var key, u := s.key, ":" + (StrayText(s.inner) + rest);
    assert Core(s) + rest == "{" + (CommaMembers(s.members) + (KeyLine(key) + u)) by { hide CommaMembers, KeyLine; }
    assert ValidMembers(s.members) && ValidKey(key) by { hide ValidMembers, ValidKey, Blank; }
    KeyLineRead(key, u);
    KeyFails(KeyLine(key) + u, depth, MembersValue([], s.members, strtod), strtod) by {
      assert u[1..] == StrayText(s.inner) + rest;
      hide KeyLine, Skip, ParseString, ParseValue, StrayText, Meaning, ValidKey;
    }
    hide *;
    ObjectFails(s.members, KeyLine(key) + u, depth, strtod);
  }

  lemma KeyLineRead(key: Key, u: string)
    requires ValidKey(key) && u != "" && !BlankChar(u[0])
    ensures var t := Skip(KeyLine(key) + u);
      && Head(t) == '\"' && t != "" && ParseString(t[1..], "", -1) == Done(Meaning(key.letters), key.after + u)
      && Skip(key.after + u) == u
  {
    hide Quoted, ParseString, Meaning, Skip, Blank, ValidLetters;
    KeyRead(key.before, key.letters, key.after, u);
  }

  /** A key without a colon and a value behind it. */
  lemma KeyFails(tail: string, depth: nat, members: seq<Entry>, strtod: Strtod)
    requires var t := Skip(tail);
      t != "" && Head(t) == '\"' && ParseString(t[1..], "", -1).Done? &&
      var u := Skip(ParseString(t[1..], "", -1).rest);
      u != "" && (u[0] != ':' || ParseValue(u[1..], depth + 1, strtod) == Failed)
    ensures ParseMembers(Skip(tail), depth, members, strtod) == Failed
    ensures Head(Skip(tail)) != '}'
  {
    hide ParseValue, ParseString, Skip;
  }

  lemma NoColonFails(s: Stray, rest: string, depth: nat, strtod: Strtod)
    requires ValidStray(s) && s.NoColon?
    ensures ParseToken(Core(s) + rest, depth, strtod) == Failed
  {
    var key, u := s.key, [s.c] + rest;
    assert Core(s) + rest == "{" + (CommaMembers(s.members) + (KeyLine(key) + u)) by { hide CommaMembers, KeyLine; }
    assert ValidMembers(s.members) && ValidKey(key) by { hide ValidMembers, ValidKey, Blank; }
    KeyLineRead(key, u);
    KeyFails(KeyLine(key) + u, depth, MembersValue([], s.members, strtod), strtod) by {
      hide KeyLine, Skip, ParseString, ParseValue, Meaning, ValidKey;
    }
    hide *;
    ObjectFails(s.members, KeyLine(key) + u, depth, strtod);
  }

  lemma NoKeyFails(s: Stray, rest: string, depth: nat, strtod: Strtod)
    requires ValidStray(s) && s.NoKey?
    ensures ParseToken(Core(s) + rest, depth, strtod) == Failed
  {
    var u := [s.c] + rest;
    assert Core(s) + rest == "{" + (CommaMembers(s.members) + (s.blank + u)) by { hide CommaMembers; }
    assert ValidMembers(s.members) && Blank(s.blank) by { hide ValidMembers, Blank; }
    BlankSkipped(s.blank, u);
    NothingSkipped(u);
    assert Skip(s.blank + u) == u;
    QuoteMissing(u, depth, MembersValue([], s.members, strtod), strtod) by { hide ValidMembers; }
    hide *;
    ObjectFails(s.members, s.blank + u, depth, strtod);
  }

  lemma QuoteMissing(t: string, depth: nat, members: seq<Entry>, strtod: Strtod)
    requires Head(t) != '\"'
    ensures ParseMembers(t, depth, members, strtod) == Failed
  {
  }

  lemma BehindMemberFails(s: Stray, rest: string, depth: nat, strtod: Strtod)
    requires ValidStray(s) && s.BehindMember?
    ensures ParseToken(Core(s) + rest, depth, strtod) == Failed
  {
    var m, y := s.member, [s.c] + rest;
    var before := MembersValue([], s.members, strtod) by { hide ValidMembers; }
    assert Core(s) + rest == "{" + (CommaMembers(s.members) + (MemberLine(m) + y)) by { hide CommaMembers, MemberLine; }
    StillEnds(m.item.doc, m.item.after, s.c, rest) by { hide DocEnds, Blank, ValidDoc; }
    assert ValidMember(m) && Blank(m.item.after) && ValidMembers(s.members) by { hide ValidMembers, Blank; }
    StrayBehindMember(m.item.after, s.c, rest, depth, Added(before, m, strtod), strtod);
    KeyParsed(m, y);
    hide *;
    MemberParsed(m, y, before, depth, strtod);
    ObjectFails(s.members, MemberLine(m) + y, depth, strtod);
  }

  lemma StrayBehindMember(after: string, c: char, rest: string, depth: nat, members: seq<Entry>, strtod: Strtod)
    requires Blank(after) && !BlankChar(c) && c != ',' && c != '}'
    ensures MoreMembers(after + ([c] + rest), depth, members, strtod) == Failed
  {
    BlankSkipped(after, [c] + rest);
    NothingSkipped([c] + rest);
    hide Skip, ParseMembers;
  }

  // Whole texts

  /** Neither a misplaced character nor anything but white space behind the value is accepted. */
  lemma StrayRefused(s: Stray, rest: string, strtod: Strtod)
    requires ValidStray(s)
    ensures Parse(StrayText(s) + rest, strtod) == Failed
  {
    StrayFails(s, rest, 0, strtod);
  }

  lemma BehindRefused(a: string, d: Doc, b: string, c: char, rest: string, strtod: Strtod)
    requires Blank(a) && ValidDoc(d) && Blank(b) && !BlankChar(c) && DocEnds(d, b + [c])
    ensures Parse(a + DocText(d) + b + [c] + rest, strtod) == Failed
  {
    StillEnds(d, b, c, rest);
    hide ValidDoc, DocEnds, DocText, ParseValue, DocValue, Depth;
    var more := b + ([c] + rest);
    assert a + DocText(d) + b + [c] + rest == a + DocText(d) + more;
    DocParsed(a, d, more, 0, strtod);
    BlankSkipped(b, [c] + rest);
    NothingSkipped([c] + rest);
  }
}
