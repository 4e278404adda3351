/** The printer of json11.cpp, and printing followed by parsing. */
module JsonPrinter {
  import opened Json
  import opened JsonGrammar
  import opened JsonMap
  import opened JsonParser
  import opened JsonRoundTrip
  import opened Sequences

  /** The text of a string, character by character. */
  method DumpString(value: string, before: string) returns (out: string)
    ensures out == before + StringText(value)
  {
    out := before + "\"";
    ghost var target := out + Escape(value);
    assert value[0..] == value;
    var i := 0;
    while i < |value|
      invariant 0 <= i <= |value| && out + Escape(value[i..]) == target
    {
      hide Piece, Escape, StringText;
      Onward(out, value, i);
      var piece := DumpCharacter(value, i);
      out := out + piece;
      i := i + if Separator(value[i..]) then 3 else 1;
    }
    out := out + "\"";
    Enclosed(before, "\"", Escape(value), "\"");
  }

  /** The text and what is left to print are the same after the character at `i`. */
  lemma Onward(out: string, value: string, i: nat)
    requires i < |value|
    ensures var rest, n := value[i..], PieceLength(value[i..]);
      i + n <= |value| && out + Escape(rest) == out + Piece(rest) + Escape(value[i + n..])
  {
    hide Piece, Escape, PieceLength;
    var rest := value[i..];
    EscapeStep(rest);
    assert rest[PieceLength(rest)..] == value[i + PieceLength(rest)..];
    Regroup(out, Piece(rest), Escape(rest[PieceLength(rest)..]));
  }

  lemma Enclosed(before: string, open: string, x: string, close: string)
    ensures before + open + x + close == before + (open + x + close)
  {
  }

  method DumpCharacter(value: string, i: nat) returns (piece: string)
    requires i < |value|
    ensures piece == Piece(value[i..])
  {
    var ch := value[i];
    assert Separator(value[i..]) ==> |value| > i + 2 && value[i..][2] == value[i + 2];
    assert At(value[i..], 0) == ch && At(value[i..], 1) == At(value, i + 1) && At(value[i..], 2) == At(value, i + 2);
    if ch == '\\' {
      piece := "\\\\";
    } else if ch == '\"' {
      piece := "\\\"";
    } else if ch as int == 0x08 {
      piece := "\\b";
    } else if ch as int == 0x0C {
      piece := "\\f";
    } else if ch == '\n' {
      piece := "\\n";
    } else if ch == '\r' {
      piece := "\\r";
    } else if ch == '\t' {
      piece := "\\t";
    } else if ch as int <= 0x1F {
      piece := "\\u" + Hex4(ch as int);
    } else if ch as int == 0xE2 && At(value, i + 1) as int == 0x80 && At(value, i + 2) as int == 0xA8 {
      piece := "\\u2028";
    } else if ch as int == 0xE2 && At(value, i + 1) as int == 0x80 && At(value, i + 2) as int == 0xA9 {
      piece := "\\u2029";
    } else {
      piece := [ch];
    }
  }

  /** Json::dump. */
  method Dump(v: Json, before: string) returns (out: string)
    requires Plain(v)
    ensures out == before + Text(v)
    decreases v, 1
  {
    match v {
      case Null => out := before + "null";
      case Bool(b) => out := before + if b then "true" else "false";
      case Int(n) => out := before + IntText(n);
      case Str(s) => out := DumpString(s, before);
      case Arr(items) => out := DumpArray(items, before);
      case Obj(members) => out := DumpObject(members, before);
    }
  }

  method DumpArray(items: seq<Json>, before: string) returns (out: string)
    requires forall k :: 0 <= k < |items| ==> Plain(items[k])
    ensures out == before + Text(Arr(items))
    decreases items, 0
  {
    hide *;
    var first := true;
    out := before + "[";
    ghost var target := out + ItemsText(items);
    ItemsLeftEnds(items);
    Suffixes(items, |items|);
    for k := 0 to |items|
      invariant first == (k == 0) && out + ItemsLeft(items[k..], first) == target
    {
      Suffixes(items, k);
      ItemsLeftStep(items[k..], first, out);
      if !first { out := out + ", "; }
      out := Dump(items[k], out);
      first := false;
    }
    assert out + "" == out;
    out := out + "]";
    Enclosed(before, "[", ItemsText(items), "]");
  }

  lemma Suffixes<T>(s: seq<T>, k: nat)
    requires k <= |s|
    ensures k < |s| ==> s[k..] != [] && s[k..][0] == s[k] && s[k..][1..] == s[k + 1..]
    ensures s[0..] == s && s[|s|..] == []
  {
  }

  lemma ItemsLeftEnds(items: seq<Json>)
    ensures ItemsLeft(items, true) == ItemsText(items) && forall first :: ItemsLeft([], first) == ""
    ensures Text(Arr(items)) == "[" + ItemsText(items) + "]"
  {
  }

  /** What is still to be printed of an array. */
  function ItemsLeft(items: seq<Json>, first: bool): string {
    if items == [] then "" else if first then ItemsText(items) else ", " + ItemsText(items)
  }

  lemma ItemsLeftStep(items: seq<Json>, first: bool, out: string)
    requires items != []
    ensures out + ItemsLeft(items, first) ==
      out + (if first then "" else ", ") + Text(items[0]) + ItemsLeft(items[1..], false)
  {
    hide Text;
    assert ItemsText(items) == Text(items[0]) + ItemsLeft(items[1..], false) by {
      assert |items| == 1 ==> items[1..] == [];
      Regroup(Text(items[0]), ", ", ItemsText(items[1..]));
    }
    hide ItemsText;
    Separated(out, Text(items[0]), ItemsLeft(items[1..], false));
  }

  lemma Separated(out: string, a: string, b: string)
    ensures out + (a + b) == out + "" + a + b && out + (", " + (a + b)) == out + ", " + a + b
  {
  }

  method DumpObject(members: seq<Entry>, before: string) returns (out: string)
    requires forall k :: 0 <= k < |members| ==> Plain(members[k].value)
    ensures out == before + Text(Obj(members))
    decreases members, 0
  {
    hide *;
    var first := true;
    out := before + "{";
    ghost var target := out + MembersText(members);
    MembersLeftEnds(members);
    Suffixes(members, |members|);
    for k := 0 to |members|
      invariant first == (k == 0) && out + MembersLeft(members[k..], first) == target
    {
      Suffixes(members, k);
      MembersLeftStep(members[k..], first, out);
      if !first { out := out + ", "; }
      out := DumpMember(members[k], out);
      first := false;
    }
    assert out + "" == out;
    out := out + "}";
    Enclosed(before, "{", MembersText(members), "}");
  }

  lemma MembersLeftEnds(members: seq<Entry>)
    ensures MembersLeft(members, true) == MembersText(members) && forall first :: MembersLeft([], first) == ""
    ensures Text(Obj(members)) == "{" + MembersText(members) + "}"
  {
  }

  method DumpMember(m: Entry, before: string) returns (out: string)
    requires Plain(m.value)
    ensures out == before + MemberText(m)
    decreases m, 0
  {
    hide Text, StringText;
    out := DumpString(m.key, before);
    out := out + ": ";
    out := Dump(m.value, out);
    Enclosed(before, StringText(m.key), ": ", Text(m.value));
  }

  /** What is still to be printed of an object. */
  function MembersLeft(members: seq<Entry>, first: bool): string {
    if members == [] then "" else if first then MembersText(members) else ", " + MembersText(members)
  }

  lemma MembersLeftStep(members: seq<Entry>, first: bool, out: string)
    requires members != []
    ensures out + MembersLeft(members, first) ==
      out + (if first then "" else ", ") + MemberText(members[0]) + MembersLeft(members[1..], false)
  {
    hide MemberText;
    assert MembersText(members) == MemberText(members[0]) + MembersLeft(members[1..], false) by {
      assert |members| == 1 ==> members[1..] == [];
      Regroup(MemberText(members[0]), ", ", MembersText(members[1..]));
    }
    hide MembersText;
    Separated(out, MemberText(members[0]), MembersLeft(members[1..], false));
  }

  /** Print a value and parse the text: this succeeds exactly for values nested at most 200 deep, with an equal one. */
  method DumpAndParse(v: Json, strtod: Strtod) returns (w: Json, ok: bool)
    requires Plain(v) && ExactOnInts(strtod)
    ensures ok <==> Height(v) <= 200
    ensures ok ==> Equal(w, v)
  {
    hide Text, Parse, Height, Equal, Plain, ExactOnInts;
    var text := Dump(v, "");
    assert "" + Text(v) == Text(v);
    w, ok := ParseText(text, strtod);
    RoundTrip(v, strtod);
  }
}
