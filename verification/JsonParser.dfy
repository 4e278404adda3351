/** The parser of json11.cpp. */
module JsonParser {
  import opened Json
  import opened JsonGrammar
  import opened JsonSyntax
  import JsonSound

  class JsonParser {
    const str: string
    const strtod: Strtod
    var i: nat
    var failed: bool

    ghost predicate Valid()
      reads this
    {
      i <= |str|
    }

    /** What is left to parse. */
    ghost function Rest(): string
      requires Valid()
      reads this
    {
      str[i..]
    }

    /** The parser agrees with a result: it has failed, or it has the value and the same text is left. */
    ghost predicate Agrees<T>(result: Parsed<T>, value: T)
      requires Valid()
      reads this
    {
      if result.Done? then !failed && value == result.value && Rest() == result.rest else failed
    }

    constructor (text: string, strtod: Strtod)
      ensures Valid() && str == text && this.strtod == strtod && i == 0 && !failed
    {
      str, this.strtod, i, failed := text, strtod, 0, false;
    }

    method ConsumeWhitespace()
      requires Valid()
      modifies this`i
      ensures Valid() && Rest() == Skip(old(Rest())) && i >= old(i)
    {
      while Space(At(str, i))
        decreases |str| - i
        invariant Valid() && i >= old(i) && Skip(Rest()) == Skip(old(Rest()))
      {
        assert str[i..][1..] == str[i + 1..];
        i := i + 1;
      }
      assert i < |str| ==> str[i] == str[i..][0];
    }

    /** The next character that is not white space; at the end of the text, failure and NUL. */
    method GetNextToken() returns (ch: char)
      requires Valid()
      modifies this
      ensures Valid() && i >= old(i) && (old(failed) ==> failed)
      ensures var t := Skip(old(Rest()));
        if t == "" then failed && ch == '\0' && i == |str|
        else failed == old(failed) && ch == t[0] && i > old(i) && str[i - 1..] == t
    {
      ConsumeWhitespace();
      if i == |str| {
        failed := true;
        return '\0';
      }
      i := i + 1;
      return str[i - 1];
    }

    method ParseStringBody() returns (out: string)
      requires Valid() && !failed
      modifies this
      ensures Valid() && i >= old(i) && Agrees(ParseString(old(Rest()), "", -1), out)
    {
      hide Utf8;
      ghost var result := ParseString(str[i..], "", -1);
      out := "";
      var pending := -1;
      while true
        invariant Valid() && !failed && i >= old(i) && -1 <= pending < 0x10000
        invariant ParseString(Rest(), out, pending) == result
        decreases |str| - i
      {
        ghost var t := str[i..];
        if i == |str| {
          failed := true;
          return "";
        }
        var ch := str[i];
        i := i + 1;
        assert t[1..] == str[i..];
        if ch == '\"' {
          out := out + Utf8(pending);
          return;
        }
        if ch as int <= 0x1F {
          failed := true;
          return "";
        }
        if ch != '\\' {
          out := out + Utf8(pending);
          pending := -1;
          out := out + [ch];
          continue;
        }
        if i == |str| {
          failed := true;
          return "";
        }
        ch := str[i];
        i := i + 1;
        assert t[2..] == str[i..];
        if ch == 'u' {
          out, pending := ParseCodeUnit(t, out, pending);
          if failed { return ""; }
          continue;
        }
        out := out + Utf8(pending);
        pending := -1;
        if !Simple(ch) {
          failed := true;
          return "";
        }
        out := out + [Unescaped(ch)];
      }
    }

    /** Four hexadecimal digits behind a \\u at the start of `t`. */
    method ParseCodeUnit(ghost t: string, before: string, last: int) returns (out: string, pending: int)
      requires Valid() && !failed && |t| >= 2 && t[0] == '\\' && t[1] == 'u' && t[2..] == Rest() && -1 <= last < 0x10000
      modifies this
      ensures Valid() && i >= old(i) && -1 <= pending < 0x10000
      ensures if failed then ParseString(t, before, last) == Failed
        else i > old(i) && ParseString(Rest(), out, pending) == ParseString(t, before, last)
    {
      hide Utf8, HexCode;
      out, pending := before, last;
      var esc := str[i..if i + 4 <= |str| then i + 4 else |str|];
      SubstrHex(t[2..], esc);
      if !FourHex(esc) {
        failed := true;
        return;
      }
      var codepoint := HexCode(esc);
      assert t[6..] == str[i + 4..];
      if Lead(pending) && Trail(codepoint) {
        out := out + Utf8(Join(pending, codepoint));
        pending := -1;
      } else {
        out := out + Utf8(pending);
        pending := codepoint;
      }
      i := i + 4;
    }

    /** Skip digits. */
    method Digits()
      requires Valid()
      modifies this`i
      ensures Valid() && Rest() == DropDigits(old(Rest())) && i >= old(i)
    {
      while IsDigit(At(str, i))
        decreases |str| - i
        invariant Valid() && i >= old(i) && DropDigits(Rest()) == DropDigits(old(Rest()))
      {
        assert str[i..][1..] == str[i + 1..];
        i := i + 1;
      }
      assert i < |str| ==> str[i] == str[i..][0];
    }

    method ParseNumberBody() returns (v: Json)
      requires Valid() && !failed
      modifies this
      ensures Valid() && i >= old(i) && Agrees(ParseNumber(old(Rest()), strtod), v)
    {
      hide Atoi, ParseInteger, ParseFraction, ParseExponent;
      ghost var t := str[i..];
      var start := i;
      v := Null;
      IntegerPart();
      if failed { return; }
      ghost var u := str[i..];
      assert Consumed(t, u) == str[start..i];
      assert Head(u) == At(str, i);
      if At(str, i) != '.' && At(str, i) != 'e' && At(str, i) != 'E' && i - start <= DIGITS10 {
        v := Int(Atoi(str[start..i]));
        return;
      }
      DecimalPart();
      if failed { return; }
      ExponentPart();
      if failed { return; }
      assert Consumed(t, str[i..]) == str[start..i];
      v := Double(strtod(str[start..i]));
    }

    method IntegerPart()
      requires Valid() && !failed
      modifies this
      ensures Valid() && i >= old(i) && Agrees(ParseInteger(old(Rest())), ())
    {
      ghost var t := str[i..];
      if At(str, i) == '-' {
        i := i + 1;
      }
      ghost var u := str[i..];
      assert u == AfterSign(t);
      assert Head(u) == At(str, i) && At(u, 1) == At(str, i + 1);
      if At(str, i) == '0' {
        i := i + 1;
        assert u[1..] == str[i..];
        if IsDigit(At(str, i)) {
          failed := true;
        }
      } else if IsDigit(At(str, i)) {
        i := i + 1;
        assert u[1..] == str[i..] && DropDigits(u) == DropDigits(u[1..]);
        Digits();
      } else {
        failed := true;
      }
    }

    method DecimalPart()
      requires Valid() && !failed
      modifies this
      ensures Valid() && i >= old(i) && Agrees(ParseFraction(old(Rest())), ())
    {
      ghost var t := str[i..];
      assert Head(t) == At(str, i) && At(t, 1) == At(str, i + 1);
      if At(str, i) == '.' {
        i := i + 1;
        assert t[1..] == str[i..];
        if !IsDigit(At(str, i)) {
          failed := true;
          return;
        }
        Digits();
      }
    }

    method ExponentPart()
      requires Valid() && !failed
      modifies this
      ensures Valid() && i >= old(i) && Agrees(ParseExponent(old(Rest())), ())
    {
      ghost var t := str[i..];
      assert Head(t) == At(str, i) && At(t, 1) == At(str, i + 1);
      if At(str, i) == 'e' || At(str, i) == 'E' {
        i := i + 1;
        if At(str, i) == '+' || At(str, i) == '-' {
          i := i + 1;
          assert t[2..] == str[i..];
        }
        assert str[i..] == if At(t, 1) == '+' || At(t, 1) == '-' then t[2..] else t[1..];
        assert Head(str[i..]) == At(str, i);
        if !IsDigit(At(str, i)) {
          failed := true;
          return;
        }
        Digits();
      }
    }

    /** `expected` starts at the character that was just read. */
    method ExpectWord(expected: string, res: Json) returns (v: Json)
      requires Valid() && !failed && i > 0 && expected != ""
      modifies this
      ensures Valid() && i >= old(i) - 1 && Agrees(Expect(old(str[i - 1..]), expected, res), v)
    {
      i := i - 1;
      ghost var t := str[i..];
      if i + |expected| <= |str| && str[i..i + |expected|] == expected {
        assert t[..|expected|] == expected;
        i := i + |expected|;
        return res;
      }
      failed := true;
      return Null;
    }

    /** One value. The depth bounds the recursion; on a text that ends early the parser steps back over a character it
        has read, but only when it has failed already. */
    method ParseJson(depth: nat) returns (v: Json)
      requires Valid() && depth <= MAX_DEPTH + 1
      modifies this
      ensures Valid()
      ensures if old(failed) then failed else Agrees(ParseValue(old(Rest()), depth, strtod), v)
      decreases MAX_DEPTH + 1 - depth, 4
    {
      hide ParseToken, Skip;
      if depth > MAX_DEPTH {
        failed := true;
        return Null;
      }
      var ch := GetNextToken();
      if failed {
        NoToken(depth, strtod);
        return Null;
      }
      v := Dispatch(ch, depth);
    }

    /** The value that starts with the character that was just read. */
    method Dispatch(ch: char, depth: nat) returns (v: Json)
      requires Valid() && !failed && i > 0 && ch == str[i - 1] && depth <= MAX_DEPTH
      modifies this
      ensures Valid() && Agrees(ParseToken(old(str[i - 1..]), depth, strtod), v)
      decreases MAX_DEPTH + 1 - depth, 3
    {
      hide ParseNumber, ParseString, Expect, ParseItems, ParseMembers, Skip;
      ghost var t := str[i - 1..];
      assert t != "" && t[0] == ch && t[1..] == str[i..];
      if ch == '-' || IsDigit(ch) {
        i := i - 1;
        v := ParseNumberBody();
      } else if ch == 't' {
        v := ExpectWord("true", Bool(true));
      } else if ch == 'f' {
        v := ExpectWord("false", Bool(false));
      } else if ch == 'n' {
        v := ExpectWord("null", Null);
      } else if ch == '\"' {
        var s := ParseStringBody();
        v := Str(s);
      } else if ch == '{' {
        v := ParseObject(depth);
      } else if ch == '[' {
        v := ParseArray(depth);
      } else {
        failed := true;
        v := Null;
      }
    }

    method ParseArray(depth: nat) returns (v: Json)
      requires Valid() && !failed && i > 0 && str[i - 1] == '[' && depth <= MAX_DEPTH
      modifies this
      ensures Valid() && Agrees(ParseToken(old(str[i - 1..]), depth, strtod), v)
      decreases MAX_DEPTH + 1 - depth, 2
    {
      ghost var result := ParseToken(str[i - 1..], depth, strtod);
      ghost var u := Skip(str[i..]);
      ArrayToken(str[i - 1..], str[i..], depth, strtod);
      hide ParseToken, ParseItems, MoreItems, Skip;
      v := Null;
      var data: seq<Json> := [];
      var ch := GetNextToken();
      if ch == ']' {
        Behind(u, str[i..]);
        return Arr(data);
      }
      while true
        invariant Valid() && i > 0
        invariant if failed then result == Failed else ParseItems(str[i - 1..], depth, data, strtod) == result
        decreases !failed, |str| - i
      {
        var item, done;
        item, done := ParseItem(depth, data);
        if failed { return Null; }
        data := data + [item];
        if done { return Arr(data); }
        ch := GetNextToken();
      }
    }

    /** One element and the bracket or comma behind it. */
    method ParseItem(depth: nat, ghost data: seq<Json>) returns (item: Json, done: bool)
      requires Valid() && i > 0 && depth <= MAX_DEPTH
      modifies this
      ensures Valid()
      ensures failed ==> old(failed) || ParseItems(old(str[i - 1..]), depth, data, strtod) == Failed
      ensures !failed ==> !old(failed) && i > old(i)
      ensures !failed && done ==> Agrees(ParseItems(old(str[i - 1..]), depth, data, strtod), Arr(data + [item]))
      ensures failed || done || ParseItems(old(str[i - 1..]), depth, data, strtod)
        == (if Skip(Rest()) == "" then Failed else ParseItems(Skip(Rest()), depth, data + [item], strtod))
      decreases MAX_DEPTH + 1 - depth, 1
    {
      done := false;
      ghost var t := str[i - 1..];
      i := i - 1;
      item := ParseJson(depth + 1);
      if failed { return; }
      ghost var rest := str[i..];
      var ch := GetNextToken();
      Behind(Skip(rest), str[i..]);
      if ch == ']' {
        done := true;
        return;
      }
      if ch != ',' {
        failed := true;
        return;
      }
    }

    method ParseObject(depth: nat) returns (v: Json)
      requires Valid() && !failed && i > 0 && str[i - 1] == '{' && depth <= MAX_DEPTH
      modifies this
      ensures Valid() && Agrees(ParseToken(old(str[i - 1..]), depth, strtod), v)
      decreases MAX_DEPTH + 1 - depth, 2
    {
      ghost var result := ParseToken(str[i - 1..], depth, strtod);
      ghost var u := Skip(str[i..]);
      ObjectToken(str[i - 1..], str[i..], depth, strtod);
      hide ParseToken, ParseMembers, MoreMembers, Skip;
      v := Null;
      var data: seq<Entry> := [];
      var ch := GetNextToken();
      if ch == '}' {
        Behind(u, str[i..]);
        return Obj(data);
      }
      while true
        invariant Valid() && i > 0
        invariant if failed then ch == '\0' && result == Failed
          else ch == str[i - 1] && ParseMembers(str[i - 1..], depth, data, strtod) == result
        decreases !failed, |str| - i
      {
        var key, value, done;
        key, value, done := ParseMember(depth, ch, data);
        if failed { return Null; }
        data := Insert(data, key, value);
        if done { break; }
        ch := GetNextToken();
      }
      return Obj(data);
    }

    /** One entry and the brace or comma behind it. */
    method ParseMember(depth: nat, first: char, ghost data: seq<Entry>) returns (key: string, value: Json, done: bool)
      requires Valid() && i > 0 && depth <= MAX_DEPTH && first == (if failed then '\0' else str[i - 1])
      modifies this
      ensures Valid()
      ensures failed ==> old(failed) || ParseMembers(old(str[i - 1..]), depth, data, strtod) == Failed
      ensures !failed ==> !old(failed) && i > old(i)
      ensures !failed && done ==>
        Agrees(ParseMembers(old(str[i - 1..]), depth, data, strtod), Obj(Insert(data, key, value)))
      ensures failed || done || ParseMembers(old(str[i - 1..]), depth, data, strtod)
        == ParseMembers(Skip(Rest()), depth, Insert(data, key, value), strtod)
      decreases MAX_DEPTH + 1 - depth, 1
    {
      done := false;
      key, value := ParseEntry(depth, first, data);
      if failed { return; }
      hide ParseMembers, Insert;
      var ch := GetNextToken();
      if ch == '}' {
        done := true;
        return;
      }
      if ch != ',' {
        failed := true;
        return;
      }
    }

    /** The key, the colon and the value of an entry. */
    method ParseEntry(depth: nat, first: char, ghost data: seq<Entry>) returns (key: string, value: Json)
      requires Valid() && i > 0 && depth <= MAX_DEPTH && first == (if failed then '\0' else str[i - 1])
      modifies this
      ensures Valid()
      ensures failed ==> old(failed) || ParseMembers(old(str[i - 1..]), depth, data, strtod) == Failed
      ensures !failed ==> !old(failed) && i > old(i)
      ensures failed
        || ParseMembers(old(str[i - 1..]), depth, data, strtod)
          == MoreMembers(Rest(), depth, Insert(data, key, value), strtod)
      decreases MAX_DEPTH + 1 - depth, 0
    {
      hide MoreMembers, Insert, ParseString, ParseValue;
      key, value := "", Null;
      if first != '\"' {
        failed := true;
        return;
      }
      ghost var t := str[i - 1..];
      assert t[1..] == str[i..];
      key := ParseStringBody();
      if failed { return; }
      var ch := GetNextToken();
      if ch != ':' {
        failed := true;
        return;
      }
      value := ParseJson(depth + 1);
    }
  }

  /** Json::parse: the texts of the grammar that are nested at most 200 deep have a value, and no others. */
  method ParseText(text: string, strtod: Strtod) returns (v: Json, ok: bool)
    ensures ok == Parse(text, strtod).Done?
    ensures ok ==> v == Parse(text, strtod).value
    ensures ok <==> JsonSound.IsJson(text)
    ensures forall a, d, b :: ok && JsonSound.Written(text, a, d, b) ==> v == DocValue(d, strtod)
  {
    hide *;
    v, ok := ParseWhole(text, strtod);
    JsonSound.AcceptedIsJson(text, strtod);
    forall a, d, b | ok && JsonSound.Written(text, a, d, b) ensures ValidDoc(d) && v == DocValue(d, strtod) {
      JsonSound.WrittenValue(text, a, d, b, strtod);
    }
  }

  method ParseWhole(text: string, strtod: Strtod) returns (v: Json, ok: bool)
    ensures ok == Parse(text, strtod).Done?
    ensures ok ==> v == Parse(text, strtod).value
  {
    hide ParseValue, Skip;
    var parser := new JsonParser(text, strtod);
    assert text[0..] == text;
    v := parser.ParseJson(0);
    parser.ConsumeWhitespace();
    if parser.i != |text| {
      parser.failed := true;
    }
    ok := !parser.failed;
  }

  /** A text without its first character. */
  lemma Behind(t: string, rest: string)
    requires t != "" ==> t == [t[0]] + rest
    ensures t != "" ==> t[1..] == rest
  {
  }

  lemma NoToken(depth: nat, strtod: Strtod)
    ensures ParseToken("", depth, strtod) == Failed
  {
  }

  lemma ArrayToken(t: string, rest: string, depth: nat, strtod: Strtod)
    requires t == "[" + rest
    ensures var u := Skip(rest);
      ParseToken(t, depth, strtod) == if u == "" then Failed else if u[0] == ']' then Done(Arr([]), u[1..])
        else ParseItems(u, depth, [], strtod)
  {
    assert t[1..] == rest;
    hide Skip, ParseItems;
  }

  lemma ObjectToken(t: string, rest: string, depth: nat, strtod: Strtod)
    requires t == "{" + rest
    ensures var u := Skip(rest);
      ParseToken(t, depth, strtod) ==
        if Head(u) == '}' then Done(Obj([]), u[1..]) else ParseMembers(u, depth, [], strtod)
    ensures ParseMembers("", depth, [], strtod) == Failed
  {
    assert t[1..] == rest;
  }

  lemma SubstrHex(t: string, esc: string)
    requires esc == t[..if |t| < 4 then |t| else 4]
    ensures FourHex(t) == FourHex(esc)
    ensures FourHex(t) ==> |t| >= 4 && HexCode(t) == HexCode(esc)
  {
  }
}
