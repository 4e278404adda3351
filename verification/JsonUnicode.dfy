/** Escaped UTF-16 in JSON strings becomes UTF-8. */
module JsonUnicode {
  import opened Json
  import opened JsonGrammar
  import opened JsonRoundTrip

  predicate Units(us: seq<int>) { forall k :: 0 <= k < |us| ==> 0 <= us[k] < 0x10000 }

  /** 16-bit units as \u escapes (section 7 of RFC 8259). */
  function UnitsText(us: seq<int>): string
    requires Units(us)
  {
    if us == [] then "" else "\\u" + Hex4(us[0]) + UnitsText(us[1..])
  }

  /** Code points of a sequence of units: a lead followed by a trail surrogate is one, everything else stands for
      itself. */
  function Joined(us: seq<int>): (r: seq<int>)
    requires Units(us)
    ensures forall k :: 0 <= k < |r| ==> 0 <= r[k] < 0x110000
    decreases |us|
  {
    if us == [] then []
    else if |us| >= 2 && Lead(us[0]) && Trail(us[1]) then [Join(us[0], us[1])] + Joined(us[2..])
    else [us[0]] + Joined(us[1..])
  }

  function Utf8s(pts: seq<int>): string
    requires forall k :: 0 <= k < |pts| ==> 0 <= pts[k] < 0x110000
  {
    if pts == [] then "" else Utf8(pts[0]) + Utf8s(pts[1..])
  }

  /** The code point that is pending before the units `us`, if any. */
  function Pending(p: int, us: seq<int>): seq<int> { if p < 0 then us else [p] + us }

  /** The parser, with its one pending code point, joins surrogate pairs from left to right. */
  lemma {:induction false} UnitsParsed(us: seq<int>, rest: string, out: string, p: int)
    requires Units(us) && -1 <= p < 0x10000
    ensures Units(Pending(p, us))
    ensures ParseString(UnitsText(us) + "\"" + rest, out, p) == Done(out + Utf8s(Joined(Pending(p, us))), rest)
    decreases |us|
  {
    if us == [] {
      NoUnits(rest, out, p);
    } else {
      var n, more := us[0], us[1..];
      var tail := UnitsText(more) + "\"" + rest;
      assert UnitsText(us) + "\"" + rest == "\\u" + Hex4(n) + tail;
      UnicodeEscape(n, tail, out, p);
      assert p < 0 ==> out + Utf8(p) == out;
      assert [n] + more == us;
      JoinedFirst(p, us);
      hide ParseString, UnitsText, Hex4, Joined, Utf8, Utf8s;
      if Lead(p) && Trail(n) {
        UnitsParsed(more, rest, out + Utf8(Join(p, n)), -1);
        Taken(out, Join(p, n), Joined(more));
      } else {
        UnitsParsed(more, rest, out + Utf8(p), n);
        if p >= 0 { Taken(out, p, Joined(us)); }
      }
    }
  }

  lemma JoinedFirst(p: int, us: seq<int>)
    requires Units(us) && us != [] && -1 <= p < 0x10000
    ensures Units([p] + us) || p < 0
    ensures p >= 0 && Lead(p) && Trail(us[0]) ==> Joined([p] + us) == [Join(p, us[0])] + Joined(us[1..])
    ensures p >= 0 && !(Lead(p) && Trail(us[0])) ==> Joined([p] + us) == [p] + Joined(us)
  {
    assert ([p] + us)[1..] == us && ([p] + us)[2..] == us[1..];
  }

  lemma NoUnits(rest: string, out: string, p: int)
    requires -1 <= p < 0x10000
    ensures Units(Pending(p, []))
    ensures ParseString(UnitsText([]) + "\"" + rest, out, p) == Done(out + Utf8s(Joined(Pending(p, []))), rest)
  {
    assert UnitsText([]) + "\"" + rest == "\"" + rest && ("\"" + rest)[1..] == rest;
    if p >= 0 {
      assert Pending(p, []) == [p] && [p][1..] == [];
      assert Joined([p]) == [p];
      assert Utf8s([p]) == Utf8(p) + "" == Utf8(p);
    }
  }

  lemma Taken(out: string, pt: int, pts: seq<int>)
    requires 0 <= pt < 0x110000 && forall k :: 0 <= k < |pts| ==> 0 <= pts[k] < 0x110000
    ensures out + Utf8(pt) + Utf8s(pts) == out + Utf8s([pt] + pts)
  {
    assert ([pt] + pts)[1..] == pts;
  }

  // Scalar values

  predicate Scalar(pt: int) { 0 <= pt < 0xD800 || 0xE000 <= pt < 0x110000 }

  predicate Scalars(pts: seq<int>) { forall k :: 0 <= k < |pts| ==> Scalar(pts[k]) }

  function UnitsOf(pt: int): (us: seq<int>)
    requires Scalar(pt)
    ensures us != [] && Units(us)
  {
    if pt < 0x10000 then [pt] else [0xD800 + (pt - 0x10000) / 0x400, 0xDC00 + (pt - 0x10000) % 0x400]
  }

  /** UTF-16 (section 2.1 of RFC 2781). */
  function Utf16(pts: seq<int>): (us: seq<int>)
    requires Scalars(pts)
    ensures Units(us)
  {
    if pts == [] then [] else UnitsOf(pts[0]) + Utf16(pts[1..])
  }

  lemma {:induction false} Utf16Joined(pts: seq<int>)
    requires Scalars(pts)
    ensures Joined(Utf16(pts)) == pts
  {
    if pts != [] {
      var pt, us := pts[0], Utf16(pts[1..]);
      Utf16Joined(pts[1..]);
      if pt < 0x10000 {
        assert ([pt] + us)[1..] == us;
      } else {
        var u := UnitsOf(pt);
        assert (u + us)[2..] == us && Join(u[0], u[1]) == pt;
      }
    }
  }

  /** A string whose characters are all written as escapes of their UTF-16 form is read as their UTF-8 form. */
  lemma EscapedScalars(pts: seq<int>, rest: string)
    requires Scalars(pts)
    ensures ParseString(UnitsText(Utf16(pts)) + "\"" + rest, "", -1) == Done(Utf8s(pts), rest)
  {
    Utf16Joined(pts);
    UnitsParsed(Utf16(pts), rest, "", -1);
    assert "" + Utf8s(pts) == Utf8s(pts);
  }

  predicate Marked(c: char, marker: int, size: int) { marker <= c as int < marker + size }

  /** The markers of the bytes of a UTF-8 sequence (section 3 of RFC 3629). */
  predicate WellMarked(b: string) {
    && 1 <= |b| <= 4 && (forall k :: 1 <= k < |b| ==> Marked(b[k], 0x80, 0x40))
    && if |b| == 1 then Marked(b[0], 0, 0x80) else if |b| == 2 then Marked(b[0], 0xC0, 0x20)
       else if |b| == 3 then Marked(b[0], 0xE0, 0x10) else Marked(b[0], 0xF0, 0x08)
  }

  /** The bits between the markers. */
  function CodePoint(b: string): int
    requires WellMarked(b)
  {
    var n := |b|;
    if n == 1 then b[0] as int
    else if n == 2 then 0x40 * (b[0] as int - 0xC0) + (b[1] as int - 0x80)
    else if n == 3 then 0x1000 * (b[0] as int - 0xE0) + 0x40 * (b[1] as int - 0x80) + (b[2] as int - 0x80)
    else
      var low := 0x1000 * (b[1] as int - 0x80) + 0x40 * (b[2] as int - 0x80) + (b[3] as int - 0x80);
      0x40000 * (b[0] as int - 0xF0) + low
  }

  /** UTF-8 keeps the code point, in as few bytes as the standard demands. */
  lemma Utf8Kept(pt: int)
    requires 0 <= pt < 0x110000
    ensures WellMarked(Utf8(pt)) && CodePoint(Utf8(pt)) == pt
    ensures |Utf8(pt)| == if pt < 0x80 then 1 else if pt < 0x800 then 2 else if pt < 0x10000 then 3 else 4
  {
    assert pt / 0x40 / 0x40 == pt / 0x1000 && pt / 0x1000 / 0x40 == pt / 0x40000;
  }
}
