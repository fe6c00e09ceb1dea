/** `guid_to_string`: a GUID rendered as
    {XXXXXXXX-XXXX-XXXX-XXXX-XXXXXXXXXXXX}, the 8-4-4-4-12 layout of
    section 3 of RFC 4122 in upper-case hex, and a parser that reads that
    text back. */
module GuidText {
  import opened Common

  type Data4 = s: seq<byte> | |s| == 8 witness [0, 0, 0, 0, 0, 0, 0, 0]

  /** The Windows GUID structure: a 32-bit, two 16-bit and eight 8-bit fields. */
  datatype Guid = Guid(data1: uint32, data2: uint16, data3: uint16, data4: Data4)

  const HexDigits: string := "0123456789ABCDEF"

  function Pow16(n: nat): (r: nat)
    ensures r >= 1
  {
    if n == 0 then 1 else 16 * Pow16(n - 1)
  }

  lemma Pow16Values()
    ensures Pow16(2) == 0x100 && Pow16(4) == 0x1_0000 && Pow16(8) == 0x1_0000_0000
  {
    assert Pow16(1) == 16;
    assert Pow16(3) == 0x1000;
    assert Pow16(5) == 0x10_0000;
    assert Pow16(6) == 0x100_0000;
    assert Pow16(7) == 0x1000_0000;
  }

  predicate IsUpperHexDigit(c: char) {
    '0' <= c <= '9' || 'A' <= c <= 'F'
  }

  /** `%0<width>X`: exactly `width` upper-case hex digits of `n`, most
      significant first. */
  function Hex(n: nat, width: nat): (s: string)
    requires n < Pow16(width)
    ensures |s| == width && forall i :: 0 <= i < |s| ==> IsUpperHexDigit(s[i])
  {
    if width == 0 then ""
    else
      assert n / 16 < Pow16(width - 1);
      Hex(n / 16, width - 1) + [HexDigits[n % 16]]
  }

  /** The value of one upper-case hex digit. */
  function DigitValue(c: char): Option<nat> {
    if '0' <= c <= '9' then Some(c as int - '0' as int)
    else if 'A' <= c <= 'F' then Some(c as int - 'A' as int + 10)
    else None
  }

  lemma DigitValueOfDigit(d: nat)
    requires d < 16
    ensures DigitValue(HexDigits[d]) == Some(d)
  {
  }

  lemma DigitOfDigitValue(c: char)
    requires DigitValue(c).Some?
    ensures DigitValue(c).value < 16 && HexDigits[DigitValue(c).value] == c
  {
  }

  /** Reads a run of upper-case hex digits as a number. */
  function ParseHex(s: string): Option<nat> {
    if s == [] then Some(0)
    else
      match ParseHex(s[..|s| - 1])
      case None => None
      case Some(v) =>
        match DigitValue(s[|s| - 1])
        case None => None
        case Some(d) => Some(16 * v + d)
  }

  lemma {:induction false} ParseHexOfHex(n: nat, width: nat)
    requires n < Pow16(width)
    ensures ParseHex(Hex(n, width)) == Some(n)
  {
    if width > 0 {
      var s := Hex(n, width);
      assert n / 16 < Pow16(width - 1);
      ParseHexOfHex(n / 16, width - 1);
      DigitValueOfDigit(n % 16);
      assert s[..|s| - 1] == Hex(n / 16, width - 1);
    }
  }

  lemma {:induction false} HexOfParseHex(s: string)
    requires ParseHex(s).Some?
    ensures ParseHex(s).value < Pow16(|s|) && Hex(ParseHex(s).value, |s|) == s
  {
    if s != [] {
      var init, c := s[..|s| - 1], s[|s| - 1];
      HexOfParseHex(init);
      DigitOfDigitValue(c);
      var v, d := ParseHex(init).value, DigitValue(c).value;
      HexAppendDigit(v, d, |init|);
      assert ParseHex(s) == Some(16 * v + d);
      assert s == init + [c];
    }
  }

  /** One more digit on the right multiplies by 16 and adds its value. */
  lemma HexAppendDigit(v: nat, d: nat, w: nat)
    requires v < Pow16(w) && d < 16
    ensures 16 * v + d < Pow16(w + 1)
    ensures Hex(16 * v + d, w + 1) == Hex(v, w) + [HexDigits[d]]
  {
    var n := 16 * v + d;
    assert n / 16 == v && n % 16 == d;
  }

  /** One element of a fixed text layout: a literal character, or a number
      printed as exactly `width` hex digits. */
  datatype Field = Lit(c: char) | HexField(width: nat)

  /** `vs` supplies one value, small enough for its width, to every hex
      field of the layout. */
  predicate Fits(layout: seq<Field>, vs: seq<nat>) {
    if layout == [] then vs == []
    else match layout[0]
      case Lit(_) => Fits(layout[1..], vs)
      case HexField(w) => vs != [] && vs[0] < Pow16(w) && Fits(layout[1..], vs[1..])
  }

  function Format(layout: seq<Field>, vs: seq<nat>): string
    requires Fits(layout, vs)
  {
    if layout == [] then ""
    else match layout[0]
      case Lit(c) => [c] + Format(layout[1..], vs)
      case HexField(w) => Hex(vs[0], w) + Format(layout[1..], vs[1..])
  }

  function Parse(layout: seq<Field>, s: string): Option<seq<nat>> {
    if layout == [] then (if s == [] then Some([]) else None)
    else match layout[0]
      case Lit(c) => if s != [] && s[0] == c then Parse(layout[1..], s[1..]) else None
      case HexField(w) =>
        if |s| < w then None
        else match ParseHex(s[..w])
          case None => None
          case Some(v) =>
            match Parse(layout[1..], s[w..])
            case None => None
            case Some(vs) => Some([v] + vs)
  }

  lemma {:induction false} ParseOfFormat(layout: seq<Field>, vs: seq<nat>)
    requires Fits(layout, vs)
    ensures Parse(layout, Format(layout, vs)) == Some(vs)
  {
    if layout != [] {
      var s := Format(layout, vs);
      match layout[0]
      case Lit(c) =>
        ParseOfFormat(layout[1..], vs);
        assert s[1..] == Format(layout[1..], vs);
      case HexField(w) =>
        ParseOfFormat(layout[1..], vs[1..]);
        ParseHexOfHex(vs[0], w);
        assert s[..w] == Hex(vs[0], w);
        assert s[w..] == Format(layout[1..], vs[1..]);
        assert vs == [vs[0]] + vs[1..];
    }
  }

  lemma {:induction false} FormatOfParse(layout: seq<Field>, s: string)
    requires Parse(layout, s).Some?
    ensures Fits(layout, Parse(layout, s).value) && Format(layout, Parse(layout, s).value) == s
  {
    if layout != [] {
      var vs := Parse(layout, s).value;
      match layout[0]
      case Lit(c) =>
        FormatOfParse(layout[1..], s[1..]);
        assert s == [c] + s[1..];
      case HexField(w) =>
        FormatOfParse(layout[1..], s[w..]);
        HexOfParseHex(s[..w]);
        assert vs[1..] == Parse(layout[1..], s[w..]).value;
        assert s == s[..w] + s[w..];
    }
  }

  lemma {:induction false} FitsConcat(l1: seq<Field>, v1: seq<nat>, l2: seq<Field>, v2: seq<nat>)
    requires Fits(l1, v1) && Fits(l2, v2)
    ensures Fits(l1 + l2, v1 + v2)
  {
    if l1 == [] {
      assert l1 + l2 == l2 && v1 + v2 == v2;
    } else {
      assert (l1 + l2)[0] == l1[0] && (l1 + l2)[1..] == l1[1..] + l2;
      match l1[0]
      case Lit(_) => FitsConcat(l1[1..], v1, l2, v2);
      case HexField(_) =>
        FitsConcat(l1[1..], v1[1..], l2, v2);
        assert (v1 + v2)[1..] == v1[1..] + v2;
    }
  }

  lemma {:induction false} WidthConcat(l1: seq<Field>, l2: seq<Field>)
    ensures Width(l1 + l2) == Width(l1) + Width(l2)
  {
    if l1 == [] {
      assert l1 + l2 == l2;
    } else {
      assert (l1 + l2)[0] == l1[0] && (l1 + l2)[1..] == l1[1..] + l2;
      WidthConcat(l1[1..], l2);
    }
  }

  lemma {:induction false} FormatLength(layout: seq<Field>, vs: seq<nat>)
    requires Fits(layout, vs)
    ensures |Format(layout, vs)| == Width(layout)
  {
    if layout != [] {
      match layout[0]
      case Lit(_) => FormatLength(layout[1..], vs);
      case HexField(_) => FormatLength(layout[1..], vs[1..]);
    }
  }

  function Width(layout: seq<Field>): nat {
    if layout == [] then 0
    else match layout[0]
      case Lit(_) => 1 + Width(layout[1..])
      case HexField(w) => w + Width(layout[1..])
  }

  /** The layout of the `sprintf` format
      "{%08X-%04X-%04X-%02X%02X-%02X%02X%02X%02X%02X%02X}", in three parts:
      Data1 to Data3, Data4[0..2], Data4[2..8]. */
  const GuidHead: seq<Field> := [Lit('{'), HexField(8), Lit('-'), HexField(4), Lit('-'), HexField(4), Lit('-')]
  const GuidMiddle: seq<Field> := [HexField(2), HexField(2), Lit('-')]
  const GuidTail: seq<Field> := [HexField(2), HexField(2), HexField(2), HexField(2), HexField(2), HexField(2), Lit('}')]
  const GuidLayout: seq<Field> := GuidHead + GuidMiddle + GuidTail

  lemma GuidLayoutWidth()
    ensures Width(GuidLayout) == 38
  {
    WidthConcat(GuidHead, GuidMiddle);
    WidthConcat(GuidHead + GuidMiddle, GuidTail);
    var t := GuidTail;
    assert Width(t[6..]) == 1;
    assert Width(t[5..]) == 3;
    assert Width(t[4..]) == 5;
    assert Width(t[3..]) == 7;
    assert Width(t[2..]) == 9;
    assert Width(t[1..]) == 11;
    var h := GuidHead;
    assert Width(h[6..]) == 1;
    assert Width(h[5..]) == 5;
    assert Width(h[4..]) == 6;
    assert Width(h[3..]) == 10;
    assert Width(h[2..]) == 11;
    assert Width(h[1..]) == 19;
    var m := GuidMiddle;
    assert Width(m[1..]) == 3;
  }

  /** The values in the order the format prints them: Data1, Data2, Data3,
      then Data4[0] to Data4[7]. */
  function Values(g: Guid): seq<nat> {
    [g.data1 as nat, g.data2 as nat, g.data3 as nat] + seq(8, k requires 0 <= k < 8 => g.data4[k] as nat)
  }

  lemma ValuesFit(g: Guid)
    ensures Fits(GuidLayout, Values(g))
  {
    Pow16Values();
    var vs := Values(g);
    var v1, v2, v3 := vs[..3], vs[3..5], vs[5..];
    var h, m, t := GuidHead, GuidMiddle, GuidTail;
    assert Fits(h[5..], v1[2..]);
    assert Fits(h[3..], v1[1..]);
    assert Fits(h, v1);
    assert Fits(m[1..], v2[1..]);
    assert Fits(m, v2);
    assert Fits(t[6..], v3[6..]);
    assert Fits(t[5..], v3[5..]);
    assert Fits(t[4..], v3[4..]);
    assert Fits(t[3..], v3[3..]);
    assert Fits(t[2..], v3[2..]);
    assert Fits(t[1..], v3[1..]);
    assert Fits(t, v3);
    FitsConcat(h, v1, m, v2);
    FitsConcat(h + m, v1 + v2, t, v3);
    assert vs == v1 + v2 + v3;
  }

  /** `guid_to_string`. */
  function GuidToString(g: Guid): (r: string)
    ensures |r| == 38
  {
    ValuesFit(g);
    FormatLength(GuidLayout, Values(g));
    GuidLayoutWidth();
    Format(GuidLayout, Values(g))
  }

  lemma LitStep(c: char, rest: seq<Field>, vs: seq<nat>)
    requires Fits(rest, vs)
    ensures Fits([Lit(c)] + rest, vs)
    ensures Format([Lit(c)] + rest, vs) == [c] + Format(rest, vs)
  {
    assert ([Lit(c)] + rest)[1..] == rest;
  }

  lemma HexStep(w: nat, v: nat, rest: seq<Field>, vs: seq<nat>)
    requires v < Pow16(w) && Fits(rest, vs)
    ensures Fits([HexField(w)] + rest, [v] + vs)
    ensures Format([HexField(w)] + rest, [v] + vs) == Hex(v, w) + Format(rest, vs)
  {
    assert ([HexField(w)] + rest)[1..] == rest && ([v] + vs)[1..] == vs;
  }

  lemma HeadFormat(a: nat, b: nat, c: nat, rest: seq<Field>, vs: seq<nat>)
    requires a < Pow16(8) && b < Pow16(4) && c < Pow16(4) && Fits(rest, vs)
    ensures Fits(GuidHead + rest, [a, b, c] + vs)
    ensures Format(GuidHead + rest, [a, b, c] + vs)
            == "{" + Hex(a, 8) + "-" + Hex(b, 4) + "-" + Hex(c, 4) + "-" + Format(rest, vs)
  {
    LitStep('-', rest, vs);
    var l5 := [Lit('-')] + rest;
    HexStep(4, c, l5, vs);
    var l4 := [HexField(4)] + l5;
    LitStep('-', l4, [c] + vs);
    var l3 := [Lit('-')] + l4;
    HexStep(4, b, l3, [c] + vs);
    var l2 := [HexField(4)] + l3;
    LitStep('-', l2, [b] + ([c] + vs));
    var l1 := [Lit('-')] + l2;
    HexStep(8, a, l1, [b] + ([c] + vs));
    LitStep('{', [HexField(8)] + l1, [a] + ([b] + ([c] + vs)));
    assert GuidHead + rest == [Lit('{')] + ([HexField(8)] + l1);
    assert [a] + ([b] + ([c] + vs)) == [a, b, c] + vs;
  }

  lemma MiddleFormat(a: nat, b: nat, rest: seq<Field>, vs: seq<nat>)
    requires a < Pow16(2) && b < Pow16(2) && Fits(rest, vs)
    ensures Fits(GuidMiddle + rest, [a, b] + vs)
    ensures Format(GuidMiddle + rest, [a, b] + vs) == Hex(a, 2) + Hex(b, 2) + "-" + Format(rest, vs)
  {
    LitStep('-', rest, vs);
    var l2 := [Lit('-')] + rest;
    HexStep(2, b, l2, vs);
    var l1 := [HexField(2)] + l2;
    HexStep(2, a, l1, [b] + vs);
    assert GuidMiddle + rest == [HexField(2)] + l1;
    assert [a] + ([b] + vs) == [a, b] + vs;
  }

  lemma TailEndFormat(d: nat, e: nat, f: nat)
    requires d < 0x100 && e < 0x100 && f < 0x100
    ensures Fits(GuidTail[3..], [d, e, f])
    ensures Format(GuidTail[3..], [d, e, f]) == Hex(d, 2) + Hex(e, 2) + Hex(f, 2) + "}"
  {
    Pow16Values();
    var none: seq<nat> := [];
    assert Fits([], none) && Format([], none) == "";
    LitStep('}', [], none);
    var l6 := [Lit('}')];
    assert [Lit('}')] + [] == l6;
    HexStep(2, f, l6, none);
    var l5 := [HexField(2)] + l6;
    assert [f] + none == [f];
    HexStep(2, e, l5, [f]);
    var l4 := [HexField(2)] + l5;
    assert [e] + [f] == [e, f];
    HexStep(2, d, l4, [e, f]);
    assert [d] + [e, f] == [d, e, f];
    assert GuidTail[3..] == [HexField(2)] + l4;
  }

  lemma TailFormat(a: nat, b: nat, c: nat, d: nat, e: nat, f: nat)
    requires a < 0x100 && b < 0x100 && c < 0x100 && d < 0x100 && e < 0x100 && f < 0x100
    ensures Fits(GuidTail, [a, b, c, d, e, f])
    ensures Format(GuidTail, [a, b, c, d, e, f]) ==
      Hex(a, 2) + Hex(b, 2) + Hex(c, 2) + Hex(d, 2) + Hex(e, 2) + Hex(f, 2) + "}"
  {
    Pow16Values();
    TailEndFormat(d, e, f);
    var l3 := GuidTail[3..];
    HexStep(2, c, l3, [d, e, f]);
    var l2 := [HexField(2)] + l3;
    assert [c] + [d, e, f] == [c, d, e, f];
    HexStep(2, b, l2, [c, d, e, f]);
    var l1 := [HexField(2)] + l2;
    assert [b] + [c, d, e, f] == [b, c, d, e, f];
    HexStep(2, a, l1, [b, c, d, e, f]);
    assert [a] + [b, c, d, e, f] == [a, b, c, d, e, f];
    assert GuidTail == [HexField(2)] + l1;
  }

  /** The text is the format string with each field printed as
      upper-case hex of its fixed width: `{`, Data1 in 8 digits, `-`, Data2
      and Data3 in 4 digits each separated by `-`, `-`, Data4[0] and
      Data4[1], `-`, Data4[2] to Data4[7], `}`. */
  lemma {:induction false} GuidToStringLayout(g: Guid)
    ensures Pow16(8) == 0x1_0000_0000 && Pow16(4) == 0x1_0000 && Pow16(2) == 0x100
    ensures GuidToString(g) ==
      "{" + Hex(g.data1, 8) + "-" + Hex(g.data2, 4) + "-" + Hex(g.data3, 4) + "-"
      + (Hex(g.data4[0], 2) + Hex(g.data4[1], 2) + "-"
         + (Hex(g.data4[2], 2) + Hex(g.data4[3], 2) + Hex(g.data4[4], 2)
            + Hex(g.data4[5], 2) + Hex(g.data4[6], 2) + Hex(g.data4[7], 2) + "}"))
  {
    Pow16Values();
    ValuesSplit(g);
    LayoutSplit();
    var d := g.data4;
    var v2: seq<nat> := [d[0], d[1]];
    var v3: seq<nat> := [d[2], d[3], d[4], d[5], d[6], d[7]];
    TailFormat(d[2], d[3], d[4], d[5], d[6], d[7]);
    MiddleFormat(d[0], d[1], GuidTail, v3);
    HeadFormat(g.data1, g.data2, g.data3, GuidMiddle + GuidTail, v2 + v3);
  }

  lemma LayoutSplit()
    ensures GuidLayout == GuidHead + (GuidMiddle + GuidTail)
  {
  }

  lemma ValuesSplit(g: Guid)
    ensures Values(g) == [g.data1 as nat, g.data2 as nat, g.data3 as nat]
                         + ([g.data4[0] as nat, g.data4[1] as nat]
                            + [g.data4[2] as nat, g.data4[3] as nat, g.data4[4] as nat,
                               g.data4[5] as nat, g.data4[6] as nat, g.data4[7] as nat])
    ensures Fits(GuidLayout, Values(g)) && GuidToString(g) == Format(GuidLayout, Values(g))
  {
    ValuesFit(g);
  }

  /** Reads the braced text form back; None for anything else. */
  function ParseGuid(s: string): Option<Guid> {
    match Parse(GuidLayout, s)
    case None => None
    case Some(vs) =>
      if |vs| == 11 && vs[0] < 0x1_0000_0000 && vs[1] < 0x1_0000 && vs[2] < 0x1_0000
         && forall k :: 3 <= k < 11 ==> vs[k] < 0x100
      then Some(Guid(vs[0], vs[1], vs[2], seq(8, k requires 0 <= k < 8 => vs[k + 3])))
      else None
  }

  /** Parsing the formatted text gives the same GUID back. */
  lemma GuidRoundTrip(g: Guid)
    ensures ParseGuid(GuidToString(g)) == Some(g)
  {
    ValuesFit(g);
    ParseOfFormat(GuidLayout, Values(g));
    var vs := Values(g);
    assert seq(8, k requires 0 <= k < 8 => vs[k + 3]) == g.data4;
  }

  /** Every text the parser accepts is exactly the formatting of what it
      returns: the text form is canonical. */
  lemma GuidTextCanonical(s: string)
    requires ParseGuid(s).Some?
    ensures GuidToString(ParseGuid(s).value) == s
  {
    var vs := Parse(GuidLayout, s).value;
    FormatOfParse(GuidLayout, s);
    assert Values(ParseGuid(s).value) == vs;
  }

  /** Two GUIDs print the same text only if they are the same GUID. */
  lemma GuidToStringInjective(g: Guid, h: Guid)
    ensures GuidToString(g) == GuidToString(h) <==> g == h
  {
    GuidRoundTrip(g);
    GuidRoundTrip(h);
  }
}
