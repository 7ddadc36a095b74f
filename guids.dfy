/**
 * Formatting of the mixer's native 16-byte track GUIDs as the lowercase
 * 8-4-4-4-12 hexadecimal text of section 3 of RFC 4122, and the parse that
 * reads such a text back. The text is the identifier every address carries.
 */
module Guids {
  import opened Wrappers

  type u8 = x: nat | x < 0x100
  type u16 = x: nat | x < 0x1_0000
  type u32 = x: nat | x < 0x1_0000_0000

  /** The last eight bytes of a GUID. */
  type Data4 = s: seq<u8> | |s| == 8 witness [0, 0, 0, 0, 0, 0, 0, 0]

  /** The native GUID layout: one 32-bit, two 16-bit and eight 8-bit fields. */
  datatype Guid = Guid(data1: u32, data2: u16, data3: u16, data4: Data4)

  function Pow16(w: nat): (r: nat)
    ensures r > 0
  {
    if w == 0 then 1 else 16 * Pow16(w - 1)
  }

  predicate IsHexDigit(c: char) {
    '0' <= c <= '9' || 'a' <= c <= 'f'
  }

  function HexDigit(d: nat): (c: char)
    requires d < 16
    ensures IsHexDigit(c)
    ensures DigitValue(c) == d
  {
    if d < 10 then ('0' as int + d) as char else ('a' as int + d - 10) as char
  }

  /** The value of one lowercase hexadecimal digit; 0 for any other character. */
  function DigitValue(c: char): nat {
    if '0' <= c <= '9' then c as int - '0' as int
    else if 'a' <= c <= 'f' then c as int - 'a' as int + 10
    else 0
  }

  /** `v` as exactly `w` lowercase hexadecimal digits, most significant first, zero-padded. */
  function Hex(v: nat, w: nat): (r: string)
    ensures |r| == w
    ensures forall i :: 0 <= i < |r| ==> IsHexDigit(r[i])
  {
    if w == 0 then [] else Hex(v / 16, w - 1) + [HexDigit(v % 16)]
  }

  /** The number written by a string of hexadecimal digits, most significant first. */
  function HexValue(s: string): (v: nat)
    ensures v < Pow16(|s|)
  {
    if s == [] then 0 else HexValue(s[..|s| - 1]) * 16 + DigitValue(s[|s| - 1])
  }

  /** Reading back a zero-padded rendering gives the rendered value, when it fits the width. */
  lemma {:induction false} HexRoundTrip(v: nat, w: nat)
    requires v < Pow16(w)
    ensures HexValue(Hex(v, w)) == v
  {
    if w > 0 {
      var s := Hex(v, w);
      assert s[..w - 1] == Hex(v / 16, w - 1);
      assert v / 16 < Pow16(w - 1);
      HexRoundTrip(v / 16, w - 1);
    }
  }

  /** A run of zero-padded hexadecimal digits, or a dash. */
  datatype Piece = Digits(value: nat, width: nat) | Dash

  /** The pieces of a GUID's text in order: the 8-4-4-4-12 layout, `data4` printed byte by byte. */
  function Pieces(g: Guid): seq<Piece> {
    var d := g.data4;
    [Digits(g.data1, 8), Dash, Digits(g.data2, 4), Dash, Digits(g.data3, 4), Dash,
     Digits(d[0], 2), Digits(d[1], 2), Dash,
     Digits(d[2], 2), Digits(d[3], 2), Digits(d[4], 2), Digits(d[5], 2), Digits(d[6], 2), Digits(d[7], 2)]
  }

  function RenderPiece(p: Piece): string {
    match p
    case Digits(v, w) => Hex(v, w)
    case Dash => "-"
  }

  /** The pieces from index `i` on, rendered one after the other. */
  function RenderFrom(ps: seq<Piece>, i: nat): string
    decreases |ps| - i
  {
    if i >= |ps| then [] else RenderPiece(ps[i]) + RenderFrom(ps, i + 1)
  }

  /**
   * The text form of a GUID, as `{:08x}-{:04x}-{:04x}-{:02x}{:02x}-{:02x}…{:02x}`
   * prints it.
   */
  function GuidToString(g: Guid): string {
    RenderFrom(Pieces(g), 0)
  }

  /** The text as its five dash-separated groups. */
  lemma {:induction false} GuidTextGroups(g: Guid)
    ensures RenderFrom(Pieces(g), 0)
      == Hex(g.data1, 8) + "-" + Hex(g.data2, 4) + "-" + Hex(g.data3, 4) + "-" + ClockSeq(g.data4) + "-" + Node(g.data4)
  {
    var p, d := Pieces(g), g.data4;
    var tail := Hex(d[7], 2);
    assert RenderFrom(p, 14) == tail + [] == tail;
    tail := Hex(d[6], 2) + tail;
    assert RenderFrom(p, 13) == tail;
    tail := Hex(d[5], 2) + tail;
    assert RenderFrom(p, 12) == tail;
    tail := Hex(d[4], 2) + tail;
    assert RenderFrom(p, 11) == tail;
    tail := Hex(d[3], 2) + tail;
    assert RenderFrom(p, 10) == tail;
    tail := Hex(d[2], 2) + tail;
    assert RenderFrom(p, 9) == tail;
    tail := "-" + tail;
    assert RenderFrom(p, 8) == tail;
    tail := Hex(d[1], 2) + tail;
    assert RenderFrom(p, 7) == tail;
    tail := Hex(d[0], 2) + tail;
    assert RenderFrom(p, 6) == tail;
    tail := "-" + tail;
    assert RenderFrom(p, 5) == tail;
    tail := Hex(g.data3, 4) + tail;
    assert RenderFrom(p, 4) == tail;
    tail := "-" + tail;
    assert RenderFrom(p, 3) == tail;
    tail := Hex(g.data2, 4) + tail;
    assert RenderFrom(p, 2) == tail;
    tail := "-" + tail;
    assert RenderFrom(p, 1) == tail;
    tail := Hex(g.data1, 8) + tail;
    assert RenderFrom(Pieces(g), 0) == tail;
    Regroup(Hex(g.data1, 8), Hex(g.data2, 4), Hex(g.data3, 4), Hex(d[0], 2), Hex(d[1], 2),
            Hex(d[2], 2), Hex(d[3], 2), Hex(d[4], 2), Hex(d[5], 2), Hex(d[6], 2), Hex(d[7], 2));
  }

  /** The pieces rendered one after the other, regrouped into the five groups. */
  lemma {:induction false} Regroup(a: string, b: string, c: string, e0: string, e1: string,
                n0: string, n1: string, n2: string, n3: string, n4: string, n5: string)
    ensures a + ("-" + (b + ("-" + (c + ("-" + (e0 + (e1 + ("-" + (n0 + (n1 + (n2 + (n3 + (n4 + n5)))))))))))))
      == a + "-" + b + "-" + c + "-" + (e0 + e1) + "-" + (n0 + n1 + n2 + n3 + n4 + n5)
  {
    var node := n0 + (n1 + (n2 + (n3 + (n4 + n5))));
    assert node == n0 + n1 + n2 + n3 + n4 + n5;
    var t := "-" + node;
    assert e0 + (e1 + t) == (e0 + e1) + t;
    var u := (e0 + e1) + t;
    assert a + ("-" + (b + ("-" + (c + ("-" + u))))) == a + "-" + b + "-" + c + "-" + u;
    assert a + "-" + b + "-" + c + "-" + u == a + "-" + b + "-" + c + "-" + (e0 + e1) + "-" + node;
  }

  /** Where the dashes and the digits of the text are. */
  lemma {:induction false} GuidTextShape(g: Guid)
    ensures var r := GuidToString(g);
      && |r| == 36
      && r[8] == '-' && r[13] == '-' && r[18] == '-' && r[23] == '-'
      && forall i :: 0 <= i < 36 && i != 8 && i != 13 && i != 18 && i != 23 ==> IsHexDigit(r[i])
  {
    GuidTextGroups(g);
  }

  /** The fourth group: the first two bytes of `data4`. */
  function ClockSeq(d: Data4): (r: string)
    ensures |r| == 4
  {
    Hex(d[0], 2) + Hex(d[1], 2)
  }

  /** The fifth group: the last six bytes of `data4`. */
  function Node(d: Data4): (r: string)
    ensures |r| == 12
  {
    Hex(d[2], 2) + Hex(d[3], 2) + Hex(d[4], 2) + Hex(d[5], 2) + Hex(d[6], 2) + Hex(d[7], 2)
  }

  /** Reads a 36-character 8-4-4-4-12 lowercase text back into the GUID fields. */
  function ParseGuid(s: string): (r: Option<Guid>)
    ensures r.Some? ==> |s| == 36
  {
    if |s| == 36 && s[8] == '-' && s[13] == '-' && s[18] == '-' && s[23] == '-'
       && (forall i :: 0 <= i < 36 && i != 8 && i != 13 && i != 18 && i != 23 ==> IsHexDigit(s[i]))
    then
      var d1, d2, d3 := HexValue(s[0..8]), HexValue(s[9..13]), HexValue(s[14..18]);
      var d4 := [HexValue(s[19..21]), HexValue(s[21..23]), HexValue(s[24..26]), HexValue(s[26..28]),
                 HexValue(s[28..30]), HexValue(s[30..32]), HexValue(s[32..34]), HexValue(s[34..36])];
      assert Pow16(2) == 0x100 && Pow16(4) == 0x1_0000 && Pow16(8) == 0x1_0000_0000;
      Some(Guid(d1, d2, d3, d4))
    else
      None
  }

  lemma {:induction false} FieldBounds()
    ensures Pow16(2) == 0x100 && Pow16(4) == 0x1_0000 && Pow16(8) == 0x1_0000_0000
  {
    assert Pow16(4) == 0x1_0000;
  }

  /** Where the five groups sit in an 8-4-4-4-12 text. */
  lemma {:induction false} Layout(a: string, b: string, c: string, e: string, f: string)
    requires |a| == 8 && |b| == 4 && |c| == 4 && |e| == 4 && |f| == 12
    ensures var s := a + "-" + b + "-" + c + "-" + e + "-" + f;
      s[0..8] == a && s[9..13] == b && s[14..18] == c && s[19..23] == e && s[24..36] == f
  {
    var s := a + "-" + b + "-" + c + "-" + e + "-" + f;
    assert s == (a + "-") + (b + "-") + (c + "-") + (e + "-") + f;
  }

  /** Where the two-digit pairs sit in a run of such pairs. */
  lemma {:induction false} Pairs(x0: string, x1: string, x2: string, x3: string, x4: string, x5: string)
    requires |x0| == 2 && |x1| == 2 && |x2| == 2 && |x3| == 2 && |x4| == 2 && |x5| == 2
    ensures var s := x0 + x1 + x2 + x3 + x4 + x5;
      s[0..2] == x0 && s[2..4] == x1 && s[4..6] == x2 && s[6..8] == x3 && s[8..10] == x4 && s[10..12] == x5
  {
  }

  /** A slice of a slice is a slice of the whole. */
  lemma {:induction false} SliceOfSlice(s: string, i: nat, j: nat, k: nat, l: nat)
    requires i <= j <= |s| && k <= l <= j - i
    ensures s[i..j][k..l] == s[i + k..i + l]
  {
    assert forall x :: 0 <= x < l - k ==> s[i..j][k..l][x] == s[i + k..i + l][x];
  }

  /** Where the five groups sit in the text of a GUID. */
  lemma {:induction false} GuidTextGroupsAt(g: Guid)
    ensures var s, d := GuidToString(g), g.data4;
      && |s| == 36
      && s[0..8] == Hex(g.data1, 8) && s[9..13] == Hex(g.data2, 4) && s[14..18] == Hex(g.data3, 4)
      && s[19..23] == ClockSeq(d) && s[24..36] == Node(d)
  {
    GuidTextGroups(g);
    Layout(Hex(g.data1, 8), Hex(g.data2, 4), Hex(g.data3, 4), ClockSeq(g.data4), Node(g.data4));
  }

  /** Where each field's digits sit in the text of a GUID. */
  lemma {:induction false} GuidTextFields(g: Guid)
    ensures var s, d := GuidToString(g), g.data4;
      && |s| == 36
      && s[0..8] == Hex(g.data1, 8) && s[9..13] == Hex(g.data2, 4) && s[14..18] == Hex(g.data3, 4)
      && s[19..21] == Hex(d[0], 2) && s[21..23] == Hex(d[1], 2) && s[24..26] == Hex(d[2], 2)
      && s[26..28] == Hex(d[3], 2) && s[28..30] == Hex(d[4], 2) && s[30..32] == Hex(d[5], 2)
      && s[32..34] == Hex(d[6], 2) && s[34..36] == Hex(d[7], 2)
  {
    var s, d := GuidToString(g), g.data4;
    GuidTextGroupsAt(g);
    SliceOfSlice(s, 19, 23, 0, 2);
    SliceOfSlice(s, 19, 23, 2, 4);
    Pairs(Hex(d[2], 2), Hex(d[3], 2), Hex(d[4], 2), Hex(d[5], 2), Hex(d[6], 2), Hex(d[7], 2));
    SliceOfSlice(s, 24, 36, 0, 2);
    SliceOfSlice(s, 24, 36, 2, 4);
    SliceOfSlice(s, 24, 36, 4, 6);
    SliceOfSlice(s, 24, 36, 6, 8);
    SliceOfSlice(s, 24, 36, 8, 10);
    SliceOfSlice(s, 24, 36, 10, 12);
  }

  /** The text of a GUID parses back to that GUID. */
  lemma {:induction false} ParseGuidToString(g: Guid)
    ensures ParseGuid(GuidToString(g)) == Some(g)
  {
    FieldBounds();
    GuidTextFields(g);
    GuidTextShape(g);
    var s := GuidToString(g);
    var d := g.data4;
    HexRoundTrip(g.data1, 8);
    HexRoundTrip(g.data2, 4);
    HexRoundTrip(g.data3, 4);
    forall k | 0 <= k < 8 ensures HexValue(Hex(d[k], 2)) == d[k] {
      HexRoundTrip(d[k], 2);
    }
    var p := ParseGuid(s);
    assert p.Some?;
    assert p.value.data4 == d;
  }

  /** Injectivity: equal texts come only from equal GUIDs, so distinct GUIDs have distinct texts. */
  lemma {:induction false} GuidToStringInjective(g1: Guid, g2: Guid)
    requires GuidToString(g1) == GuidToString(g2)
    ensures g1 == g2
  {
    ParseGuidToString(g1);
    ParseGuidToString(g2);
  }

  /** A GUID's text is never empty and holds no `/`, so it is one whole address segment. */
  lemma {:induction false} GuidIsSegment(g: Guid)
    ensures GuidToString(g) != []
    ensures '/' !in GuidToString(g)
  {
    var s := GuidToString(g);
    GuidTextShape(g);
    forall i | 0 <= i < |s| ensures s[i] != '/' {
      if i != 8 && i != 13 && i != 18 && i != 23 {
        assert IsHexDigit(s[i]);
      }
    }
  }
}
