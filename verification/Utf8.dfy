/** The byte-to-unicode table of byte-level BPE, and UTF-8 as section 3 of RFC 3629 lays it out. */
module Utf8 {
  import opened LittleEndian
  import opened Results

  // ----- bytes as visible code points

  predicate Printable(b: int) {
    0x21 <= b < 0x7F || 0xA1 <= b < 0xAD || 0xAE <= b < 0x100
  }

  /** How many bytes below `b` are not printable. */
  function Unprintable(b: nat): (n: nat)
    requires b <= 256
    ensures n <= 68
  {
    if b <= 0x21 then b else if b <= 0x7F then 33 else if b <= 0xA1 then b - 94 else if b <= 0xAD then 67 else 68
  }

  function CodepointOf(b: Byte): Codepoint {
    if Printable(b) then b else 256 + Unprintable(b)
  }

  /** The byte a code point stands for, if it stands for one. */
  function ByteOf(cp: Codepoint): Option<Byte> {
    if Printable(cp) then Some(cp)
    else if 0x100 <= cp < 0x121 then Some(cp - 0x100)
    else if 0x121 <= cp < 0x143 then Some(cp - 0xA2)
    else if cp == 0x143 then Some(0xAD)
    else None
  }

  lemma ByteOfInverts(b: Byte, cp: Codepoint)
    ensures ByteOf(cp) == Some(b) <==> cp == CodepointOf(b)
  {
  }

  method BuildByteToUnicode() returns (table: array<Codepoint>)
    ensures fresh(table) && table.Length == 256
    ensures forall b: Byte :: table[b] == CodepointOf(b)
  {
    var bs: seq<Byte> := PrintableBytes();
    var cs: seq<Codepoint> := bs;
    var n: nat := 0;
    var inBs := new bool[256](_ => false);
    var i := 0;
    while i < |bs|
      invariant 0 <= i <= |bs|
      invariant forall b | 0 <= b < 256 :: inBs[b] <==> b in bs[..i]
    {
      assert bs[..i + 1] == bs[..i] + [bs[i]];
      inBs[bs[i]] := true;
      i := i + 1;
    }
    assert bs[..i] == bs;
    var b: nat := 0;
    while b < 256
      invariant b <= 256 && n == Unprintable(b) && |bs| == |cs|
      invariant forall j | 0 <= j < |bs| :: cs[j] == CodepointOf(bs[j])
      invariant forall c: Byte :: c < b || Printable(c) ==> c in bs
    {
      if !inBs[b] {
        bs, cs := bs + [b], cs + [256 + n];
        n := n + 1;
      }
      b := b + 1;
    }
    table := new Codepoint[256](_ => 0);
    i := 0;
    while i < |bs|
      invariant 0 <= i <= |bs|
      invariant forall j | 0 <= j < i :: table[bs[j]] == CodepointOf(bs[j])
    {
      table[bs[i]] := cs[i];
      i := i + 1;
    }
    forall b: Byte ensures table[b] == CodepointOf(b) {
      assert b in bs;
      var j :| 0 <= j < |bs| && bs[j] == b;
    }
  }

  method PrintableBytes() returns (bs: seq<Byte>)
    ensures forall b: Byte :: b in bs <==> Printable(b)
  {
    bs := [];
    for c := 0x21 to 0x7F
      invariant forall b: Byte :: b in bs <==> 0x21 <= b < c
    {
      bs := bs + [c];
    }
    for c := 0xA1 to 0xAD
      invariant forall b: Byte :: b in bs <==> 0x21 <= b < 0x7F || 0xA1 <= b < c
    {
      bs := bs + [c];
    }
    for c := 0xAE to 0x100
      invariant forall b: Byte :: b in bs <==> 0x21 <= b < 0x7F || 0xA1 <= b < 0xAD || 0xAE <= b < c
    {
      bs := bs + [c];
    }
  }

  /** The reverse table the decoder looks code points up in. */
  method BuildUnicodeToByte(table: array<Codepoint>) returns (inverse: map<Codepoint, Byte>)
    requires table.Length == 256 && forall b: Byte :: table[b] == CodepointOf(b)
    ensures forall cp: Codepoint :: ByteOf(cp) == if cp in inverse then Some(inverse[cp]) else None
  {
    inverse := map[];
    var b: nat := 0;
    while b < 256
      invariant b <= 256
      invariant forall cp | cp in inverse :: ByteOf(cp) == Some(inverse[cp])
      invariant forall c: Byte | c < b :: CodepointOf(c) in inverse
    {
      ByteOfInverts(b, table[b]);
      inverse := inverse[table[b] := b];
      b := b + 1;
    }
    forall cp: Codepoint ensures ByteOf(cp) == if cp in inverse then Some(inverse[cp]) else None {
      if ByteOf(cp).Some? { ByteOfInverts(ByteOf(cp).value, cp); }
    }
  }

  // ----- UTF-8

  /** What four bytes can carry. */
  type Codepoint = x: int | 0 <= x < 0x20_0000

  function Append(cp: Codepoint): (s: Bytes)
    ensures 1 <= |s| <= 4
  {
    if cp < 0x80 then [cp]
    else if cp < 0x800 then [0xC0 + cp / 64, 0x80 + cp % 64]
    else if cp < 0x1_0000 then [0xE0 + cp / 4096, 0x80 + cp / 64 % 64, 0x80 + cp % 64]
    else [0xF0 + cp / 262144, 0x80 + cp / 4096 % 64, 0x80 + cp / 64 % 64, 0x80 + cp % 64]
  }

  function AppendAll(cps: seq<Codepoint>): Bytes {
    if cps == [] then [] else Append(cps[0]) + AppendAll(cps[1..])
  }

  /** What a continuation byte carries; its two high bits are not looked at. */
  function Low6(b: Byte): int {
    b % 64
  }

  /** The first code point and how many bytes it took; nothing when the bytes cannot start one. */
  function First(s: Bytes): (r: Option<(Codepoint, nat)>)
    requires s != []
    ensures r.Some? ==> 1 <= r.value.1 <= |s|
  {
    var b: int := s[0];
    if b < 0x80 then Some((b, 1))
    else if 0xC0 <= b < 0xE0 && |s| > 1 then Some(((b - 0xC0) * 64 + Low6(s[1]), 2))
    else if 0xE0 <= b < 0xF0 && |s| > 2 then Some(((b - 0xE0) * 4096 + Low6(s[1]) * 64 + Low6(s[2]), 3))
    else if 0xF0 <= b < 0xF8 && |s| > 3 then
      Some(((b - 0xF0) * 262144 + Low6(s[1]) * 4096 + Low6(s[2]) * 64 + Low6(s[3]), 4))
    else None
  }

  /** The code points up to the first malformed place. */
  function Codepoints(s: Bytes): seq<Codepoint> {
    if s == [] || First(s).None? then []
    else [First(s).value.0] + Codepoints(s[First(s).value.1..])
  }

  predicate Decodes(s: Bytes) {
    s == [] || (First(s).Some? && Decodes(s[First(s).value.1..]))
  }

  method Utf8Decode(s: Bytes) returns (ok: bool, out: seq<Codepoint>)
    ensures out == Codepoints(s) && (ok <==> Decodes(s))
  {
    out := [];
    var i := 0;
    while i < |s|
      invariant 0 <= i <= |s|
      invariant out + Codepoints(s[i..]) == Codepoints(s) && (Decodes(s[i..]) <==> Decodes(s))
    {
      var first := First(s[i..]);
      if first.None? { return false, out; }
      ghost var rest := Codepoints(s[i + first.value.1..]);
      assert s[i..][first.value.1..] == s[i + first.value.1..];
      assert out + [first.value.0] + rest == out + ([first.value.0] + rest);
      out := out + [first.value.0];
      i := i + first.value.1;
    }
    ok := true;
  }

  lemma FirstOfAppend(cp: Codepoint, rest: Bytes)
    ensures First(Append(cp) + rest) == Some((cp, |Append(cp)|))
  {
    if cp >= 0x1_0000 {
      FourBytes(cp, rest);
    } else if cp >= 0x800 {
      ThreeBytes(cp, rest);
    }
  }

  lemma ThreeBytes(cp: Codepoint, rest: Bytes)
    requires 0x800 <= cp < 0x1_0000
    ensures First(Append(cp) + rest) == Some((cp, 3))
  {
    SplitBits(cp);
    var s := Append(cp) + rest;
    assert s[0] == 0xE0 + cp / 4096 && s[1] == 0x80 + cp / 64 % 64 && s[2] == 0x80 + cp % 64;
    assert Low6(s[1]) == cp / 64 % 64 && Low6(s[2]) == cp % 64;
  }

  lemma FourBytes(cp: Codepoint, rest: Bytes)
    requires 0x1_0000 <= cp
    ensures First(Append(cp) + rest) == Some((cp, 4))
  {
    SplitBits(cp);
    var s := Append(cp) + rest;
    assert s[0] == 0xF0 + cp / 262144 && s[1] == 0x80 + cp / 4096 % 64 && s[2] == 0x80 + cp / 64 % 64
      && s[3] == 0x80 + cp % 64;
    assert Low6(s[1]) == cp / 4096 % 64 && Low6(s[2]) == cp / 64 % 64 && Low6(s[3]) == cp % 64;
  }

  lemma SplitBits(cp: Codepoint)
    ensures cp / 64 * 64 + cp % 64 == cp
    ensures cp / 4096 * 4096 + cp / 64 % 64 * 64 + cp % 64 == cp
    ensures cp / 262144 * 262144 + cp / 4096 % 64 * 4096 + cp / 64 % 64 * 64 + cp % 64 == cp
  {
    assert cp / 64 / 64 == cp / 4096 && cp / 4096 / 64 == cp / 262144;
  }

  lemma CodepointsStep(first: Bytes, more: Bytes, cp: Codepoint)
    requires first != [] && First(first + more) == Some((cp, |first|))
    ensures Codepoints(first + more) == [cp] + Codepoints(more)
  {
    assert (first + more)[|first|..] == more;
  }

  lemma HeadAndRest<T>(s: seq<T>, t: seq<T>)
    requires s != []
    ensures [s[0]] + (s[1..] + t) == s + t
  {
  }

  lemma CodepointsThen(cp: Codepoint, more: Bytes, all: Bytes)
    requires all == Append(cp) + more
    ensures Codepoints(all) == [cp] + Codepoints(more)
  {
    FirstOfAppend(cp, more);
    CodepointsStep(Append(cp), more, cp);
  }

  /** Encoding code points and decoding gives them back, whatever follows. */
  lemma {:induction false} CodepointsOfAppend(cps: seq<Codepoint>, rest: Bytes, all: Bytes)
    requires all == AppendAll(cps) + rest
    ensures Codepoints(all) == cps + Codepoints(rest)
    decreases |cps|
  {
    if cps == [] {
      assert all == rest;
    } else {
      var more := AppendAll(cps[1..]) + rest;
      assert all == Append(cps[0]) + more;
      CodepointsThen(cps[0], more, all);
      CodepointsOfAppend(cps[1..], rest, more);
      HeadAndRest(cps, Codepoints(rest));
    }
  }

  // ----- what the decoder writes for code points

  function Render1(cp: Codepoint): Bytes {
    match ByteOf(cp)
    case Some(b) => [b]
    case None => Append(cp)
  }

  function RenderAll(cps: seq<Codepoint>): Bytes {
    if cps == [] then [] else Render1(cps[0]) + RenderAll(cps[1..])
  }

  function Rendered(s: Bytes): Bytes {
    RenderAll(Codepoints(s))
  }

  lemma {:induction false} RenderConcat(a: seq<Codepoint>, b: seq<Codepoint>)
    ensures RenderAll(a + b) == RenderAll(a) + RenderAll(b)
  {
    if a == [] {
      assert [] + b == b;
    } else {
      assert (a + b)[0] == a[0] && (a + b)[1..] == a[1..] + b;
      RenderConcat(a[1..], b);
      assert Render1(a[0]) + (RenderAll(a[1..]) + RenderAll(b)) == RenderAll(a) + RenderAll(b);
    }
  }

  lemma RenderedThen(cps: seq<Codepoint>, rest: Bytes)
    ensures Rendered(AppendAll(cps) + rest) == RenderAll(cps) + Rendered(rest)
  {
    CodepointsOfAppend(cps, rest, AppendAll(cps) + rest);
    RenderConcat(cps, Codepoints(rest));
  }

  /** The text BPE works on: every byte as its code point, in UTF-8. */
  function VisibleCodepoints(raw: Bytes): (cps: seq<Codepoint>)
    ensures |cps| == |raw| && forall i | 0 <= i < |raw| :: cps[i] == CodepointOf(raw[i])
  {
    seq(|raw|, i requires 0 <= i < |raw| => CodepointOf(raw[i]))
  }

  function Visible(raw: Bytes): Bytes {
    AppendAll(VisibleCodepoints(raw))
  }

  lemma {:induction false} RenderVisible(raw: Bytes)
    ensures RenderAll(VisibleCodepoints(raw)) == raw
  {
    if raw != [] {
      var cps := VisibleCodepoints(raw);
      assert cps[1..] == VisibleCodepoints(raw[1..]);
      RenderVisible(raw[1..]);
      ByteOfInverts(raw[0], cps[0]);
    }
  }

  /** The decoder turns the visible form of any bytes back into them. */
  lemma VisibleRoundTrip(raw: Bytes, rest: Bytes)
    ensures Rendered(Visible(raw) + rest) == raw + Rendered(rest)
  {
    RenderedThen(VisibleCodepoints(raw), rest);
    RenderVisible(raw);
  }

  lemma {:induction false} AppendConcat(a: seq<Codepoint>, b: seq<Codepoint>)
    ensures AppendAll(a + b) == AppendAll(a) + AppendAll(b)
  {
    if a == [] {
      assert [] + b == b;
    } else {
      assert (a + b)[0] == a[0] && (a + b)[1..] == a[1..] + b;
      AppendConcat(a[1..], b);
      assert Append(a[0]) + (AppendAll(a[1..]) + AppendAll(b)) == AppendAll(a) + AppendAll(b);
    }
  }

  lemma VisibleConcat(a: Bytes, b: Bytes)
    ensures Visible(a + b) == Visible(a) + Visible(b)
  {
    assert VisibleCodepoints(a + b) == VisibleCodepoints(a) + VisibleCodepoints(b);
    AppendConcat(VisibleCodepoints(a), VisibleCodepoints(b));
  }

  // ----- text that is not in visible form

  predicate WellFormed(s: Bytes) {
    AppendAll(Codepoints(s)) == s
  }

  /** The code points a decoder leaves as they are: ASCII, and those that stand for no byte. */
  predicate Stays(cp: Codepoint) {
    cp < 0x80 || ByteOf(cp).None?
  }

  predicate AllStay(cps: seq<Codepoint>) {
    forall i | 0 <= i < |cps| :: Stays(cps[i])
  }

  lemma RenderLength(cp: Codepoint)
    ensures if Stays(cp) then Render1(cp) == Append(cp) else |Render1(cp)| < |Append(cp)|
  {
  }

  /** Code points come out as their own UTF-8 exactly when all of them stay; otherwise bytes are lost. */
  lemma {:induction false} RenderIsAppend(cps: seq<Codepoint>)
    ensures if AllStay(cps) then RenderAll(cps) == AppendAll(cps) else |RenderAll(cps)| < |AppendAll(cps)|
  {
    if cps != [] {
      RenderLength(cps[0]);
      RenderIsAppend(cps[1..]);
      assert AllStay(cps) <==> Stays(cps[0]) && AllStay(cps[1..]) by {
        if Stays(cps[0]) && AllStay(cps[1..]) {
          forall i | 0 <= i < |cps| ensures Stays(cps[i]) { assert i > 0 ==> cps[i] == cps[1..][i - 1]; }
        }
        if AllStay(cps) {
          forall i | 0 <= i < |cps[1..]| ensures Stays(cps[1..][i]) { assert cps[1..][i] == cps[i + 1]; }
        }
      }
    }
  }

  /** ASCII text is well formed and stays. */
  lemma {:induction false} AsciiStays(s: Bytes)
    requires forall i | 0 <= i < |s| :: s[i] < 0x80
    ensures Codepoints(s) == s && WellFormed(s) && AllStay(Codepoints(s))
  {
    if s != [] {
      AsciiStays(s[1..]);
    }
  }
}
