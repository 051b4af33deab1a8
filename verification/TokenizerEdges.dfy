/** The tokenizer beside its round trip: unknown parts, skipped ids, markers, malformed text. */
module TokenizerEdges {
  import opened BpeRoundTrip
  import opened BpeTokenizer
  import opened Chunks
  import opened LittleEndian
  import opened Results
  import opened Sequences
  import opened Utf8

  // ----- unknown parts

  /** Parts are looked up one by one; an unknown one gives the unknown id, or nothing when there is none. */
  lemma {:induction false} IdsOfAppend(t: Tokenizer, parts: seq<Bytes>, part: Bytes)
    ensures IdsOf(t, parts + [part])
         == IdsOf(t, parts) + if part in t.vocab then [t.vocab[part]] else if t.unkId >= 0 then [t.unkId] else []
  {
    if parts == [] {
      assert [part][1..] == [];
      assert IdsOf(t, [part]) == IdOf(t, part) + [];
      assert parts + [part] == [part];
    } else {
      assert (parts + [part])[0] == parts[0] && (parts + [part])[1..] == parts[1..] + [part];
      IdsOfAppend(t, parts[1..], part);
      Reassociate(IdOf(t, parts[0]), IdsOf(t, parts[1..]), IdOf(t, part));
    }
  }

  /** With an unknown id every part has exactly one id, at its own place. */
  lemma {:induction false} IdsOfParts(t: Tokenizer, parts: seq<Bytes>)
    requires t.unkId >= 0
    ensures |IdsOf(t, parts)| == |parts|
    ensures forall i | 0 <= i < |parts| ::
        IdsOf(t, parts)[i] == if parts[i] in t.vocab then t.vocab[parts[i]] else t.unkId
  {
    if parts != [] { IdsOfParts(t, parts[1..]); }
  }

  // ----- skipped ids

  /** Decoding looks at ids one by one: an id outside the table or, on demand, a special one adds nothing. */
  lemma {:induction false} TextOfAppend(t: Tokenizer, ids: seq<int>, id: int, skipSpecial: bool)
    requires |t.special| == |t.idToToken|
    ensures TextOf(t, ids + [id], skipSpecial)
         == TextOf(t, ids, skipSpecial)
          + if 0 <= id < |t.idToToken| && !(skipSpecial && t.special[id]) then t.idToToken[id] else []
  {
    if ids == [] {
      assert [id][1..] == [];
      assert TextOf(t, [id], skipSpecial) == TokenText(t, id, skipSpecial) + [];
      assert ids + [id] == [id];
    } else {
      assert (ids + [id])[0] == ids[0] && (ids + [id])[1..] == ids[1..] + [id];
      TextOfAppend(t, ids[1..], id, skipSpecial);
      Reassociate(TokenText(t, ids[0], skipSpecial), TextOf(t, ids[1..], skipSpecial), TokenText(t, id, skipSpecial));
    }
  }

  predicate IsSpecial(t: Tokenizer, id: int)
    requires |t.special| == |t.idToToken|
  {
    0 <= id < |t.special| && t.special[id]
  }

  /** The ids that are not special, in order. */
  function Ordinary(t: Tokenizer, ids: seq<int>): seq<int>
    requires |t.special| == |t.idToToken|
  {
    if ids == [] then []
    else Ordinary(t, ids[..|ids| - 1]) + if IsSpecial(t, ids[|ids| - 1]) then [] else [ids[|ids| - 1]]
  }

  /** Skipping special ids is decoding what is left without them. */
  lemma {:induction false} SkippingIsFiltering(t: Tokenizer, ids: seq<int>)
    requires |t.special| == |t.idToToken|
    ensures TextOf(t, ids, true) == TextOf(t, Ordinary(t, ids), false)
  {
    if ids != [] {
      var n := |ids| - 1;
      assert ids == ids[..n] + [ids[n]];
      SkippingIsFiltering(t, ids[..n]);
      TextOfAppend(t, ids[..n], ids[n], true);
      if IsSpecial(t, ids[n]) {
        assert Ordinary(t, ids[..n]) + [] == Ordinary(t, ids[..n]);
      } else {
        TextOfAppend(t, Ordinary(t, ids[..n]), ids[n], false);
      }
    }
  }

  lemma {:induction false} OrdinaryStays(t: Tokenizer, ids: seq<int>)
    requires |t.special| == |t.idToToken| && forall i | 0 <= i < |ids| :: !IsSpecial(t, ids[i])
    ensures Ordinary(t, ids) == ids
  {
    if ids != [] {
      OrdinaryStays(t, ids[..|ids| - 1]);
      assert ids == ids[..|ids| - 1] + [ids[|ids| - 1]];
    }
  }

  lemma {:induction false} OrdinaryConcat(t: Tokenizer, a: seq<int>, b: seq<int>)
    requires |t.special| == |t.idToToken|
    ensures Ordinary(t, a + b) == Ordinary(t, a) + Ordinary(t, b)
  {
    if b == [] {
      assert a + b == a;
    } else {
      OrdinaryConcat(t, a, b[..|b| - 1]);
      assert (a + b)[..|a + b| - 1] == a + b[..|b| - 1];
    }
  }

  /** Begin and end markers come off again when special ids are skipped, so a text whose own ids are ordinary is
      restored under the same condition as without markers. */
  method MarkedRoundTrip(t: Tokenizer, find: Matcher, s: Bytes) returns (text: Bytes)
    requires InBounds(find) && Loaded(t) && Complete(t)
    requires (t.bosId >= 0 ==> IsSpecial(t, t.bosId)) && (t.eosId >= 0 ==> IsSpecial(t, t.eosId))
    requires forall i | 0 <= i < |Body(t, find, s)| :: !IsSpecial(t, Body(t, find, s)[i])
    ensures text == s <==> AllSurvive(find, Pieces(t.added, s, 0))
  {
    hide Body, Pieces, AllSurvive, InBounds, Loaded, Complete, TextOf;
    var table := BuildByteToUnicode();
    var inverse := BuildUnicodeToByte(table);
    var ids := Encode(t, find, table, s, EncodeOptions(true, true, 0));
    LoadedSizes(t);
    text := DecodeIds(t, ids, true, inverse);
    ghost var begin: seq<int>, body, end: seq<int> := if t.bosId >= 0 then [t.bosId] else [], Body(t, find, s),
      if t.eosId >= 0 then [t.eosId] else [];
    assert (begin + body + end)[..|begin + body + end|] == begin + body + end;
    MarkersDrop(t, begin, body, end);
    SkippingIsFiltering(t, ids);
    DecodeEncode(t, find, s);
  }

  lemma LoadedSizes(t: Tokenizer)
    requires Loaded(t)
    ensures |t.special| == |t.idToToken|
  {
  }

  lemma MarkersDrop(t: Tokenizer, begin: seq<int>, body: seq<int>, end: seq<int>)
    requires |t.special| == |t.idToToken| && |begin| <= 1 && |end| <= 1
    requires (begin != [] ==> IsSpecial(t, begin[0])) && (end != [] ==> IsSpecial(t, end[0]))
    requires forall i | 0 <= i < |body| :: !IsSpecial(t, body[i])
    ensures Ordinary(t, begin + body + end) == body
  {
    OrdinaryConcat(t, begin + body, end);
    OrdinaryConcat(t, begin, body);
    OrdinaryStays(t, body);
    assert Ordinary(t, begin) == [] by { if begin != [] { assert begin[..0] == []; } }
    assert Ordinary(t, end) == [] by { if end != [] { assert end[..0] == []; } }
  }

  // ----- malformed text

  /** The number that the low six bits of some bytes make behind what came before them. */
  function SixBits(high: nat, s: Bytes): nat
    decreases |s|
  {
    if s == [] then high else SixBits(high * 64 + (s[0] as int) % 64, s[1..])
  }

  /** A code point starts where the lead byte promises no more bytes than there are. Its value is the payload of
      the lead byte followed by the low six bits of the others, whatever their two high bits are. */
  lemma FirstExactly(s: Bytes)
    requires s != []
    ensures First(s).Some? <==>
              || s[0] < 0x80 || (0xC0 <= s[0] < 0xE0 && |s| >= 2) || (0xE0 <= s[0] < 0xF0 && |s| >= 3)
              || (0xF0 <= s[0] < 0xF8 && |s| >= 4)
    ensures First(s).Some? ==>
              var (cp, n) := First(s).value;
              && n == (if s[0] < 0x80 then 1 else if s[0] < 0xE0 then 2 else if s[0] < 0xF0 then 3 else 4) <= |s|
              && cp == SixBits(s[0] % (if n == 1 then 0x80 else if n == 2 then 0x20 else if n == 3 then 0x10 else 8),
                               s[1..n])
  {
    if First(s).Some? {
      var n := First(s).value.1;
      var high := s[0] % (if n == 1 then 0x80 else if n == 2 then 0x20 else if n == 3 then 0x10 else 8);
      SixBitsOfFew(high, s[1..n]);
    }
  }

  lemma SixBitsOfFew(high: nat, s: Bytes)
    ensures |s| == 0 ==> SixBits(high, s) == high
    ensures |s| == 1 ==> SixBits(high, s) == high * 64 + Low6(s[0])
    ensures |s| == 2 ==> SixBits(high, s) == high * 4096 + Low6(s[0]) * 64 + Low6(s[1])
    ensures |s| == 3 ==> SixBits(high, s) == high * 262144 + Low6(s[0]) * 4096 + Low6(s[1]) * 64 + Low6(s[2])
  {
    if |s| == 1 {
      assert s[1..] == [];
    } else if |s| == 2 {
      assert s[1..][0] == s[1] && s[1..][1..] == [];
      assert SixBits(high, s) == SixBits((high * 64 + Low6(s[0])) * 64 + Low6(s[1]), []);
    } else if |s| == 3 {
      var next := high * 64 + Low6(s[0]);
      assert s[1..][0] == s[1] && s[1..][1..][0] == s[2] && s[1..][1..][1..] == [];
      assert SixBits(high, s) == SixBits(next, s[1..]);
      assert SixBits(next, s[1..]) == SixBits(next * 64 + Low6(s[1]), s[1..][1..]);
      assert SixBits(next * 64 + Low6(s[1]), s[1..][1..]) == SixBits((next * 64 + Low6(s[1])) * 64 + Low6(s[2]), []);
    }
  }

  /** The printable bytes end at these places; the others are numbered from 256 on. */
  lemma KnownCodepoints()
    ensures CodepointOf(0) == 0x100 && CodepointOf(0x0A) == 0x10A && CodepointOf(0x20) == 0x120
    ensures CodepointOf(0x21) == 0x21 && CodepointOf(0x7E) == 0x7E && CodepointOf(0x7F) == 0x121
    ensures CodepointOf(0xA0) == 0x142 && CodepointOf(0xA1) == 0xA1 && CodepointOf(0xAC) == 0xAC
    ensures CodepointOf(0xAD) == 0x143 && CodepointOf(0xAE) == 0xAE && CodepointOf(0xFF) == 0xFF
    ensures forall b: Byte | b < 255 && CodepointOf(b) >= 0x100 && CodepointOf(b + 1) >= 0x100 ::
        CodepointOf(b + 1) == CodepointOf(b) + 1
  {
  }
}
