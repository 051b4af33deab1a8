/** Byte-level BPE: splitting, merging, decoding. */
module BpeTokenizer {
  import opened BytePairs
  import opened Chunks
  import opened LittleEndian
  import opened Results
  import opened Sequences
  import opened Utf8

  /** The tables `load` leaves behind; they do not change afterwards. */
  datatype Tokenizer = Tokenizer(vocab: map<Bytes, int>, idToToken: seq<Bytes>, ranks: Ranks,
                                 added: seq<(Bytes, int)>, special: seq<bool>, bosId: int, eosId: int, unkId: int)

  type Matcher = (Bytes, nat) -> Option<(nat, nat)>

  // ----- pre-tokens

  ghost predicate InBounds(find: Matcher) {
    forall text: Bytes, start: nat | start <= |text| && find(text, start).Some? ::
      start <= find(text, start).value.0 <= find(text, start).value.1 <= |text|
  }

  ghost function PreTokens(find: Matcher, text: Bytes, start: nat): seq<Bytes>
    requires InBounds(find)
    decreases |text| + 1 - start
  {
    if start > |text| then []
    else match find(text, start)
      case None => []
      case Some((from, to)) =>
        if from == to then PreTokens(find, text, start + 1) else [text[from..to]] + PreTokens(find, text, to)
  }

  method FindAll(find: Matcher, text: Bytes) returns (out: seq<Bytes>)
    requires InBounds(find)
    ensures out == PreTokens(find, text, 0)
  {
    out := [];
    var start := 0;
    while start <= |text|
      invariant 0 <= start <= |text| + 1
      invariant out + PreTokens(find, text, start) == PreTokens(find, text, 0)
    {
      var m := find(text, start);
      if m.None? { break; }
      var (from, to) := m.value;
      if from == to {
        start := start + 1;
      } else {
        assert out + [text[from..to]] + PreTokens(find, text, to) == out
          + ([text[from..to]] + PreTokens(find, text, to));
        out := out + [text[from..to]];
        start := to;
      }
    }
  }

  /** From `start` on, matches follow one another without leaving a byte out. */
  ghost predicate Contiguous(find: Matcher, text: Bytes, start: nat)
    decreases |text| - start
  {
    start >= |text|
    || (&& find(text, start).Some? && find(text, start).value.0 == start < find(text, start).value.1 <= |text|
        && Contiguous(find, text, find(text, start).value.1))
  }

  /** The pre-tokens tile the rest of a text when matches are contiguous; otherwise they are shorter. */
  lemma {:induction false} PreTokensTile(find: Matcher, text: Bytes, start: nat)
    requires InBounds(find) && start <= |text|
    ensures if Contiguous(find, text, start) then Gather(PreTokens(find, text, start)) == text[start..]
            else |Gather(PreTokens(find, text, start))| < |text| - start
    decreases |text| - start
  {
    match find(text, start)
    case None =>
    case Some((from, to)) =>
      if from < to {
        PreTokensTile(find, text, to);
        GatherCons(text[from..to], PreTokens(find, text, to));
        assert text[start..to] + text[to..] == text[start..];
      } else if start < |text| {
        PreTokensTile(find, text, start + 1);
      }
  }

  // ----- from a pre-token to ids

  function Initial(chunk: Bytes): (parts: seq<Bytes>)
    ensures |parts| == |chunk| && forall i | 0 <= i < |chunk| :: parts[i] == Append(CodepointOf(chunk[i]))
  {
    seq(|chunk|, i requires 0 <= i < |chunk| => Append(CodepointOf(chunk[i])))
  }

  function IdOf(t: Tokenizer, part: Bytes): seq<int> {
    if part in t.vocab then [t.vocab[part]] else if t.unkId >= 0 then [t.unkId] else []
  }

  function IdsOf(t: Tokenizer, parts: seq<Bytes>): seq<int> {
    if parts == [] then [] else IdOf(t, parts[0]) + IdsOf(t, parts[1..])
  }

  ghost function ChunkIds(t: Tokenizer, chunk: Bytes): seq<int> {
    IdsOf(t, Merged(t.ranks, Initial(chunk)))
  }

  method EncodePretoken(t: Tokenizer, table: array<Codepoint>, chunk: Bytes) returns (ids: seq<int>)
    requires table.Length == 256 && forall b: Byte :: table[b] == CodepointOf(b)
    ensures ids == ChunkIds(t, chunk)
  {
    var parts: seq<Bytes> := [];
    NoBest(t.ranks, Initial([]));
    if chunk == [] { return []; }
    for i := 0 to |chunk|
      invariant parts == Initial(chunk[..i])
    {
      assert Initial(chunk[..i + 1]) == Initial(chunk[..i]) + [Append(CodepointOf(chunk[i]))];
      parts := parts + [Append(table[chunk[i]])];
    }
    assert chunk[..|chunk|] == chunk;
    if |parts| == 1 {
      NoBest(t.ranks, parts);
      assert IdsOf(t, parts) == IdOf(t, parts[0]) + [];
      if parts[0] in t.vocab { return [t.vocab[parts[0]]]; }
      if t.unkId >= 0 { return [t.unkId]; }
      return [];
    }
    parts := Merge(t.ranks, parts);
    ids := CollectIds(t, parts);
  }

  method CollectIds(t: Tokenizer, parts: seq<Bytes>) returns (ids: seq<int>)
    ensures ids == IdsOf(t, parts)
  {
    ids := [];
    assert parts[0..] == parts;
    var i := 0;
    while i < |parts|
      invariant 0 <= i <= |parts| && ids + IdsOf(t, parts[i..]) == IdsOf(t, parts)
    {
      assert parts[i..][1..] == parts[i + 1..];
      assert ids + IdOf(t, parts[i]) + IdsOf(t, parts[i + 1..]) == ids + (IdOf(t, parts[i]) + IdsOf(t, parts[i + 1..]));
      if parts[i] in t.vocab {
        ids := ids + [t.vocab[parts[i]]];
      } else if t.unkId >= 0 {
        ids := ids + [t.unkId];
      }
      i := i + 1;
    }
  }

  ghost function ChunksIds(t: Tokenizer, chunks: seq<Bytes>): seq<int> {
    if chunks == [] then [] else ChunkIds(t, chunks[0]) + ChunksIds(t, chunks[1..])
  }

  method EncodeSegment(t: Tokenizer, find: Matcher, table: array<Codepoint>, text: Bytes) returns (ids: seq<int>)
    requires InBounds(find) && table.Length == 256 && forall b: Byte :: table[b] == CodepointOf(b)
    ensures ids == ChunksIds(t, PreTokens(find, text, 0))
  {
    ids := [];
    var chunks := FindAll(find, text);
    assert chunks[0..] == chunks;
    var i := 0;
    while i < |chunks|
      invariant 0 <= i <= |chunks| && ids + ChunksIds(t, chunks[i..]) == ChunksIds(t, chunks)
    {
      var piece := EncodePretoken(t, table, chunks[i]);
      assert chunks[i..][1..] == chunks[i + 1..];
      assert ids + piece + ChunksIds(t, chunks[i + 1..]) == ids + (piece + ChunksIds(t, chunks[i + 1..]));
      ids := ids + piece;
      i := i + 1;
    }
  }

  // ----- what ids stand for

  /** What an id adds to the text the decoder concatenates. */
  function TokenText(t: Tokenizer, id: int, skipSpecial: bool): Bytes
    requires |t.special| == |t.idToToken|
  {
    if id < 0 || id >= |t.idToToken| || (skipSpecial && t.special[id]) then [] else t.idToToken[id]
  }

  function TextOf(t: Tokenizer, ids: seq<int>, skipSpecial: bool): Bytes
    requires |t.special| == |t.idToToken|
  {
    if ids == [] then [] else TokenText(t, ids[0], skipSpecial) + TextOf(t, ids[1..], skipSpecial)
  }

  method ConcatTokens(t: Tokenizer, ids: seq<int>, skipSpecial: bool) returns (text: Bytes)
    requires |t.special| == |t.idToToken|
    ensures text == TextOf(t, ids, skipSpecial)
  {
    text := [];
    assert ids[0..] == ids;
    var i := 0;
    while i < |ids|
      invariant 0 <= i <= |ids| && text + TextOf(t, ids[i..], skipSpecial) == TextOf(t, ids, skipSpecial)
    {
      assert ids[i..][1..] == ids[i + 1..];
      Reassociate(text, TokenText(t, ids[i], skipSpecial), TextOf(t, ids[i + 1..], skipSpecial));
      var id := ids[i];
      i := i + 1;
      if id < 0 || id >= |t.idToToken| { continue; }
      if skipSpecial && t.special[id] { continue; }
      text := text + t.idToToken[id];
    }
  }

  method DecodeIds(t: Tokenizer, ids: seq<int>, skipSpecial: bool, inverse: map<Codepoint, Byte>) returns (out: Bytes)
    requires |t.special| == |t.idToToken|
    requires forall cp: Codepoint :: ByteOf(cp) == if cp in inverse then Some(inverse[cp]) else None
    ensures out == Rendered(TextOf(t, ids, skipSpecial))
  {
    var text := ConcatTokens(t, ids, skipSpecial);
    var _, cps := Utf8Decode(text);
    out := RenderCodepoints(cps, inverse);
  }

  method RenderCodepoints(cps: seq<Codepoint>, inverse: map<Codepoint, Byte>) returns (out: Bytes)
    requires forall cp: Codepoint :: ByteOf(cp) == if cp in inverse then Some(inverse[cp]) else None
    ensures out == RenderAll(cps)
  {
    out := [];
    assert cps[0..] == cps;
    var i := 0;
    while i < |cps|
      invariant 0 <= i <= |cps| && out + RenderAll(cps[i..]) == RenderAll(cps)
    {
      assert cps[i..][1..] == cps[i + 1..];
      assert out + Render1(cps[i]) + RenderAll(cps[i + 1..]) == out + (Render1(cps[i]) + RenderAll(cps[i + 1..]));
      if cps[i] in inverse {
        out := out + [inverse[cps[i]]];
      } else {
        out := out + Append(cps[i]);
      }
      i := i + 1;
    }
  }

  // ----- the hypotheses on loaded tables

  /** Ids are in range and name their token: so different tokens have different ids. */
  predicate Loaded(t: Tokenizer) {
    && |t.special| == |t.idToToken|
    && (forall token | token in t.vocab :: 0 <= t.vocab[token] < |t.idToToken| && t.idToToken[t.vocab[token]] == token)
    && (forall k | 0 <= k < |t.added| ::
          0 <= t.added[k].1 < |t.idToToken| && t.idToToken[t.added[k].1] == t.added[k].0 && WellFormed(t.added[k].0))
  }

  /** Every byte is a token, and merging two tokens gives a token. */
  predicate Complete(t: Tokenizer) {
    (forall b: Byte :: Append(CodepointOf(b)) in t.vocab) && ClosedUnderMerges(t.vocab, t.ranks)
  }

  lemma {:induction false} TextOfConcat(t: Tokenizer, a: seq<int>, b: seq<int>)
    requires |t.special| == |t.idToToken|
    ensures TextOf(t, a + b, false) == TextOf(t, a, false) + TextOf(t, b, false)
  {
    if a == [] {
      assert [] + b == b;
    } else {
      assert (a + b)[0] == a[0] && (a + b)[1..] == a[1..] + b;
      TextOfConcat(t, a[1..], b);
      Reassociate(TokenText(t, a[0], false), TextOf(t, a[1..], false), TextOf(t, b, false));
    }
  }

  lemma TextOfOne(t: Tokenizer, id: int)
    requires |t.special| == |t.idToToken| && 0 <= id < |t.idToToken|
    ensures TextOf(t, [id], false) == t.idToToken[id]
  {
    assert TextOf(t, [id], false) == t.idToToken[id] + TextOf(t, [], false);
  }

  lemma {:induction false} IdsText(t: Tokenizer, parts: seq<Bytes>)
    requires Loaded(t) && AllTokens(t.vocab, parts)
    ensures TextOf(t, IdsOf(t, parts), false) == Gather(parts)
  {
    if parts != [] {
      assert AllTokens(t.vocab, parts[1..]);
      GatherFirst(parts);
      IdsText(t, parts[1..]);
      TextOfConcat(t, IdOf(t, parts[0]), IdsOf(t, parts[1..]));
      TextOfOne(t, t.vocab[parts[0]]);
    }
  }

  lemma {:induction false} InitialConcat(chunk: Bytes)
    ensures Gather(Initial(chunk)) == Visible(chunk)
  {
    if chunk != [] {
      GatherFirst(Initial(chunk));
      InitialConcat(chunk[1..]);
      assert Initial(chunk)[1..] == Initial(chunk[1..]);
      assert VisibleCodepoints(chunk)[1..] == VisibleCodepoints(chunk[1..]);
    }
  }

  lemma ChunkText(t: Tokenizer, chunk: Bytes)
    requires Loaded(t) && Complete(t)
    ensures TextOf(t, ChunkIds(t, chunk), false) == Visible(chunk)
  {
    assert AllTokens(t.vocab, Initial(chunk));
    MergedAreTokens(t.vocab, t.ranks, Initial(chunk));
    IdsText(t, Merged(t.ranks, Initial(chunk)));
    MergedKeeps(t.ranks, Initial(chunk));
    InitialConcat(chunk);
  }

  /** The ids of pre-tokens stand for the visible form of all their bytes. */
  lemma {:induction false} ChunksText(t: Tokenizer, chunks: seq<Bytes>)
    requires Loaded(t) && Complete(t)
    ensures TextOf(t, ChunksIds(t, chunks), false) == Visible(Gather(chunks))
  {
    if chunks != [] {
      GatherFirst(chunks);
      ChunkText(t, chunks[0]);
      ChunksText(t, chunks[1..]);
      TextOfConcat(t, ChunkIds(t, chunks[0]), ChunksIds(t, chunks[1..]));
      VisibleConcat(chunks[0], Gather(chunks[1..]));
    }
  }
}
