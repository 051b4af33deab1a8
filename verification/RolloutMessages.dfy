/** Rollout requests and responses as the shared-memory transport lays them out, byte by byte. */
module RolloutMessages {
  import opened ByteCodec
  import opened LittleEndian
  import opened Results

  // ----- string maps, kept in ascending key order

  predicate Less(a: Str, b: Str) {
    if b == [] then false
    else if a == [] then true
    else a[0] < b[0] || (a[0] == b[0] && Less(a[1..], b[1..]))
  }

  lemma {:induction false} LessIsStrict(a: Str, b: Str)
    requires Less(a, b)
    ensures a != b && !Less(b, a)
  {
    if a != [] && a[0] == b[0] { LessIsStrict(a[1..], b[1..]); }
  }

  type Entry = (Str, Str)

  predicate Ascending(m: seq<Entry>) {
    forall i, j | 0 <= i < j < |m| :: Less(m[i].0, m[j].0)
  }

  /** std::map::emplace: an existing key keeps its value. */
  function Emplace(m: seq<Entry>, e: Entry): seq<Entry> {
    if m == [] || Less(e.0, m[0].0) then [e] + m
    else if m[0].0 == e.0 then m
    else [m[0]] + Emplace(m[1..], e)
  }

  function EmplaceAll(m: seq<Entry>, entries: seq<Entry>): seq<Entry>
    decreases |entries|
  {
    if entries == [] then m else EmplaceAll(Emplace(m, entries[0]), entries[1..])
  }

  lemma {:induction false} EmplaceLast(m: seq<Entry>, e: Entry)
    requires forall i | 0 <= i < |m| :: Less(m[i].0, e.0)
    ensures Emplace(m, e) == m + [e]
  {
    if m != [] {
      LessIsStrict(m[0].0, e.0);
      EmplaceLast(m[1..], e);
    }
  }

  lemma {:induction false} EmplaceAscending(m: seq<Entry>, entries: seq<Entry>)
    requires Ascending(m + entries)
    ensures EmplaceAll(m, entries) == m + entries
    decreases |entries|
  {
    if entries == [] {
      assert m + entries == m;
    } else {
      forall i | 0 <= i < |m| ensures Less(m[i].0, entries[0].0) {
        assert Less((m + entries)[i].0, (m + entries)[|m|].0);
      }
      EmplaceLast(m, entries[0]);
      assert m + [entries[0]] + entries[1..] == m + entries;
      EmplaceAscending(m + [entries[0]], entries[1..]);
    }
  }

  // ----- messages; floats travel as their bit patterns

  datatype Header = Header(requestId: U64, n: U32, maxTokens: U32, temperature: U64, topP: U64, topK: I32, seed: U64,
                           returnTokenIds: bool, returnLogprobs: bool)

  datatype Request = Request(header: Header, model: Str, prompts: seq<Str>, promptTokenIds: seq<seq<I32>>,
    stop: seq<Str>,
                             extraParams: seq<Entry>)

  datatype Sequence = Sequence(promptIndex: U32, sampleIndex: U32, text: Str, tokenIds: seq<I32>, logprobs: seq<U32>,
    finishReason: Str)

  datatype Response = Response(requestId: U64, sequences: seq<Sequence>, metrics: seq<Entry>)

  function AllUnsigned(ids: seq<I32>): (words: seq<U32>)
    ensures |words| == |ids|
  {
    seq(|ids|, i requires 0 <= i < |ids| => Unsigned(ids[i]))
  }

  function AllSigned(words: seq<U32>): (ids: seq<I32>)
    ensures |ids| == |words|
  {
    seq(|words|, i requires 0 <= i < |words| => Signed(words[i]))
  }

  lemma SignedRoundTrip(ids: seq<I32>)
    ensures AllSigned(AllUnsigned(ids)) == ids
  {
  }

  // ----- layout of parts

  function Flags(h: Header): U32 {
    (if h.returnTokenIds then 1 else 0) + if h.returnLogprobs then 2 else 0
  }

  function HeaderBytes(h: Header): (b: Bytes)
    ensures |b| == 48
  {
    U64Bytes(h.requestId) + U32Bytes(h.n) + U32Bytes(h.maxTokens) + U64Bytes(h.temperature) + U64Bytes(h.topP)
    + U32Bytes(Unsigned(h.topK)) + U64Bytes(h.seed) + U32Bytes(Flags(h))
  }

  function ParseHeader(s: Bytes): Option<(Header, Bytes)> {
    var id :- ParseU64(s);
    var n :- ParseU32(id.1);
    var maxTokens :- ParseU32(n.1);
    var temperature :- ParseU64(maxTokens.1);
    var topP :- ParseU64(temperature.1);
    var topK :- ParseU32(topP.1);
    var seed :- ParseU64(topK.1);
    var flags :- ParseU32(seed.1);
    Some((Header(id.0, n.0, maxTokens.0, temperature.0, topP.0, Signed(topK.0), seed.0, flags.0 % 2 == 1,
      flags.0 / 2 % 2 == 1), flags.1))
  }

  function EntryBytes(e: Entry): Bytes {
    StrBytes(e.0) + StrBytes(e.1)
  }

  function ParseEntry(s: Bytes): Option<(Entry, Bytes)> {
    var k :- ParseStr(s);
    var v :- ParseStr(k.1);
    Some(((k.0, v.0), v.1))
  }

  function IdBytes(ids: seq<I32>): Bytes {
    VecBytes(AllUnsigned(ids))
  }

  function ParseIds(s: Bytes): Option<(seq<I32>, Bytes)> {
    var words :- ParseVec(s);
    Some((AllSigned(words.0), words.1))
  }

  function SequenceBytes(q: Sequence): Bytes {
    U32Bytes(q.promptIndex) + U32Bytes(q.sampleIndex) + StrBytes(q.text) + IdBytes(q.tokenIds) + VecBytes(q.logprobs)
      + StrBytes(q.finishReason)
  }

  function ParseSequence(s: Bytes): Option<(Sequence, Bytes)> {
    var promptIndex :- ParseU32(s);
    var sampleIndex :- ParseU32(promptIndex.1);
    var text :- ParseStr(sampleIndex.1);
    var tokenIds :- ParseIds(text.1);
    var logprobs :- ParseVec(tokenIds.1);
    var finishReason :- ParseStr(logprobs.1);
    Some((Sequence(promptIndex.0, sampleIndex.0, text.0, tokenIds.0, logprobs.0, finishReason.0), finishReason.1))
  }

  function Parts<T>(xs: seq<T>, f: T -> Bytes): (parts: seq<Bytes>)
    ensures |parts| == |xs| && forall i | 0 <= i < |xs| :: parts[i] == f(xs[i])
  {
    seq(|xs|, i requires 0 <= i < |xs| => f(xs[i]))
  }

  // ----- whole messages

  function RequestBytes(q: Request): Bytes {
    HeaderBytes(q.header) + StrBytes(q.model) + CountedBytes(Parts(q.prompts, StrBytes))
      + CountedBytes(Parts(q.promptTokenIds, IdBytes))
    + CountedBytes(Parts(q.stop, StrBytes)) + CountedBytes(Parts(q.extraParams, EntryBytes))
  }

  function ParseRequest(s: Bytes): Option<Request> {
    var header :- ParseHeader(s);
    var model :- ParseStr(header.1);
    var prompts :- ParseCounted(ParseStr, model.1);
    var promptTokenIds :- ParseCounted(ParseIds, prompts.1);
    var stop :- ParseCounted(ParseStr, promptTokenIds.1);
    var extraParams :- ParseCounted(ParseEntry, stop.1);
    Some(Request(header.0, model.0, prompts.0, promptTokenIds.0, stop.0, EmplaceAll([], extraParams.0)))
  }

  function ResponseBytes(p: Response): Bytes {
    U64Bytes(p.requestId) + CountedBytes(Parts(p.sequences, SequenceBytes)) + CountedBytes(Parts(p.metrics, EntryBytes))
  }

  function ParseResponse(s: Bytes): Option<Response> {
    var id :- ParseU64(s);
    var sequences :- ParseCounted(ParseSequence, id.1);
    var metrics :- ParseCounted(ParseEntry, sequences.1);
    Some(Response(id.0, sequences.0, EmplaceAll([], metrics.0)))
  }

  // ----- round trips

  lemma FlagBits(h: Header)
    ensures (Flags(h) % 2 == 1) == h.returnTokenIds && (Flags(h) / 2 % 2 == 1) == h.returnLogprobs
  {
  }

  lemma HeaderRoundTrip(h: Header, rest: Bytes)
    ensures ParseHeader(HeaderBytes(h) + rest) == Some((h, rest))
  {
    hide ParseU32, ParseU64, U32Bytes, U64Bytes, Flags;
    var s7 := U32Bytes(Flags(h)) + rest;
    var s6 := U64Bytes(h.seed) + s7;
    var s5 := U32Bytes(Unsigned(h.topK)) + s6;
    var s4 := U64Bytes(h.topP) + s5;
    var s3 := U64Bytes(h.temperature) + s4;
    var s2 := U32Bytes(h.maxTokens) + s3;
    var s1 := U32Bytes(h.n) + s2;
    assert HeaderBytes(h) + rest == U64Bytes(h.requestId) + s1;
    U64RoundTrip(h.requestId, s1);
    U32RoundTrip(h.n, s2);
    U32RoundTrip(h.maxTokens, s3);
    U64RoundTrip(h.temperature, s4);
    U64RoundTrip(h.topP, s5);
    U32RoundTrip(Unsigned(h.topK), s6);
    U64RoundTrip(h.seed, s7);
    U32RoundTrip(Flags(h), rest);
    FlagBits(h);
  }

  lemma EntryRoundTrip(e: Entry, rest: Bytes)
    requires |EntryBytes(e)| < 0x1_0000_0000
    ensures ParseEntry(EntryBytes(e) + rest) == Some((e, rest))
  {
    assert EntryBytes(e) + rest == StrBytes(e.0) + (StrBytes(e.1) + rest);
    StrRoundTrip(e.0, StrBytes(e.1) + rest);
    StrRoundTrip(e.1, rest);
  }

  lemma IdsRoundTrip(ids: seq<I32>, rest: Bytes)
    requires |IdBytes(ids)| < 0x1_0000_0000
    ensures ParseIds(IdBytes(ids) + rest) == Some((ids, rest))
  {
    VecRoundTrip(AllUnsigned(ids), rest);
    SignedRoundTrip(ids);
  }

  lemma SequenceSizes(q: Sequence)
    requires |SequenceBytes(q)| < 0x1_0000_0000
    ensures |q.text| < 0x1_0000_0000 && |IdBytes(q.tokenIds)| < 0x1_0000_0000 && |q.logprobs| < 0x1_0000_0000
    ensures |q.finishReason| < 0x1_0000_0000
  {
  }

  lemma SequenceRoundTrip(q: Sequence, rest: Bytes)
    requires |SequenceBytes(q)| < 0x1_0000_0000
    ensures ParseSequence(SequenceBytes(q) + rest) == Some((q, rest))
  {
    var s5 := StrBytes(q.finishReason) + rest;
    var s4 := VecBytes(q.logprobs) + s5;
    var s3 := IdBytes(q.tokenIds) + s4;
    var s2 := StrBytes(q.text) + s3;
    var s1 := U32Bytes(q.sampleIndex) + s2;
    assert SequenceBytes(q) + rest == U32Bytes(q.promptIndex) + s1 by {
      Assoc6(U32Bytes(q.promptIndex), U32Bytes(q.sampleIndex), StrBytes(q.text), IdBytes(q.tokenIds),
        VecBytes(q.logprobs), StrBytes(q.finishReason), rest);
    }
    SequenceSizes(q);
    assert ParseU32(SequenceBytes(q) + rest) == Some((q.promptIndex, s1)) by { U32RoundTrip(q.promptIndex, s1); }
    assert ParseU32(s1) == Some((q.sampleIndex, s2)) by { U32RoundTrip(q.sampleIndex, s2); }
    assert ParseStr(s2) == Some((q.text, s3)) by { StrRoundTrip(q.text, s3); }
    assert ParseIds(s3) == Some((q.tokenIds, s4)) by { IdsRoundTrip(q.tokenIds, s4); }
    assert ParseVec(s4) == Some((q.logprobs, s5)) by { VecRoundTrip(q.logprobs, s5); }
    assert ParseStr(s5) == Some((q.finishReason, rest)) by { StrRoundTrip(q.finishReason, rest); }
  }

  /** A list whose layout is below 4 GiB has a count and parts below 4 GiB. */
  lemma CountedSizes(parts: seq<Bytes>)
    requires |CountedBytes(parts)| < 0x1_0000_0000 && forall i | 0 <= i < |parts| :: |parts[i]| >= 1
    ensures |parts| < 0x1_0000_0000 && forall i | 0 <= i < |parts| :: |parts[i]| < 0x1_0000_0000
  {
    FlattenAtLeastOne(parts);
    forall i | 0 <= i < |parts| ensures |parts[i]| < 0x1_0000_0000 { FlattenPart(parts, i); }
  }

  lemma StringsRoundTrip(xs: seq<Str>, rest: Bytes)
    requires |CountedBytes(Parts(xs, StrBytes))| < 0x1_0000_0000
    ensures ParseCounted(ParseStr, CountedBytes(Parts(xs, StrBytes)) + rest) == Some((xs, rest))
  {
    var parts := Parts(xs, StrBytes);
    CountedSizes(parts);
    forall i, r: Bytes | 0 <= i < |xs| ensures Parses(ParseStr, parts[i], xs[i], r) { StrRoundTrip(xs[i], r); }
    CountedRoundTrip(parts, ParseStr, xs, rest);
  }

  lemma IdListsRoundTrip(xs: seq<seq<I32>>, rest: Bytes)
    requires |CountedBytes(Parts(xs, IdBytes))| < 0x1_0000_0000
    ensures ParseCounted(ParseIds, CountedBytes(Parts(xs, IdBytes)) + rest) == Some((xs, rest))
  {
    var parts := Parts(xs, IdBytes);
    CountedSizes(parts);
    forall i, r: Bytes | 0 <= i < |xs| ensures Parses(ParseIds, parts[i], xs[i], r) { IdsRoundTrip(xs[i], r); }
    CountedRoundTrip(parts, ParseIds, xs, rest);
  }

  lemma EntriesRoundTrip(xs: seq<Entry>, rest: Bytes)
    requires |CountedBytes(Parts(xs, EntryBytes))| < 0x1_0000_0000
    ensures ParseCounted(ParseEntry, CountedBytes(Parts(xs, EntryBytes)) + rest) == Some((xs, rest))
  {
    var parts := Parts(xs, EntryBytes);
    CountedSizes(parts);
    forall i, r: Bytes | 0 <= i < |xs| ensures Parses(ParseEntry, parts[i], xs[i], r) { EntryRoundTrip(xs[i], r); }
    CountedRoundTrip(parts, ParseEntry, xs, rest);
  }

  lemma SequencesRoundTrip(xs: seq<Sequence>, rest: Bytes)
    requires |CountedBytes(Parts(xs, SequenceBytes))| < 0x1_0000_0000
    ensures ParseCounted(ParseSequence, CountedBytes(Parts(xs, SequenceBytes)) + rest) == Some((xs, rest))
  {
    var parts := Parts(xs, SequenceBytes);
    CountedSizes(parts);
    forall i, r: Bytes | 0 <= i < |xs|
      ensures Parses(ParseSequence, parts[i], xs[i], r)
    {
      SequenceRoundTrip(xs[i], r);
    }
    CountedRoundTrip(parts, ParseSequence, xs, rest);
  }

  lemma RequestSizes(q: Request)
    requires |RequestBytes(q)| < 0x1_0000_0000
    ensures |q.model| < 0x1_0000_0000 && |CountedBytes(Parts(q.prompts, StrBytes))| < 0x1_0000_0000
    ensures |CountedBytes(Parts(q.promptTokenIds, IdBytes))| < 0x1_0000_0000
    ensures |CountedBytes(Parts(q.stop, StrBytes))| < 0x1_0000_0000
    ensures |CountedBytes(Parts(q.extraParams, EntryBytes))| < 0x1_0000_0000
  {
  }

  lemma AllEmplaced(m: seq<Entry>)
    requires Ascending(m)
    ensures EmplaceAll([], m) == m
  {
    assert [] + m == m;
    EmplaceAscending([], m);
  }

  lemma EntriesRead(m: seq<Entry>)
    requires |CountedBytes(Parts(m, EntryBytes))| < 0x1_0000_0000
    ensures ParseCounted(ParseEntry, CountedBytes(Parts(m, EntryBytes))) == Some((m, []))
  {
    EntriesRoundTrip(m, []);
    assert CountedBytes(Parts(m, EntryBytes)) + [] == CountedBytes(Parts(m, EntryBytes));
  }

  /** A request that was laid out in less than 4 GiB is read back as it was. */
  lemma RequestRoundTrip(q: Request)
    requires |RequestBytes(q)| < 0x1_0000_0000 && Ascending(q.extraParams)
    ensures ParseRequest(RequestBytes(q)) == Some(q)
  {
    RequestSizes(q);
    var s4 := CountedBytes(Parts(q.extraParams, EntryBytes));
    var s3 := CountedBytes(Parts(q.stop, StrBytes)) + s4;
    var s2 := CountedBytes(Parts(q.promptTokenIds, IdBytes)) + s3;
    var s1 := CountedBytes(Parts(q.prompts, StrBytes)) + s2;
    var s0 := StrBytes(q.model) + s1;
    assert RequestBytes(q) == HeaderBytes(q.header) + s0 by {
      Assoc6(HeaderBytes(q.header), StrBytes(q.model), CountedBytes(Parts(q.prompts, StrBytes)),
        CountedBytes(Parts(q.promptTokenIds, IdBytes)),
             CountedBytes(Parts(q.stop, StrBytes)), s4, []);
      assert s4 + [] == s4;
      assert RequestBytes(q) + [] == RequestBytes(q);
    }
    assert ParseHeader(RequestBytes(q)) == Some((q.header, s0)) by { HeaderRoundTrip(q.header, s0); }
    assert ParseStr(s0) == Some((q.model, s1)) by { StrRoundTrip(q.model, s1); }
    assert ParseCounted(ParseStr, s1) == Some((q.prompts, s2)) by { StringsRoundTrip(q.prompts, s2); }
    assert ParseCounted(ParseIds, s2) == Some((q.promptTokenIds, s3)) by { IdListsRoundTrip(q.promptTokenIds, s3); }
    assert ParseCounted(ParseStr, s3) == Some((q.stop, s4)) by { StringsRoundTrip(q.stop, s4); }
    assert ParseCounted(ParseEntry, s4) == Some((q.extraParams, [])) by { EntriesRead(q.extraParams); }
    AllEmplaced(q.extraParams);
  }

  lemma ResponseRoundTrip(p: Response)
    requires |ResponseBytes(p)| < 0x1_0000_0000 && Ascending(p.metrics)
    ensures ParseResponse(ResponseBytes(p)) == Some(p)
  {
    var s1 := CountedBytes(Parts(p.metrics, EntryBytes));
    var s0 := CountedBytes(Parts(p.sequences, SequenceBytes)) + s1;
    assert ResponseBytes(p) == U64Bytes(p.requestId) + s0;
    assert ParseU64(ResponseBytes(p)) == Some((p.requestId, s0)) by { U64RoundTrip(p.requestId, s0); }
    assert ParseCounted(ParseSequence, s0) == Some((p.sequences, s1)) by { SequencesRoundTrip(p.sequences, s1); }
    assert ParseCounted(ParseEntry, s1) == Some((p.metrics, [])) by { EntriesRead(p.metrics); }
    AllEmplaced(p.metrics);
  }
}
