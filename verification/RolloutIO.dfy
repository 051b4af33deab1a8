/** Writing requests and responses into a shared buffer and reading them back, field by field. */
module RolloutIO {
  import opened ByteCodec
  import opened Chunks
  import opened LittleEndian
  import opened Results
  import opened RolloutMessages
  import opened Sequences

  // ----- writing

  lemma {:induction false} FlattenTo(parts: seq<Bytes>, i: nat)
    requires i <= |parts|
    ensures |Gather(parts[..i])| <= |Gather(parts)|
    decreases |parts| - i
  {
    if i == |parts| {
      assert parts[..i] == parts;
    } else {
      FlattenStep(parts, i);
      FlattenTo(parts, i + 1);
    }
  }

  lemma FlattenStep(parts: seq<Bytes>, i: nat)
    requires i < |parts|
    ensures Gather(parts[..i + 1]) == Gather(parts[..i]) + parts[i]
  {
    assert parts[..i + 1][..i] == parts[..i];
  }

  /** A count and then the elements, each laid out as its part. */
  method WriteList(w: Writer, parts: seq<Bytes>) returns (r: Result<()>)
    requires w.Valid()
    modifies w`pos, w.buffer
    ensures w.Valid()
    ensures r.Ok? <==> old(w.pos) + |CountedBytes(parts)| <= w.buffer.Length
    ensures r.Ok? ==> w.Contents() == old(w.Contents()) + CountedBytes(parts)
  {
    var _ :- WriteU32(w, Truncated(|parts|));
    r := WriteParts(w, parts);
    Reassociate(old(w.Contents()), U32Bytes(Truncated(|parts|)), Gather(parts));
  }

  method WriteParts(w: Writer, parts: seq<Bytes>) returns (r: Result<()>)
    requires w.Valid()
    modifies w`pos, w.buffer
    ensures w.Valid()
    ensures r.Ok? <==> old(w.pos) + |Gather(parts)| <= w.buffer.Length
    ensures r.Ok? ==> w.Contents() == old(w.Contents()) + Gather(parts)
  {
    ghost var before := w.Contents();
    var i := 0;
    while i < |parts|
      invariant 0 <= i <= |parts| && w.Valid() && w.Contents() == before + Gather(parts[..i])
    {
      FlattenStep(parts, i);
      FlattenTo(parts, i + 1);
      Reassociate(before, Gather(parts[..i]), parts[i]);
      var _ :- w.WriteBytes(parts[i]);
      i := i + 1;
    }
    assert parts[..i] == parts;
    return Ok(());
  }

  /** Everything before a list's elements that the two message layouts share. */
  method WriteHeader(w: Writer, h: Header) returns (r: Result<()>)
    requires w.Valid()
    modifies w`pos, w.buffer
    ensures w.Valid()
    ensures r.Ok? <==> old(w.pos) + 48 <= w.buffer.Length
    ensures r.Ok? ==> w.Contents() == old(w.Contents()) + HeaderBytes(h)
  {
    ghost var before := w.Contents();
    var _ :- WriteU64(w, h.requestId);
    var _ :- WriteU32(w, h.n);
    var _ :- WriteU32(w, h.maxTokens);
    var _ :- WriteU64(w, h.temperature);
    var _ :- WriteU64(w, h.topP);
    var _ :- WriteU32(w, Unsigned(h.topK));
    var _ :- WriteU64(w, h.seed);
    r := WriteU32(w, Flags(h));
    if r.Ok? {
      HeaderAssoc(before, U64Bytes(h.requestId), U32Bytes(h.n), U32Bytes(h.maxTokens), U64Bytes(h.temperature),
        U64Bytes(h.topP),
                  U32Bytes(Unsigned(h.topK)), U64Bytes(h.seed), U32Bytes(Flags(h)));
    }
  }

  lemma HeaderAssoc(z: Bytes, a: Bytes, b: Bytes, c: Bytes, d: Bytes, e: Bytes, f: Bytes, g: Bytes, h: Bytes)
    ensures z + a + b + c + d + e + f + g + h == z + (a + b + c + d + e + f + g + h)
  {
    Reassociate(z, a, b);
    Reassociate(z, a + b, c);
    Reassociate(z, a + b + c, d);
    Reassociate(z, a + b + c + d, e);
    Reassociate(z, a + b + c + d + e, f);
    Reassociate(z, a + b + c + d + e + f, g);
    Reassociate(z, a + b + c + d + e + f + g, h);
  }

  /** serialize_request: the layout, or an error exactly when it does not fit the buffer. */
  method SerializeRequest(q: Request, buffer: array<Byte>) returns (r: Result<nat>)
    modifies buffer
    ensures r.Ok? <==> |RequestBytes(q)| <= buffer.Length
    ensures r.Ok? ==> r.value == |RequestBytes(q)| && buffer[..r.value] == RequestBytes(q)
  {
    var w := new Writer(buffer);
    var _ :- WriteHeader(w, q.header);
    assert w.Contents() == HeaderBytes(q.header);
    var _ :- WriteString(w, q.model);
    var _ :- WriteList(w, Parts(q.prompts, StrBytes));
    var _ :- WriteList(w, Parts(q.promptTokenIds, IdBytes));
    var _ :- WriteList(w, Parts(q.stop, StrBytes));
    var _ :- WriteList(w, Parts(q.extraParams, EntryBytes));
    assert w.Contents() == RequestBytes(q);
    return Ok(w.pos);
  }

  method SerializeResponse(p: Response, buffer: array<Byte>) returns (r: Result<nat>)
    modifies buffer
    ensures r.Ok? <==> |ResponseBytes(p)| <= buffer.Length
    ensures r.Ok? ==> r.value == |ResponseBytes(p)| && buffer[..r.value] == ResponseBytes(p)
  {
    var w := new Writer(buffer);
    var _ :- WriteU64(w, p.requestId);
    assert w.Contents() == U64Bytes(p.requestId);
    var _ :- WriteList(w, Parts(p.sequences, SequenceBytes));
    var _ :- WriteList(w, Parts(p.metrics, EntryBytes));
    assert w.Contents() == ResponseBytes(p);
    return Ok(w.pos);
  }

  // ----- reading

  method ReadHeader(reader: Reader) returns (r: Result<Header>)
    requires reader.Valid()
    modifies reader`pos
    ensures reader.Valid() && Read(r, ParseHeader(old(reader.Rest())), reader.Rest())
  {
    var id :- reader.ReadU64();
    var n :- reader.ReadU32();
    var maxTokens :- reader.ReadU32();
    var temperature :- reader.ReadU64();
    var topP :- reader.ReadU64();
    var topK :- reader.ReadU32();
    var seed :- reader.ReadU64();
    var flags :- reader.ReadU32();
    return Ok(Header(id, n, maxTokens, temperature, topP, Signed(topK), seed, flags % 2 == 1, flags / 2 % 2 == 1));
  }

  /** With `done` read, parsing `n` more elements of `s` completes the list that parsing all gave. */
  ghost predicate ReadSoFar<T>(whole: Option<(seq<T>, Bytes)>, done: seq<T>, n: nat, parse: Parser<T>, s: Bytes) {
    match ParseMany(n, parse, s)
    case None => whole.None?
    case Some(q) => whole == Some((done + q.0, q.1))
  }

  lemma ReadNone<T>(n: nat, parse: Parser<T>, s: Bytes)
    ensures ReadSoFar(ParseMany(n, parse, s), [], n, parse, s)
  {
    match ParseMany(n, parse, s)
    case None =>
    case Some(q) => assert [] + q.0 == q.0;
  }

  lemma ReadAll<T>(whole: Option<(seq<T>, Bytes)>, done: seq<T>, parse: Parser<T>, s: Bytes)
    requires ReadSoFar(whole, done, 0, parse, s)
    ensures whole == Some((done, s))
  {
    assert done + [] == done;
  }

  lemma ReadOneMore<T>(whole: Option<(seq<T>, Bytes)>, done: seq<T>, n: nat, parse: Parser<T>, s: Bytes)
    requires n > 0 && ReadSoFar(whole, done, n, parse, s)
    ensures parse(s).None? ==> whole.None?
    ensures parse(s).Some? ==> ReadSoFar(whole, done + [parse(s).value.0], n - 1, parse, parse(s).value.1)
  {
    if parse(s).Some? {
      var p := parse(s).value;
      match ParseMany(n - 1, parse, p.1)
      case None =>
      case Some(q) => assert done + ([p.0] + q.0) == done + [p.0] + q.0;
    }
  }

  method ReadStrings(reader: Reader) returns (r: Result<seq<Str>>)
    requires reader.Valid()
    modifies reader`pos
    ensures reader.Valid() && Read(r, ParseCounted(ParseStr, old(reader.Rest())), reader.Rest())
  {
    var n :- reader.ReadU32();
    ghost var whole := ParseMany(n, ParseStr, reader.Rest());
    var xs: seq<Str>, left: nat := [], n;
    ReadNone(n, ParseStr, reader.Rest());
    while left > 0
      invariant reader.Valid() && ReadSoFar(whole, xs, left, ParseStr, reader.Rest())
    {
      ReadOneMore(whole, xs, left, ParseStr, reader.Rest());
      var x :- reader.ReadString();
      xs := xs + [x];
      left := left - 1;
    }
    ReadAll(whole, xs, ParseStr, reader.Rest());
    return Ok(xs);
  }

  method ReadIdLists(reader: Reader) returns (r: Result<seq<seq<I32>>>)
    requires reader.Valid()
    modifies reader`pos
    ensures reader.Valid() && Read(r, ParseCounted(ParseIds, old(reader.Rest())), reader.Rest())
  {
    var n :- reader.ReadU32();
    ghost var whole := ParseMany(n, ParseIds, reader.Rest());
    var xs: seq<seq<I32>>, left: nat := [], n;
    ReadNone(n, ParseIds, reader.Rest());
    while left > 0
      invariant reader.Valid() && ReadSoFar(whole, xs, left, ParseIds, reader.Rest())
    {
      ReadOneMore(whole, xs, left, ParseIds, reader.Rest());
      var x :- ReadIds(reader);
      xs := xs + [x];
      left := left - 1;
    }
    ReadAll(whole, xs, ParseIds, reader.Rest());
    return Ok(xs);
  }

  method ReadEntry(reader: Reader) returns (r: Result<Entry>)
    requires reader.Valid()
    modifies reader`pos
    ensures reader.Valid() && Read(r, ParseEntry(old(reader.Rest())), reader.Rest())
  {
    var k :- reader.ReadString();
    var v :- reader.ReadString();
    return Ok((k, v));
  }

  method ReadIds(reader: Reader) returns (r: Result<seq<I32>>)
    requires reader.Valid()
    modifies reader`pos
    ensures reader.Valid() && Read(r, ParseIds(old(reader.Rest())), reader.Rest())
  {
    var words :- reader.ReadVec();
    return Ok(AllSigned(words));
  }

  /** Read pairs and emplace them one by one. */
  method ReadEntries(reader: Reader) returns (r: Result<seq<Entry>>)
    requires reader.Valid()
    modifies reader`pos
    ensures reader.Valid()
    ensures match ParseCounted(ParseEntry, old(reader.Rest()))
            case None => r.Err?
            case Some(p) => r == Ok(EmplaceAll([], p.0)) && reader.Rest() == p.1
  {
    hide ParseEntry, ParseMany, Emplace, ReadSoFar;
    var n :- reader.ReadU32();
    ghost var whole := ParseMany(n, ParseEntry, reader.Rest());
    ghost var xs: seq<Entry> := [];
    var m: seq<Entry>, left: nat := [], n;
    ReadNone(n, ParseEntry, reader.Rest());
    while left > 0
      invariant reader.Valid() && m == EmplaceAll([], xs) && ReadSoFar(whole, xs, left, ParseEntry, reader.Rest())
    {
      ReadOneMore(whole, xs, left, ParseEntry, reader.Rest());
      var e :- ReadEntry(reader);
      EmplaceOneMore([], xs, e);
      m := Emplace(m, e);
      xs := xs + [e];
      left := left - 1;
    }
    ReadAll(whole, xs, ParseEntry, reader.Rest());
    return Ok(m);
  }

  lemma {:induction false} EmplaceOneMore(m: seq<Entry>, entries: seq<Entry>, e: Entry)
    ensures EmplaceAll(m, entries + [e]) == Emplace(EmplaceAll(m, entries), e)
    decreases |entries|
  {
    if entries == [] {
      assert [e][1..] == [];
    } else {
      EmplaceOneMore(Emplace(m, entries[0]), entries[1..], e);
      assert (entries + [e])[1..] == entries[1..] + [e];
    }
  }

  method ReadSequence(reader: Reader) returns (r: Result<Sequence>)
    requires reader.Valid()
    modifies reader`pos
    ensures reader.Valid() && Read(r, ParseSequence(old(reader.Rest())), reader.Rest())
  {
    var promptIndex :- reader.ReadU32();
    var sampleIndex :- reader.ReadU32();
    var text :- reader.ReadString();
    var tokenIds :- reader.ReadVec();
    var logprobs :- reader.ReadVec();
    var finishReason :- reader.ReadString();
    return Ok(Sequence(promptIndex, sampleIndex, text, AllSigned(tokenIds), logprobs, finishReason));
  }

  ghost predicate SequencesSoFar(whole: Option<(seq<Sequence>, Bytes)>, xs: seq<Sequence>, left: nat, s: Bytes) {
    ReadSoFar(whole, xs, left, ParseSequence, s)
  }

  /** One more sequence of a list. */
  method ReadNextSequence(reader: Reader, ghost whole: Option<(seq<Sequence>, Bytes)>, xs: seq<Sequence>, left: nat)
    returns (r: Result<seq<Sequence>>)
    requires reader.Valid() && left > 0 && SequencesSoFar(whole, xs, left, reader.Rest())
    modifies reader`pos
    ensures reader.Valid() && (r.Err? ==> whole.None?)
    ensures r.Ok? ==> SequencesSoFar(whole, r.value, left - 1, reader.Rest())
  {
    ReadOneMore(whole, xs, left, ParseSequence, reader.Rest());
    var x :- ReadSequence(reader);
    return Ok(xs + [x]);
  }

  method ReadSequences(reader: Reader) returns (r: Result<seq<Sequence>>)
    requires reader.Valid()
    modifies reader`pos
    ensures reader.Valid() && Read(r, ParseCounted(ParseSequence, old(reader.Rest())), reader.Rest())
  {
    hide ParseSequence, ParseMany, ReadSoFar;
    var n :- reader.ReadU32();
    ghost var whole := ParseMany(n, ParseSequence, reader.Rest());
    var xs: seq<Sequence>, left: nat := [], n;
    ReadNone(n, ParseSequence, reader.Rest());
    while left > 0
      invariant reader.Valid() && SequencesSoFar(whole, xs, left, reader.Rest())
    {
      xs :- ReadNextSequence(reader, whole, xs, left);
      left := left - 1;
    }
    ReadAll(whole, xs, ParseSequence, reader.Rest());
    return Ok(xs);
  }

  method DeserializeRequest(data: Bytes) returns (r: Result<Request>)
    ensures match ParseRequest(data) case None => r.Err? case Some(q) => r == Ok(q)
  {
    var reader := new Reader(data);
    var header :- ReadHeader(reader);
    var model :- reader.ReadString();
    var prompts :- ReadStrings(reader);
    var promptTokenIds :- ReadIdLists(reader);
    var stop :- ReadStrings(reader);
    var extraParams :- ReadEntries(reader);
    return Ok(Request(header, model, prompts, promptTokenIds, stop, extraParams));
  }

  method DeserializeResponse(data: Bytes) returns (r: Result<Response>)
    ensures match ParseResponse(data) case None => r.Err? case Some(p) => r == Ok(p)
  {
    var reader := new Reader(data);
    var id :- reader.ReadU64();
    var sequences :- ReadSequences(reader);
    var metrics :- ReadEntries(reader);
    return Ok(Response(id, sequences, metrics));
  }
}
