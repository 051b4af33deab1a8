/** The byte writer and reader: a cursor over a fixed buffer, with a check before every access. */
module ByteCodec {
  import opened Chunks
  import opened LittleEndian
  import opened Results
  import opened Sequences

  type Str = Bytes

  /** A parser takes a value off the front of the remaining bytes, or fails on a short read. */
  type Parser<!T> = Bytes -> Option<(T, Bytes)>

  // ----- formats

  function U32Bytes(v: U32): (b: Bytes)
    ensures |b| == 4
  {
    LE(v, 4)
  }

  function U64Bytes(v: U64): (b: Bytes)
    ensures |b| == 8
  {
    LE(v, 8)
  }

  /** static_cast<uint32_t> of a size */
  function Truncated(n: nat): U32 {
    n % 0x1_0000_0000
  }

  function StrBytes(s: Str): (b: Bytes)
    ensures |b| == 4 + |s|
  {
    U32Bytes(Truncated(|s|)) + s
  }

  /** 32-bit words, as a vector of int32 or float is laid out. */
  function WordBytes(words: seq<U32>): (b: Bytes)
    ensures |b| == 4 * |words|
  {
    if words == [] then [] else U32Bytes(words[0]) + WordBytes(words[1..])
  }

  function VecBytes(words: seq<U32>): (b: Bytes)
    ensures |b| == 4 + 4 * |words|
  {
    U32Bytes(Truncated(|words|)) + WordBytes(words)
  }

  lemma Assoc6(a: Bytes, b: Bytes, c: Bytes, d: Bytes, e: Bytes, f: Bytes, rest: Bytes)
    ensures a + b + c + d + e + f + rest == a + (b + (c + (d + (e + (f + rest)))))
  {
    Reassociate(a + b + c + d + e, f, rest);
    Reassociate(a + b + c + d, e, f + rest);
    Reassociate(a + b + c, d, e + (f + rest));
    Reassociate(a + b, c, d + (e + (f + rest)));
    Reassociate(a, b, c + (d + (e + (f + rest))));
  }

  // ----- parsers

  function Take(n: nat, s: Bytes): Option<(Bytes, Bytes)> {
    if |s| < n then None else Some((s[..n], s[n..]))
  }

  function ParseU32(s: Bytes): Option<(U32, Bytes)> {
    if |s| < 4 then None else
      LEOfFromLE(s[..4]);
      Widths();
      Some((FromLE(s[..4]), s[4..]))
  }

  function ParseU64(s: Bytes): Option<(U64, Bytes)> {
    if |s| < 8 then None else
      LEOfFromLE(s[..8]);
      Widths();
      Some((FromLE(s[..8]), s[8..]))
  }

  function ParseStr(s: Bytes): Option<(Str, Bytes)> {
    match ParseU32(s)
    case None => None
    case Some(p) => Take(p.0, p.1)
  }

  function Words(b: Bytes, n: nat): (words: seq<U32>)
    requires |b| == 4 * n
    ensures |words| == n
  {
    if n == 0 then [] else
      LEOfFromLE(b[..4]);
      Widths();
      [FromLE(b[..4])] + Words(b[4..], n - 1)
  }

  function ParseVec(s: Bytes): Option<(seq<U32>, Bytes)> {
    match ParseU32(s)
    case None => None
    case Some(p) =>
      match Take(4 * (p.0 as int), p.1)
      case None => None
      case Some(q) => Some((Words(q.0, p.0), q.1))
  }

  // ----- round trips

  lemma U32RoundTrip(v: U32, rest: Bytes)
    ensures ParseU32(U32Bytes(v) + rest) == Some((v, rest))
  {
    Widths();
    FromLEOfLE(v, 4);
    assert (U32Bytes(v) + rest)[..4] == U32Bytes(v) && (U32Bytes(v) + rest)[4..] == rest;
  }

  lemma U64RoundTrip(v: U64, rest: Bytes)
    ensures ParseU64(U64Bytes(v) + rest) == Some((v, rest))
  {
    Widths();
    FromLEOfLE(v, 8);
    assert (U64Bytes(v) + rest)[..8] == U64Bytes(v) && (U64Bytes(v) + rest)[8..] == rest;
  }

  lemma TakePrefix(b: Bytes, rest: Bytes)
    ensures Take(|b|, b + rest) == Some((b, rest))
  {
    assert (b + rest)[..|b|] == b && (b + rest)[|b|..] == rest;
  }

  lemma StrRoundTrip(s: Str, rest: Bytes)
    requires |s| < 0x1_0000_0000
    ensures ParseStr(StrBytes(s) + rest) == Some((s, rest))
  {
    assert StrBytes(s) + rest == U32Bytes(|s|) + (s + rest) by { Reassociate(U32Bytes(|s|), s, rest); }
    assert ParseU32(U32Bytes(|s|) + (s + rest)) == Some((|s|, s + rest)) by { U32RoundTrip(|s|, s + rest); }
    TakePrefix(s, rest);
  }

  lemma {:induction false} WordsRoundTrip(words: seq<U32>)
    ensures Words(WordBytes(words), |words|) == words
  {
    if words != [] {
      var b := WordBytes(words);
      WordsRoundTrip(words[1..]);
      Widths();
      FromLEOfLE(words[0], 4);
      assert b[..4] == U32Bytes(words[0]) && b[4..] == WordBytes(words[1..]);
    }
  }

  lemma VecRoundTrip(words: seq<U32>, rest: Bytes)
    requires |words| < 0x1_0000_0000
    ensures ParseVec(VecBytes(words) + rest) == Some((words, rest))
  {
    hide WordBytes, Words, FromLE, LE, ParseU32;
    var b := WordBytes(words);
    assert VecBytes(words) + rest == U32Bytes(|words|) + (b + rest) by { Reassociate(U32Bytes(|words|), b, rest); }
    assert ParseU32(U32Bytes(|words|) + (b + rest)) == Some((|words|, b + rest)) by { U32RoundTrip(|words|, b + rest); }
    assert Take(4 * |words|, b + rest) == Some((b, rest)) by { TakePrefix(b, rest); }
    WordsRoundTrip(words);
  }

  // ----- counted lists

  function ParseMany<T>(n: nat, parse: Parser<T>, s: Bytes): Option<(seq<T>, Bytes)> {
    if n == 0 then Some(([], s))
    else
      match parse(s)
      case None => None
      case Some(p) =>
        match ParseMany(n - 1, parse, p.1)
        case None => None
        case Some(q) => Some(([p.0] + q.0, q.1))
  }

  ghost predicate Parses<T>(parse: Parser<T>, b: Bytes, x: T, rest: Bytes) {
    parse(b + rest) == Some((x, rest))
  }

  /** If every part parses back, whatever follows it, so does their concatenation. */
  lemma {:induction false} ManyRoundTrip<T>(parts: seq<Bytes>, parse: Parser<T>, xs: seq<T>, rest: Bytes)
    requires |parts| == |xs| && forall i, r: Bytes | 0 <= i < |xs| :: Parses(parse, parts[i], xs[i], r)
    ensures ParseMany(|xs|, parse, Gather(parts) + rest) == Some((xs, rest))
  {
    if xs == [] {
      assert Gather(parts) + rest == rest;
    } else {
      var tail := Gather(parts[1..]) + rest;
      GatherFirst(parts);
      assert Gather(parts) + rest == parts[0] + tail;
      assert Parses(parse, parts[0], xs[0], tail);
      forall i, r: Bytes | 0 <= i < |xs[1..]| ensures Parses(parse, parts[1..][i], xs[1..][i], r) {
        assert Parses(parse, parts[i + 1], xs[i + 1], r);
      }
      ManyRoundTrip(parts[1..], parse, xs[1..], rest);
      assert ParseMany(|xs| - 1, parse, tail) == Some((xs[1..], rest));
      assert [xs[0]] + xs[1..] == xs;
    }
  }

  function CountedBytes(parts: seq<Bytes>): (b: Bytes)
    ensures |b| == 4 + |Gather(parts)|
  {
    U32Bytes(Truncated(|parts|)) + Gather(parts)
  }

  function ParseCounted<T>(parse: Parser<T>, s: Bytes): Option<(seq<T>, Bytes)> {
    match ParseU32(s)
    case None => None
    case Some(p) => ParseMany(p.0, parse, p.1)
  }

  lemma CountedRoundTrip<T>(parts: seq<Bytes>, parse: Parser<T>, xs: seq<T>, rest: Bytes)
    requires |parts| == |xs| < 0x1_0000_0000 && forall i, r: Bytes | 0 <= i < |xs| :: Parses(parse, parts[i], xs[i], r)
    ensures ParseCounted(parse, CountedBytes(parts) + rest) == Some((xs, rest))
  {
    assert CountedBytes(parts) + rest == U32Bytes(|parts|) + (Gather(parts) + rest);
    U32RoundTrip(|parts|, Gather(parts) + rest);
    ManyRoundTrip(parts, parse, xs, rest);
  }

  lemma {:induction false} FlattenAtLeastOne(parts: seq<Bytes>)
    requires forall i | 0 <= i < |parts| :: |parts[i]| >= 1
    ensures |Gather(parts)| >= |parts|
  {
    if parts != [] { FlattenAtLeastOne(parts[..|parts| - 1]); }
  }

  lemma {:induction false} FlattenPart(parts: seq<Bytes>, i: nat)
    requires i < |parts|
    ensures |parts[i]| <= |Gather(parts)|
  {
    if i < |parts| - 1 { FlattenPart(parts[..|parts| - 1], i); }
  }

  // ----- the writer

  class Writer {
    const buffer: array<Byte>
    var pos: nat

    ghost predicate Valid()
      reads this
    {
      pos <= buffer.Length
    }

    function Contents(): Bytes
      reads this, buffer
      requires Valid()
    {
      buffer[..pos]
    }

    constructor (buffer: array<Byte>)
      ensures Valid() && this.buffer == buffer && pos == 0
    {
      this.buffer := buffer;
      pos := 0;
    }

    /** The bytes follow what has been written, unless they do not fit. */
    method WriteBytes(data: Bytes) returns (r: Result<()>)
      requires Valid()
      modifies this`pos, buffer
      ensures Valid()
      ensures r.Ok? <==> old(pos) + |data| <= buffer.Length
      ensures r.Ok? ==> Contents() == old(Contents()) + data
      ensures r.Err? ==> Contents() == old(Contents())
    {
      if pos + |data| > buffer.Length {
        return Err("payload exceeds capacity");
      }
      var i := 0;
      while i < |data|
        invariant 0 <= i <= |data| && pos == old(pos)
        invariant buffer[..pos + i] == old(Contents()) + data[..i]
      {
        buffer[pos + i] := data[i];
        assert buffer[..pos + (i + 1)] == buffer[..pos + i] + [data[i]];
        assert data[..i + 1] == data[..i] + [data[i]];
        Reassociate(old(Contents()), data[..i], [data[i]]);
        i := i + 1;
      }
      assert data[..i] == data;
      pos := pos + |data|;
      return Ok(());
    }
  }

  method WriteU32(w: Writer, v: U32) returns (r: Result<()>)
    requires w.Valid()
    modifies w`pos, w.buffer
    ensures w.Valid()
    ensures r.Ok? <==> old(w.pos) + 4 <= w.buffer.Length
    ensures r.Ok? ==> w.Contents() == old(w.Contents()) + U32Bytes(v)
  {
    r := w.WriteBytes(U32Bytes(v));
  }

  method WriteU64(w: Writer, v: U64) returns (r: Result<()>)
    requires w.Valid()
    modifies w`pos, w.buffer
    ensures w.Valid()
    ensures r.Ok? <==> old(w.pos) + 8 <= w.buffer.Length
    ensures r.Ok? ==> w.Contents() == old(w.Contents()) + U64Bytes(v)
  {
    r := w.WriteBytes(U64Bytes(v));
  }

  method WriteString(w: Writer, s: Str) returns (r: Result<()>)
    requires w.Valid()
    modifies w`pos, w.buffer
    ensures w.Valid()
    ensures r.Ok? <==> old(w.pos) + |StrBytes(s)| <= w.buffer.Length
    ensures r.Ok? ==> w.Contents() == old(w.Contents()) + StrBytes(s)
  {
    var _ :- WriteU32(w, Truncated(|s|));
    r := w.WriteBytes(s);
    assert r.Ok? ==> w.Contents() == old(w.Contents()) + (U32Bytes(Truncated(|s|)) + s);
  }

  // ----- the reader

  class Reader {
    const data: Bytes
    var pos: nat

    ghost predicate Valid()
      reads this
    {
      pos <= |data|
    }

    function Rest(): Bytes
      reads this
      requires Valid()
    {
      data[pos..]
    }

    constructor (data: Bytes)
      ensures Valid() && this.data == data && Rest() == data
    {
      this.data := data;
      pos := 0;
    }

    method ReadBytes(n: nat) returns (r: Result<Bytes>)
      requires Valid()
      modifies this`pos
      ensures Valid() && Read(r, Take(n, old(Rest())), Rest())
    {
      if pos + n > |data| {
        return Err("short read");
      }
      var taken := data[pos..pos + n];
      assert data[pos..][..n] == taken && data[pos..][n..] == data[pos + n..];
      pos := pos + n;
      return Ok(taken);
    }

    method ReadU32() returns (r: Result<U32>)
      requires Valid()
      modifies this`pos
      ensures Valid() && Read(r, ParseU32(old(Rest())), Rest())
    {
      var b :- ReadBytes(4);
      LEOfFromLE(b);
      Widths();
      return Ok(FromLE(b));
    }

    method ReadU64() returns (r: Result<U64>)
      requires Valid()
      modifies this`pos
      ensures Valid() && Read(r, ParseU64(old(Rest())), Rest())
    {
      var b :- ReadBytes(8);
      LEOfFromLE(b);
      Widths();
      return Ok(FromLE(b));
    }

    method ReadString() returns (r: Result<Str>)
      requires Valid()
      modifies this`pos
      ensures Valid() && Read(r, ParseStr(old(Rest())), Rest())
    {
      var n :- ReadU32();
      r := ReadBytes(n);
    }

    method ReadVec() returns (r: Result<seq<U32>>)
      requires Valid()
      modifies this`pos
      ensures Valid() && Read(r, ParseVec(old(Rest())), Rest())
    {
      var n :- ReadU32();
      var count: nat := n;
      var b :- ReadBytes(4 * count);
      return Ok(Words(b, count));
    }
  }

  /** A read follows its parser: the value and the bytes left over, or an error. */
  predicate Read<T(==)>(r: Result<T>, parsed: Option<(T, Bytes)>, rest: Bytes) {
    match parsed
    case None => r.Err?
    case Some(p) => r == Ok(p.0) && rest == p.1
  }
}
