/** Scanning a header that was built, exactly. */
module SafetensorsRoundTrip {
  import opened JsonScan
  import opened Results
  import opened Safetensors
  import opened Sequences

  // ----- punctuation and strings

  lemma Punct(c: char, rest: string)
    requires !IsSpace(c)
    ensures Consume([c] + rest, c) == Some(rest)
    ensures forall d | d != c :: Consume([c] + rest, d) == None
  {
    assert ([c] + rest)[1..] == rest;
  }

  predicate Plain(s: string) {
    forall i | 0 <= i < |s| :: s[i] != '"' && s[i] != '\\'
  }

  lemma {:induction false} PlainBody(s: string, rest: string)
    requires Plain(s)
    ensures Body(s + ("\"" + rest)) == Some((s, rest))
  {
    var t := s + ("\"" + rest);
    if s == "" {
      assert t == "\"" + rest;
    } else {
      PlainBody(s[1..], rest);
      assert t[1..] == s[1..] + ("\"" + rest);
      assert [s[0]] + s[1..] == s;
    }
  }

  lemma PlainString(s: string, rest: string)
    requires Plain(s)
    ensures ScanString(QuotedThen(s, rest)) == Some((s, rest))
  {
    Punct('"', s + ("\"" + rest));
    PlainBody(s, rest);
  }

  /** What a name comes back as: the scanner reads the escape of a carriage return as the letter r. */
  function Back1(c: char): char {
    if c == '\r' then 'r' else c
  }

  function Back(s: string): (r: string)
    ensures |r| == |s| && forall i | 0 <= i < |s| :: r[i] == Back1(s[i])
  {
    if s == "" then "" else [Back1(s[0])] + Back(s[1..])
  }

  lemma EscapedStep(c: char, tail: string)
    ensures Body(Escape1(c) + tail) == match Body(tail) case None => None case Some(p) => Some(([Back1(c)] + p.0, p.1))
  {
    var t := Escape1(c) + tail;
    if |Escape1(c)| == 2 {
      assert t[0] == '\\' && t[1] == Escape1(c)[1] && t[2..] == tail;
    } else {
      assert t[0] == c && t[1..] == tail;
    }
  }

  lemma {:induction false} EscapedBody(s: string, rest: string)
    ensures Body(Escape(s) + ("\"" + rest)) == Some((Back(s), rest))
  {
    var end := "\"" + rest;
    if s == "" {
      assert Escape(s) + end == end;
    } else {
      EscapedBody(s[1..], rest);
      assert Escape(s) + end == Escape1(s[0]) + (Escape(s[1..]) + end);
      EscapedStep(s[0], Escape(s[1..]) + end);
    }
  }

  lemma EscapedString(s: string, rest: string)
    ensures ScanString(QuotedThen(Escape(s), rest)) == Some((Back(s), rest))
  {
    Punct('"', Escape(s) + ("\"" + rest));
    EscapedBody(s, rest);
  }

  // ----- numbers

  predicate AllDigits(d: string) {
    forall i | 0 <= i < |d| :: IsDigit(d[i])
  }

  lemma {:induction false} DecimalIsValue(n: nat)
    ensures Decimal(n) != "" && AllDigits(Decimal(n)) && DecimalValue(Decimal(n)) == n
  {
    if n < 10 {
      assert Decimal(n)[..0] == "";
      assert DecimalValue("") == 0;
    } else {
      DecimalIsValue(n / 10);
      assert Decimal(n)[..|Decimal(n)| - 1] == Decimal(n / 10);
    }
  }

  predicate NoDigitFirst(s: string) {
    s != "" ==> !IsDigit(s[0])
  }

  lemma {:induction false} DigitsThen(d: string, rest: string)
    requires AllDigits(d) && NoDigitFirst(rest)
    ensures Digits(d + rest) == |d|
  {
    if d == "" {
      assert d + rest == rest;
    } else {
      DigitsThen(d[1..], rest);
      assert (d + rest)[1..] == d[1..] + rest;
    }
  }

  predicate Fits(n: nat) {
    n < 0x8000_0000_0000_0000
  }

  lemma IntegerThen(n: nat, rest: string)
    requires Fits(n) && NoDigitFirst(rest)
    ensures ScanInteger(Decimal(n) + rest) == Some((n, rest))
    ensures Consume(Decimal(n) + rest, ']') == None
  {
    var d := Decimal(n);
    DecimalIsValue(n);
    DigitsThen(d, rest);
    assert IsDigit(d[0]) && (d + rest)[0] == d[0];
    assert (d + rest)[..|d|] == d && (d + rest)[|d|..] == rest;
  }

  predicate AllFit(shape: seq<nat>) {
    forall i | 0 <= i < |shape| :: Fits(shape[i])
  }

  lemma {:induction false} SizesScan(shape: seq<nat>, rest: string)
    requires shape != [] && AllFit(shape)
    ensures ScanIntegers(SizesThen(shape, "]" + rest)) == Some((shape, rest))
  {
    if |shape| == 1 {
      IntegerThen(shape[0], "]" + rest);
      Punct(']', rest);
      assert [shape[0]] == shape;
    } else {
      var tail := SizesThen(shape[1..], "]" + rest);
      assert ScanInteger(SizesThen(shape, "]" + rest)) == Some((shape[0], "," + tail)) by {
        IntegerThen(shape[0], "," + tail);
      }
      assert Consume("," + tail, ']') == None && Consume("," + tail, ',') == Some(tail) by { Punct(',', tail); }
      assert ScanIntegers(tail) == Some((shape[1..], rest)) by { SizesScan(shape[1..], rest); }
      assert [shape[0]] + shape[1..] == shape;
    }
  }

  lemma SizesStart(shape: seq<nat>, rest: string)
    requires shape != [] && AllFit(shape)
    ensures Consume(SizesThen(shape, "]" + rest), ']') == None
  {
    if |shape| == 1 {
      IntegerThen(shape[0], "]" + rest);
    } else {
      IntegerThen(shape[0], "," + SizesThen(shape[1..], "]" + rest));
    }
  }

  lemma ShapeScan(shape: seq<nat>, rest: string)
    requires AllFit(shape)
    ensures ScanIntArray("[" + SizesThen(shape, "]" + rest)) == Some((shape, rest))
  {
    Punct('[', SizesThen(shape, "]" + rest));
    if shape == [] {
      Punct(']', rest);
    } else {
      SizesStart(shape, rest);
      SizesScan(shape, rest);
    }
  }

  lemma OffsetsScan(begin: nat, end: nat, rest: string)
    requires Fits(begin) && Fits(end)
    ensures ScanIntArray(OffsetsThen(begin, end, rest)) == Some(([begin, end], rest))
  {
    var tail := Decimal(end) + ("]" + rest);
    assert ScanIntegers(tail) == Some(([end], rest)) by {
      IntegerThen(end, "]" + rest);
      Punct(']', rest);
    }
    assert ScanInteger(Decimal(begin) + ("," + tail)) == Some((begin, "," + tail))
      && Consume(Decimal(begin) + ("," + tail), ']') == None by {
      IntegerThen(begin, "," + tail);
    }
    assert Consume("," + tail, ']') == None && Consume("," + tail, ',') == Some(tail) by { Punct(',', tail); }
    assert [begin] + [end] == [begin, end];
    Punct('[', Decimal(begin) + ("," + tail));
  }

  // ----- one tensor

  predicate EntryOk(e: TensorEntry) {
    Plain(e.dtype) && AllFit(e.shape) && e.begin <= e.end && Fits(e.end)
  }

  function InfoOf(e: TensorEntry, name: string): TensorInfo {
    TensorInfo(name, e.dtype, e.shape, e.begin, e.end)
  }

  lemma DataScan(e: TensorEntry, rest: string, info: TensorInfo)
    requires EntryOk(e)
    ensures TensorMembers(DataThen(e, rest), info) == Some((info.(begin := e.begin, end := e.end), rest))
  {
    var offsets := OffsetsThen(e.begin, e.end, "}" + rest);
    PlainString("data_offsets", ":" + offsets);
    Punct(':', offsets);
    OffsetsScan(e.begin, e.end, "}" + rest);
    Punct('}', rest);
  }

  lemma ShapeMembers(e: TensorEntry, rest: string, info: TensorInfo)
    requires EntryOk(e)
    ensures TensorMembers(ShapeThen(e, rest), info)
        == Some((info.(shape := e.shape, begin := e.begin, end := e.end), rest))
  {
    var more := "," + DataThen(e, rest);
    var sizes := "[" + SizesThen(e.shape, "]" + more);
    PlainString("shape", ":" + sizes);
    Punct(':', sizes);
    ShapeScan(e.shape, more);
    Punct(',', DataThen(e, rest));
    DataScan(e, rest, info.(shape := e.shape));
  }

  lemma TensorScan(e: TensorEntry, rest: string, name: string)
    requires EntryOk(e)
    ensures ParseTensor(ObjectThen(e, rest), name) == Some((InfoOf(e, name), rest))
  {
    var more := "," + ShapeThen(e, rest);
    var value := QuotedThen(e.dtype, more);
    var members := QuotedThen("dtype", ":" + value);
    Punct('{', members);
    Punct('"', "dtype" + ("\"" + (":" + value)));
    PlainString("dtype", ":" + value);
    Punct(':', value);
    PlainString(e.dtype, more);
    Punct(',', ShapeThen(e, rest));
    ShapeMembers(e, rest, NewInfo(name).(dtype := e.dtype));
  }

  // ----- skipping

  lemma SkipString(s: string, rest: string)
    requires Plain(s)
    ensures SkipValue(QuotedThen(s, rest)) == Some(rest)
  {
    PlainString(s, rest);
    assert SkipWs(QuotedThen(s, rest)) == QuotedThen(s, rest);
  }

  lemma {:induction false} RunDigits(d: string, rest: string)
    requires AllDigits(d) && rest != "" && (rest[0] == ',' || rest[0] == ']')
    ensures RunToDelimiter(d + rest) == rest
  {
    if d == "" {
      assert d + rest == rest;
    } else {
      RunDigits(d[1..], rest);
      assert (d + rest)[1..] == d[1..] + rest;
    }
  }

  lemma SkipNumber(n: nat, rest: string)
    requires rest != "" && (rest[0] == ',' || rest[0] == ']')
    ensures SkipValue(Decimal(n) + rest) == Some(rest)
    ensures Consume(Decimal(n) + rest, ']') == None
  {
    var t := Decimal(n) + rest;
    DecimalIsValue(n);
    assert IsDigit(Decimal(n)[0]) && t[0] == Decimal(n)[0] && SkipWs(t) == t;
    RunDigits(Decimal(n), rest);
  }

  lemma {:induction false} SkipSizes(shape: seq<nat>, rest: string)
    requires shape != []
    ensures SkipElements(SizesThen(shape, "]" + rest)) == Some(rest)
    ensures Consume(SizesThen(shape, "]" + rest), ']') == None
  {
    if |shape| == 1 {
      SkipNumber(shape[0], "]" + rest);
      Punct(']', rest);
    } else {
      var tail := SizesThen(shape[1..], "]" + rest);
      SkipNumber(shape[0], "," + tail);
      Punct(',', tail);
      SkipSizes(shape[1..], rest);
    }
  }

  lemma SkipShape(shape: seq<nat>, rest: string)
    ensures SkipValue("[" + SizesThen(shape, "]" + rest)) == Some(rest)
  {
    var inside := SizesThen(shape, "]" + rest);
    assert SkipWs("[" + inside) == "[" + inside && ("[" + inside)[1..] == inside;
    if shape == [] {
      Punct(']', rest);
    } else {
      SkipSizes(shape, rest);
    }
  }

  lemma SkipOffsets(begin: nat, end: nat, rest: string)
    ensures SkipValue(OffsetsThen(begin, end, rest)) == Some(rest)
  {
    assert OffsetsThen(begin, end, rest) == "[" + SizesThen([begin, end], "]" + rest) by {
      assert SizesThen([begin, end][1..], "]" + rest) == Decimal(end) + ("]" + rest);
    }
    SkipShape([begin, end], rest);
  }

  /** Skipping an object member by member: the key, the value, and on to the next. */
  lemma SkipMember(key: string, value: string, more: string)
    requires Plain(key) && SkipValue(value) == Some("," + more)
    ensures SkipMembers(QuotedThen(key, ":" + value)) == SkipMembers(more)
  {
    PlainString(key, ":" + value);
    Punct(':', value);
    Punct(',', more);
  }

  lemma SkipLastMember(key: string, value: string, rest: string)
    requires Plain(key) && SkipValue(value) == Some("}" + rest)
    ensures SkipMembers(QuotedThen(key, ":" + value)) == Some(rest)
  {
    PlainString(key, ":" + value);
    Punct(':', value);
    Punct('}', rest);
  }

  lemma SkipObject(members: string)
    requires members != "" && members[0] == '"'
    ensures SkipValue("{" + members) == SkipMembers(members)
  {
    assert SkipWs("{" + members) == "{" + members && ("{" + members)[1..] == members;
    assert Consume(members, '}') == None;
  }

  lemma SkipTensor(e: TensorEntry, rest: string)
    requires EntryOk(e)
    ensures SkipValue(ObjectThen(e, rest)) == Some(rest)
  {
    hide SkipMembers, SkipValue, OffsetsThen, SizesThen;
    var more := "," + DataThen(e, rest);
    SkipObject(QuotedThen("dtype", ":" + QuotedThen(e.dtype, "," + ShapeThen(e, rest))));
    SkipString(e.dtype, "," + ShapeThen(e, rest));
    SkipMember("dtype", QuotedThen(e.dtype, "," + ShapeThen(e, rest)), ShapeThen(e, rest));
    SkipShape(e.shape, more);
    SkipMember("shape", "[" + SizesThen(e.shape, "]" + more), DataThen(e, rest));
    SkipOffsets(e.begin, e.end, "}" + rest);
    SkipLastMember("data_offsets", OffsetsThen(e.begin, e.end, "}" + rest), rest);
  }

  lemma SkipMetadata(rest: string)
    ensures SkipValue("{" + QuotedThen("format", ":" + QuotedThen("pt", "}" + rest))) == Some(rest)
  {
    SkipObject(QuotedThen("format", ":" + QuotedThen("pt", "}" + rest)));
    SkipString("pt", "}" + rest);
    SkipLastMember("format", QuotedThen("pt", "}" + rest), rest);
  }

  // ----- the header

  predicate Unchanged(key: string) {
    forall i | 0 <= i < |key| :: key[i] != 'r' && key[i] != '\r'
  }

  lemma BackIsKey(name: string, key: string)
    requires Unchanged(key)
    ensures Back(name) == key <==> name == key
  {
    if Back(name) == key {
      forall i | 0 <= i < |name| ensures name[i] == key[i] { assert Back(name)[i] == key[i]; }
    }
    if name == key {
      forall i | 0 <= i < |name| ensures Back(name)[i] == key[i] {}
    }
  }

  lemma MetadataUnchanged()
    ensures Unchanged(METADATA)
  {
  }

  /** What a reader makes of one entry: nothing if it is named like the metadata. */
  function Kept1(e: TensorEntry): seq<TensorInfo> {
    if e.name == METADATA then [] else [InfoOf(e, Back(e.name))]
  }

  /** The tensors a reader finds. */
  function Kept(entries: seq<TensorEntry>): seq<TensorInfo> {
    if entries == [] then [] else Kept1(entries[0]) + Kept(entries[1..])
  }

  /** What follows a member of the header: its end, or a comma and more members. */
  function AfterField(tensors: seq<TensorInfo>, s: string): Option<seq<TensorInfo>> {
    match Consume(s, '}')
    case Some(_) => Some(tensors)
    case None =>
      var rest :- Consume(s, ',');
      HeaderMembers(rest, tensors)
  }

  lemma EntryScan(e: TensorEntry, rest: string, tensors: seq<TensorInfo>)
    requires EntryOk(e)
    ensures HeaderMembers(EntryThen(e, rest), tensors) == AfterField(tensors + Kept1(e), rest)
  {
    var value := ObjectThen(e, rest);
    assert ScanString(EntryThen(e, rest)) == Some((Back(e.name), ":" + value)) by {
      EscapedString(e.name, ":" + value);
    }
    assert Consume(":" + value, ':') == Some(value) by { Punct(':', value); }
    assert HeaderField(value, Back(e.name), tensors) == Some((tensors + Kept1(e), rest)) by {
      EntryField(e, rest, tensors);
    }
  }

  lemma EntryField(e: TensorEntry, rest: string, tensors: seq<TensorInfo>)
    requires EntryOk(e)
    ensures HeaderField(ObjectThen(e, rest), Back(e.name), tensors) == Some((tensors + Kept1(e), rest))
  {
    hide ObjectThen, SkipValue, ParseTensor, Back, EntryOk;
    MetadataUnchanged();
    BackIsKey(e.name, METADATA);
    if e.name == METADATA {
      SkipTensor(e, rest);
      assert tensors + [] == tensors;
    } else {
      TensorScan(e, rest, Back(e.name));
    }
  }

  lemma CommaScan(text: string, tensors: seq<TensorInfo>)
    ensures AfterField(tensors, "," + text) == HeaderMembers(text, tensors)
  {
    Punct(',', text);
  }

  lemma EntriesStep(e: TensorEntry, tail: string, tensors: seq<TensorInfo>, kept: seq<TensorInfo>)
    requires EntryOk(e) && AfterField(tensors + Kept1(e), tail) == Some(tensors + Kept1(e) + kept)
    ensures AfterField(tensors, "," + EntryThen(e, tail)) == Some(tensors + (Kept1(e) + kept))
  {
    CommaScan(EntryThen(e, tail), tensors);
    EntryScan(e, tail, tensors);
    Reassociate(tensors, Kept1(e), kept);
  }

  lemma {:induction false} EntriesScan(entries: seq<TensorEntry>, rest: string, tensors: seq<TensorInfo>)
    requires forall i | 0 <= i < |entries| :: EntryOk(entries[i])
    ensures AfterField(tensors, EntriesThen(entries, "}" + rest)) == Some(tensors + Kept(entries))
  {
    if entries == [] {
      EndScan(rest, tensors);
    } else {
      var e, tail := entries[0], EntriesThen(entries[1..], "}" + rest);
      EntriesScan(entries[1..], rest, tensors + Kept1(e));
      EntriesStep(e, tail, tensors, Kept(entries[1..]));
    }
  }

  lemma EndScan(rest: string, tensors: seq<TensorInfo>)
    ensures AfterField(tensors, "}" + rest) == Some(tensors + [])
  {
    Punct('}', rest);
    assert tensors + [] == tensors;
  }

  /** Reading back a header: every entry but the metadata's namesake, in order, each carriage return of its
      name read as the letter r. */
  lemma HeaderReadsBack(entries: seq<TensorEntry>, rest: string)
    requires forall i | 0 <= i < |entries| :: EntryOk(entries[i])
    ensures ParseHeader(HeaderThen(entries, rest)) == Some(Kept(entries))
  {
    hide MetadataThen, EntriesThen, HeaderMembers, AfterField, Kept, EntryOk, Consume;
    var tail := EntriesThen(entries, "}" + rest);
    assert Consume(HeaderThen(entries, rest), '{') == Some(MetadataThen(tail)) by { Punct('{', MetadataThen(tail)); }
    assert Consume(MetadataThen(tail), '}') == None by { MetadataStart(tail); }
    assert HeaderMembers(MetadataThen(tail), []) == AfterField([], tail) by { MetadataScan(tail); }
    EntriesScan(entries, rest, []);
    assert [] + Kept(entries) == Kept(entries);
  }

  lemma MetadataStart(tail: string)
    ensures Consume(MetadataThen(tail), '}') == None
  {
    Punct('"', MetadataThen(tail)[1..]);
  }

  lemma MetadataScan(tail: string)
    ensures HeaderMembers(MetadataThen(tail), []) == AfterField([], tail)
  {
    var metadata := "{" + QuotedThen("format", ":" + QuotedThen("pt", "}" + tail));
    assert ScanString(MetadataThen(tail)) == Some((METADATA, ":" + metadata)) by {
      PlainString(METADATA, ":" + metadata);
    }
    assert Consume(":" + metadata, ':') == Some(metadata) by { Punct(':', metadata); }
    assert HeaderField(metadata, METADATA, []) == Some(([], tail)) by { SkipMetadata(tail); }
  }

  function Infos(entries: seq<TensorEntry>): (infos: seq<TensorInfo>)
    ensures |infos| == |entries| && forall i | 0 <= i < |infos| :: infos[i] == InfoOf(entries[i], entries[i].name)
  {
    seq(|entries|, i requires 0 <= i < |entries| => InfoOf(entries[i], entries[i].name))
  }

  predicate NameSurvives(name: string) {
    name != METADATA && '\r' !in name
  }

  lemma BackKeeps(name: string)
    ensures Back(name) == name <==> '\r' !in name
  {
    if '\r' in name {
      var i :| 0 <= i < |name| && name[i] == '\r';
      assert Back(name)[i] == 'r';
    }
  }

  lemma {:induction false} KeptAtMost(entries: seq<TensorEntry>)
    ensures |Kept(entries)| <= |entries|
  {
    if entries != [] { KeptAtMost(entries[1..]); }
  }

  predicate AllSurvive(entries: seq<TensorEntry>) {
    forall i | 0 <= i < |entries| :: NameSurvives(entries[i].name)
  }

  lemma SurviveStep(entries: seq<TensorEntry>)
    requires entries != []
    ensures AllSurvive(entries) <==> NameSurvives(entries[0].name) && AllSurvive(entries[1..])
  {
    assert entries == [entries[0]] + entries[1..];
  }

  /** The round trip is exact precisely when no name holds a carriage return or is the metadata key. */
  lemma {:induction false} KeptIsAll(entries: seq<TensorEntry>)
    ensures Kept(entries) == Infos(entries) <==> AllSurvive(entries)
  {
    if entries != [] {
      KeptIsAll(entries[1..]);
      SurviveStep(entries);
      KeptStep(entries);
    }
  }

  lemma KeptStep(entries: seq<TensorEntry>)
    requires entries != []
    ensures Kept(entries) == Infos(entries)
        <==> NameSurvives(entries[0].name) && Kept(entries[1..]) == Infos(entries[1..])
  {
    hide Back;
    var e := entries[0];
    BackKeeps(e.name);
    assert Infos(entries) == [InfoOf(e, e.name)] + Infos(entries[1..]);
    if e.name == METADATA {
      KeptAtMost(entries[1..]);
      assert |Kept(entries)| < |Infos(entries)|;
    } else {
      assert Kept(entries) == [InfoOf(e, Back(e.name))] + Kept(entries[1..]);
      hide *;
      FirstAndRest(InfoOf(e, Back(e.name)), Kept(entries[1..]), InfoOf(e, e.name), Infos(entries[1..]));
      SameInfo(e, Back(e.name));
    }
  }

  lemma SameInfo(e: TensorEntry, name: string)
    ensures InfoOf(e, name) == InfoOf(e, e.name) <==> name == e.name
    ensures e.name != METADATA ==> (NameSurvives(e.name) <==> '\r' !in e.name)
  {
  }

  lemma FirstAndRest<T>(x: T, xs: seq<T>, y: T, ys: seq<T>)
    ensures [x] + xs == [y] + ys <==> x == y && xs == ys
  {
    if [x] + xs == [y] + ys {
      assert ([x] + xs)[0] == x && ([y] + ys)[0] == y;
      assert ([x] + xs)[1..] == xs && ([y] + ys)[1..] == ys;
    }
  }

  lemma HeaderRoundTrip(entries: seq<TensorEntry>, rest: string)
    requires forall i | 0 <= i < |entries| :: EntryOk(entries[i])
    ensures ParseHeader(HeaderThen(entries, rest)) == Some(Infos(entries)) <==> AllSurvive(entries)
  {
    HeaderReadsBack(entries, rest);
    KeptIsAll(entries);
  }

  /** The failing family at one input: a carriage return in a name comes back as the letter r. */
  lemma CarriageReturnIsLost(e: TensorEntry, rest: string)
    requires EntryOk(e) && e.name == "a\rb"
    ensures ParseHeader(HeaderThen([e], rest)) == Some([InfoOf(e, "arb")])
  {
    HeaderReadsBack([e], rest);
    assert Back(e.name) == "arb";
    MetadataUnchanged();
    BackIsKey(e.name, METADATA);
    assert Kept([e]) == Kept1(e) + Kept([e][1..]) == Kept1(e);
  }
}
