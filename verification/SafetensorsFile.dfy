/** Writing a safetensors file and reading it back: header length, header, tensor data. */
module SafetensorsFile {
  import opened JsonScan
  import opened LittleEndian
  import opened Results
  import opened Safetensors
  import opened SafetensorsRoundTrip
  import opened Sequences

  // ----- the header as the writer streams it

  method JsonEscape(s: string) returns (out: string)
    ensures out == Escape(s)
  {
    out := "";
    var i := 0;
    while i < |s|
      invariant 0 <= i <= |s| && out + Escape(s[i..]) == Escape(s)
    {
      assert s[i..][1..] == s[i + 1..];
      Reassociate(out, Escape1(s[i]), Escape(s[i + 1..]));
      out := out + Escape1(s[i]);
      i := i + 1;
    }
  }

  lemma CommaQuote(x: string)
    ensures ",\"" + x == "," + ("\"" + x)
  {
  }

  lemma DtypeLiteral(x: string)
    ensures "\":{\"dtype\":\"" + x == "\"" + (":" + ("{" + ("\"" + ("dtype" + ("\"" + (":" + ("\"" + x)))))))
  {
  }

  lemma ShapeLiteral(x: string)
    ensures "\",\"shape\":[" + x == "\"" + ("," + ("\"" + ("shape" + ("\"" + (":" + ("[" + x))))))
  {
  }

  lemma OffsetsLiteral(x: string)
    ensures "],\"data_offsets\":[" + x == "]" + ("," + ("\"" + ("data_offsets" + ("\"" + (":" + ("[" + x))))))
  {
  }

  lemma EndLiteral(x: string)
    ensures "]}" + x == "]" + ("}" + x)
  {
  }

  lemma MetadataLiteral(x: string)
    ensures "{\"__metadata__\":{\"format\":\"pt\"}" + x == "{" + MetadataThen(x)
  {
    KeyLiteral(QuotedThen("format", ":" + QuotedThen("pt", "}" + x)));
    FormatLiteral(x);
    assert "{\"__metadata__\":{\"format\":\"pt\"}" == "{\"__metadata__\":{" + "\"format\":\"pt\"}";
    Reassociate("{\"__metadata__\":{", "\"format\":\"pt\"}", x);
  }

  lemma KeyLiteral(x: string)
    ensures "{\"__metadata__\":{" + x == "{" + QuotedThen(METADATA, ":" + ("{" + x))
  {
    assert "{" + QuotedThen(METADATA, ":" + ("{" + x)) == "{" + ("\"" + ("__metadata__" + ("\"" + (":" + ("{" + x)))));
  }

  lemma FormatLiteral(x: string)
    ensures "\"format\":\"pt\"}" + x == QuotedThen("format", ":" + QuotedThen("pt", "}" + x))
  {
  }

  /** `out` has been streamed and `todo` is still to come. */
  predicate Streamed(whole: string, out: string, todo: string) {
    whole == out + todo
  }

  lemma Stream(whole: string, out: string, token: string, todo: string)
    requires Streamed(whole, out, token + todo)
    ensures Streamed(whole, out + token, todo)
  {
    Reassociate(out, token, todo);
  }

  method StreamSizes(out: string, shape: seq<nat>, ghost whole: string, ghost todo: string) returns (next: string)
    requires Streamed(whole, out, SizesThen(shape, todo))
    ensures Streamed(whole, next, todo)
  {
    next := out;
    var i := 0;
    while i < |shape|
      invariant 0 <= i <= |shape|
      invariant Streamed(whole, next, if i == 0 then SizesThen(shape, todo) else if i == |shape| then todo
          else "," + SizesThen(shape[i..], todo))
    {
      if i != 0 {
        Stream(whole, next, ",", SizesThen(shape[i..], todo));
        next := next + ",";
      }
      assert shape[i..][1..] == shape[i + 1..] && (i == 0 ==> shape[i..] == shape);
      Stream(whole, next, Decimal(shape[i]), if i + 1 == |shape| then todo else "," + SizesThen(shape[i + 1..], todo));
      next := next + Decimal(shape[i]);
      i := i + 1;
    }
  }

  method StreamEntry(out: string, e: TensorEntry, ghost whole: string, ghost todo: string) returns (next: string)
    requires Streamed(whole, out, "," + EntryThen(e, todo))
    ensures Streamed(whole, next, todo)
  {
    var name := JsonEscape(e.name);
    CommaQuote(name + ("\"" + (":" + ObjectThen(e, todo))));
    Stream(whole, out, ",\"", name + ("\"" + (":" + ObjectThen(e, todo))));
    next := out + ",\"";
    Stream(whole, next, name, "\"" + (":" + ObjectThen(e, todo)));
    next := next + name;
    DtypeLiteral(e.dtype + ("\"" + ("," + ShapeThen(e, todo))));
    Stream(whole, next, "\":{\"dtype\":\"", e.dtype + ("\"" + ("," + ShapeThen(e, todo))));
    next := next + "\":{\"dtype\":\"";
    Stream(whole, next, e.dtype, "\"" + ("," + ShapeThen(e, todo)));
    next := next + e.dtype;
    next := StreamShape(next, e, whole, todo);
  }

  method StreamShape(out: string, e: TensorEntry, ghost whole: string, ghost todo: string) returns (next: string)
    requires Streamed(whole, out, "\"" + ("," + ShapeThen(e, todo)))
    ensures Streamed(whole, next, todo)
  {
    ghost var offsets := Decimal(e.begin) + ("," + (Decimal(e.end) + ("]" + ("}" + todo))));
    ShapeLiteral(SizesThen(e.shape, "]" + ("," + DataThen(e, todo))));
    Stream(whole, out, "\",\"shape\":[", SizesThen(e.shape, "]" + ("," + DataThen(e, todo))));
    next := out + "\",\"shape\":[";
    next := StreamSizes(next, e.shape, whole, "]" + ("," + DataThen(e, todo)));
    OffsetsLiteral(offsets);
    Stream(whole, next, "],\"data_offsets\":[", offsets);
    next := next + "],\"data_offsets\":[";
    Stream(whole, next, Decimal(e.begin), "," + (Decimal(e.end) + ("]" + ("}" + todo))));
    next := next + Decimal(e.begin);
    Stream(whole, next, ",", Decimal(e.end) + ("]" + ("}" + todo)));
    next := next + ",";
    Stream(whole, next, Decimal(e.end), "]" + ("}" + todo));
    next := next + Decimal(e.end);
    EndLiteral(todo);
    Stream(whole, next, "]}", todo);
    next := next + "]}";
  }

  /** How many spaces bring a length to a multiple of 8. */
  function Padding(n: nat): (k: nat)
    ensures k < 8 && (n + k) % 8 == 0
  {
    (8 - n % 8) % 8
  }

  function Header(entries: seq<TensorEntry>): string {
    HeaderThen(entries, "") + Spaces(Padding(|HeaderThen(entries, "")|))
  }

  method StreamHeader(entries: seq<TensorEntry>) returns (header: string)
    ensures header == HeaderThen(entries, "")
  {
    ghost var whole := HeaderThen(entries, "");
    assert "}" + "" == "}";
    assert Streamed(whole, "{\"__metadata__\":{\"format\":\"pt\"}", EntriesThen(entries, "}")) by {
      MetadataLiteral(EntriesThen(entries, "}"));
    }
    header := "{\"__metadata__\":{\"format\":\"pt\"}";
    var i := 0;
    assert entries[0..] == entries;
    while i < |entries|
      invariant 0 <= i <= |entries| && Streamed(whole, header, EntriesThen(entries[i..], "}"))
    {
      assert entries[i..][1..] == entries[i + 1..];
      header := StreamEntry(header, entries[i], whole, EntriesThen(entries[i + 1..], "}"));
      i := i + 1;
    }
    header := header + "}";
  }

  method PadHeader(text: string) returns (header: string)
    ensures header == text + Spaces(Padding(|text|))
  {
    header := text;
    var added: nat := 0;
    while (8 + |header|) % 8 != 0
      invariant added <= Padding(|text|) && header == text + Spaces(added)
      decreases Padding(|text|) - added
    {
      assert Spaces(added) + [' '] == Spaces(added + 1);
      Reassociate(text, Spaces(added), [' ']);
      header := header + [' '];
      added := added + 1;
    }
    PaddingUnique(|text|, added);
  }

  lemma PaddingUnique(n: nat, k: nat)
    requires k <= Padding(n) && (n + k) % 8 == 0
    ensures k == Padding(n)
  {
  }

  method BuildHeader(entries: seq<TensorEntry>) returns (header: string)
    ensures header == Header(entries)
  {
    var text := StreamHeader(entries);
    header := PadHeader(text);
  }

  // ----- the file

  /** A tensor as it is written: `data` holds its bytes. */
  datatype TensorData = TensorData(name: string, dtype: string, shape: seq<nat>, data: string)

  /** The entries the writer makes: each tensor's bytes right behind those of the one before. */
  function EntriesFrom(tensors: seq<TensorData>, offset: nat): (entries: seq<TensorEntry>)
    ensures |entries| == |tensors|
  {
    if tensors == [] then []
    else
      var t := tensors[0];
      [TensorEntry(t.name, t.dtype, t.shape, offset, offset + |t.data|)] + EntriesFrom(tensors[1..], offset + |t.data|)
  }

  function AllData(tensors: seq<TensorData>): string {
    if tensors == [] then "" else tensors[0].data + AllData(tensors[1..])
  }

  function Chars(b: Bytes): (s: string)
    ensures |s| == |b| && forall i | 0 <= i < |b| :: s[i] == b[i] as char
  {
    seq(|b|, i requires 0 <= i < |b| => b[i] as char)
  }

  function CharBytes(s: string): (b: Bytes)
    ensures |b| == |s| && forall i | 0 <= i < |b| :: b[i] == s[i] as int % 256
  {
    seq(|s|, i requires 0 <= i < |s| => s[i] as int % 256)
  }

  /** Byte i of the value, by shifting. */
  method WriteU64(value: U64) returns (out: string)
    ensures out == Chars(LE(value, 8))
  {
    out := "";
    var v: nat := value;
    while |out| < 8
      invariant |out| <= 8 && out + Chars(LE(v, 8 - |out|)) == Chars(LE(value, 8))
    {
      assert LE(v, 8 - |out|) == [v % 256] + LE(v / 256, 7 - |out|);
      assert Chars(LE(v, 8 - |out|)) == [(v % 256) as char] + Chars(LE(v / 256, 7 - |out|));
      Reassociate(out, [(v % 256) as char], Chars(LE(v / 256, 7 - |out|)));
      out := out + [(v % 256) as char];
      v := v / 256;
    }
  }

  method ReadU64(file: string) returns (r: Result<U64>)
    ensures r.Ok? <==> |file| >= 8
    ensures r.Ok? ==> r.value == FromLE(CharBytes(file[..8]))
  {
    if |file| < 8 { return Err("failed to read safetensors header length"); }
    var bytes := CharBytes(file[..8]);
    var value: nat := 0;
    var i := 8;
    assert bytes[8..] == [];
    while i > 0
      invariant 0 <= i <= 8 && value == FromLE(bytes[i..])
    {
      assert bytes[i - 1..][1..] == bytes[i..];
      value := value * 256 + bytes[i - 1];
      i := i - 1;
    }
    assert bytes[0..] == bytes;
    LEOfFromLE(bytes);
    Widths();
    return Ok(value);
  }

  function FileText(tensors: seq<TensorData>): string
    requires |Header(EntriesFrom(tensors, 0))| < 0x1_0000_0000_0000_0000
  {
    var header := Header(EntriesFrom(tensors, 0));
    Chars(LE(|header|, 8)) + (header + AllData(tensors))
  }

  lemma {:induction false} EntriesAppend(tensors: seq<TensorData>, offset: nat, t: TensorData, end: nat)
    requires end == offset + |AllData(tensors)|
    ensures EntriesFrom(tensors + [t], offset)
         == EntriesFrom(tensors, offset) + [TensorEntry(t.name, t.dtype, t.shape, end, end + |t.data|)]
    decreases |tensors|
  {
    if tensors == [] {
      assert (tensors + [t])[1..] == [];
    } else {
      var next := offset + |tensors[0].data|;
      assert (tensors + [t])[1..] == tensors[1..] + [t];
      EntriesAppend(tensors[1..], next, t, end);
      Reassociate(EntriesFrom(tensors, offset)[..1], EntriesFrom(tensors[1..], next),
        [TensorEntry(t.name, t.dtype, t.shape, end, end + |t.data|)]);
    }
  }

  lemma {:induction false} DataAppend(tensors: seq<TensorData>, t: TensorData)
    ensures AllData(tensors + [t]) == AllData(tensors) + t.data
    decreases |tensors|
  {
    if tensors == [] {
      assert (tensors + [t])[1..] == [];
      assert t.data + "" == t.data;
    } else {
      assert (tensors + [t])[1..] == tensors[1..] + [t];
      DataAppend(tensors[1..], t);
      Reassociate(tensors[0].data, AllData(tensors[1..]), t.data);
    }
  }

  /** The running offset of the writer's first loop. */
  method AssignOffsets(tensors: seq<TensorData>) returns (entries: seq<TensorEntry>)
    ensures entries == EntriesFrom(tensors, 0)
  {
    entries := [];
    var offset, i := 0, 0;
    while i < |tensors|
      invariant 0 <= i <= |tensors| && entries == EntriesFrom(tensors[..i], 0) && offset == |AllData(tensors[..i])|
    {
      var t := tensors[i];
      assert tensors[..i + 1] == tensors[..i] + [t];
      EntriesAppend(tensors[..i], 0, t, offset);
      DataAppend(tensors[..i], t);
      var begin := offset;
      offset := offset + |t.data|;
      entries := entries + [TensorEntry(t.name, t.dtype, t.shape, begin, offset)];
      i := i + 1;
    }
    assert tensors[..i] == tensors;
  }

  method WriteSafetensors(tensors: seq<TensorData>) returns (r: Result<string>)
    requires |Header(EntriesFrom(tensors, 0))| < 0x1_0000_0000_0000_0000
    ensures r.Ok? <==> tensors != []
    ensures r.Ok? ==> r.value == FileText(tensors)
  {
    if tensors == [] { return Err("write_safetensors requires at least one tensor"); }
    var entries := AssignOffsets(tensors);
    var header := BuildHeader(entries);
    var length := WriteU64(|header|);
    var data, i := "", 0;
    while i < |tensors|
      invariant 0 <= i <= |tensors| && data == AllData(tensors[..i])
    {
      assert tensors[..i + 1] == tensors[..i] + [tensors[i]];
      DataAppend(tensors[..i], tensors[i]);
      data := data + tensors[i].data;
      i := i + 1;
    }
    assert tensors[..i] == tensors;
    return Ok(length + (header + data));
  }

  /** Read the length, then the header, then its tensors. */
  method ReadFileHeader(file: string) returns (r: Result<seq<TensorInfo>>)
    ensures match FileHeader(file) case None => r.Err? case Some(infos) => r == Ok(infos)
  {
    var length :- ReadU64(file);
    if 8 + length > |file| { return Err("failed to read safetensors header"); }
    r := ReadHeader(file[8..8 + length]);
  }

  function FileHeader(file: string): Option<seq<TensorInfo>> {
    if |file| < 8 then None
    else
      var length := FromLE(CharBytes(file[..8]));
      if 8 + length > |file| then None else ParseHeader(file[8..8 + length])
  }

  // ----- what reading back gives

  lemma LengthReadsBack(n: U64)
    ensures FromLE(CharBytes(Chars(LE(n, 8)))) == n
  {
    assert CharBytes(Chars(LE(n, 8))) == LE(n, 8);
    Widths();
    FromLEOfLE(n, 8);
  }

  predicate TensorOk(t: TensorData) {
    Plain(t.dtype) && AllFit(t.shape)
  }

  lemma {:induction false} EntriesOk(tensors: seq<TensorData>, offset: nat)
    requires (forall i | 0 <= i < |tensors| :: TensorOk(tensors[i])) && Fits(offset + |AllData(tensors)|)
    ensures forall i | 0 <= i < |tensors| :: EntryOk(EntriesFrom(tensors, offset)[i])
    decreases |tensors|
  {
    if tensors != [] { EntriesOk(tensors[1..], offset + |tensors[0].data|); }
  }

  /** Every tensor's bytes stand where its offsets say, and the offsets stay inside the data area. */
  lemma {:induction false} DataStands(tensors: seq<TensorData>, offset: nat, e: TensorEntry, i: nat)
    requires i < |tensors| && e == EntriesFrom(tensors, offset)[i]
    ensures offset <= e.begin <= e.end <= offset + |AllData(tensors)|
    ensures AllData(tensors)[e.begin - offset..e.end - offset] == tensors[i].data
    decreases |tensors|
  {
    var t, rest := tensors[0], AllData(tensors[1..]);
    if i > 0 {
      DataStands(tensors[1..], offset + |t.data|, e, i - 1);
      SliceBehind(t.data, rest, e.begin - offset, e.end - offset);
    } else {
      assert (t.data + rest)[0..|t.data|] == t.data;
    }
  }

  /** The offsets tile the data area in order, without a gap. */
  lemma {:induction false} OffsetsTile(tensors: seq<TensorData>, offset: nat, i: nat)
    requires i < |tensors|
    ensures EntriesFrom(tensors, offset)[i].begin == if i == 0 then offset else EntriesFrom(tensors, offset)[i - 1].end
    ensures i == |tensors| - 1 ==> EntriesFrom(tensors, offset)[i].end == offset + |AllData(tensors)|
    decreases |tensors|
  {
    if i > 0 { OffsetsTile(tensors[1..], offset + |tensors[0].data|, i - 1); }
  }

  lemma SliceBehind(a: string, b: string, from: nat, to: nat)
    requires |a| <= from <= to <= |a| + |b|
    ensures (a + b)[from..to] == b[from - |a|..to - |a|]
  {
  }

  lemma Parts(file: string, a: string, b: string, c: string)
    requires file == a + (b + c)
    ensures |file| == |a| + |b| + |c| && file[..|a|] == a && file[|a|..|a| + |b|] == b && file[|a| + |b|..] == c
  {
  }

  lemma HeaderFound(file: string, header: string, data: string)
    requires |header| < 0x1_0000_0000_0000_0000 && file == Chars(LE(|header|, 8)) + (header + data)
    ensures FileHeader(file) == ParseHeader(header)
  {
    Parts(file, Chars(LE(|header|, 8)), header, data);
    LengthReadsBack(|header|);
  }

  lemma PaddedHeader(entries: seq<TensorEntry>, text: string, spaces: string)
    requires text == HeaderThen(entries, "") && spaces == Spaces(Padding(|text|))
    ensures Header(entries) == HeaderThen(entries, spaces) && (8 + |Header(entries)|) % 8 == 0
  {
    hide HeaderThen;
    assert Header(entries) == text + spaces;
    assert text + spaces == HeaderThen(entries, spaces) by { HeaderThenAppend(entries, spaces); }
  }

  lemma EntriesReadBack(entries: seq<TensorEntry>)
    requires forall i | 0 <= i < |entries| :: EntryOk(entries[i])
    ensures ParseHeader(Header(entries)) == Some(Kept(entries)) && (8 + |Header(entries)|) % 8 == 0
  {
    var text := HeaderThen(entries, "");
    var spaces := Spaces(Padding(|text|));
    PaddedHeader(entries, text, spaces);
    HeaderReadsBack(entries, spaces);
  }

  /** A written file reads back: the header gives the kept tensors in order, and the data area starts at a
      multiple of 8. */
  lemma FileReadsBack(tensors: seq<TensorData>, header: string)
    requires header == Header(EntriesFrom(tensors, 0)) && |header| < 0x1_0000_0000_0000_0000
    requires (forall i | 0 <= i < |tensors| :: TensorOk(tensors[i])) && Fits(|AllData(tensors)|)
    ensures FileHeader(FileText(tensors)) == Some(Kept(EntriesFrom(tensors, 0)))
    ensures (8 + |header|) % 8 == 0
  {
    HeaderFound(FileText(tensors), header, AllData(tensors));
    EntriesOk(tensors, 0);
    EntriesReadBack(EntriesFrom(tensors, 0));
  }

  /** load_tensor's byte range. */
  lemma TensorBytesReadBack(tensors: seq<TensorData>, header: string, e: TensorEntry, i: nat)
    requires header == Header(EntriesFrom(tensors, 0)) && |header| < 0x1_0000_0000_0000_0000
    requires i < |tensors| && e == EntriesFrom(tensors, 0)[i]
    ensures e.begin <= e.end && 8 + |header| + e.end <= |FileText(tensors)|
    ensures FileText(tensors)[8 + |header| + e.begin..8 + |header| + e.end] == tensors[i].data
  {
    hide Header, HeaderThen, EntriesFrom, AllData, LE, Chars;
    DataStands(tensors, 0, e, i);
    PartsSlice(FileText(tensors), Chars(LE(|header|, 8)), header, AllData(tensors), e.begin, e.end);
  }

  lemma PartsSlice(file: string, a: string, b: string, c: string, from: nat, to: nat)
    requires file == a + (b + c) && from <= to <= |c|
    ensures |a| + |b| + to <= |file| && file[|a| + |b| + from..|a| + |b| + to] == c[from..to]
  {
    Parts(file, a, b, c);
    SliceOfTail(file, |a| + |b|, c, from, to);
  }

  /** The writer's file through the reader, and the bytes at the offsets the writer gave tensor `i`. */
  method WriteThenRead(tensors: seq<TensorData>, i: nat) returns (infos: seq<TensorInfo>, data: string)
    requires i < |tensors| && |Header(EntriesFrom(tensors, 0))| < 0x1_0000_0000_0000_0000
    requires (forall k | 0 <= k < |tensors| :: TensorOk(tensors[k])) && Fits(|AllData(tensors)|)
    ensures infos == Kept(EntriesFrom(tensors, 0)) && data == tensors[i].data
  {
    hide Header, HeaderThen, EntriesFrom, AllData, FileText, FileHeader, Kept, LE, Chars;
    ghost var header := Header(EntriesFrom(tensors, 0));
    var file := WriteSafetensors(tensors);
    FileReadsBack(tensors, header);
    var read := ReadFileHeader(file.value);
    var entries := AssignOffsets(tensors);
    var length := ReadU64(file.value);
    LengthOfFile(tensors, header, file.value);
    TensorBytesReadBack(tensors, header, entries[i], i);
    infos := read.value;
    data := file.value[8 + length.value + entries[i].begin..8 + length.value + entries[i].end];
  }

  lemma LengthOfFile(tensors: seq<TensorData>, header: string, file: string)
    requires header == Header(EntriesFrom(tensors, 0)) && |header| < 0x1_0000_0000_0000_0000
    requires file == FileText(tensors)
    ensures |file| >= 8 && FromLE(CharBytes(file[..8])) == |header|
  {
    hide Header, EntriesFrom, AllData;
    Parts(file, Chars(LE(|header|, 8)), header, AllData(tensors));
    LengthReadsBack(|header|);
  }

  // ----- what follows a text is what was put behind it

  lemma QuotedAppend(s: string, a: string, b: string)
    ensures QuotedThen(s, a) + b == QuotedThen(s, a + b)
  {
    Reassociate("\"", s + ("\"" + a), b);
    Reassociate(s, "\"" + a, b);
    Reassociate("\"", a, b);
  }

  lemma {:induction false} SizesAppend(shape: seq<nat>, a: string, b: string)
    ensures SizesThen(shape, a) + b == SizesThen(shape, a + b)
  {
    if |shape| == 1 {
      Reassociate(Decimal(shape[0]), a, b);
    } else if shape != [] {
      SizesAppend(shape[1..], a, b);
      Reassociate(Decimal(shape[0]), "," + SizesThen(shape[1..], a), b);
      Reassociate(",", SizesThen(shape[1..], a), b);
    }
  }

  lemma OffsetsAppend(begin: nat, end: nat, a: string, b: string)
    ensures OffsetsThen(begin, end, a) + b == OffsetsThen(begin, end, a + b)
  {
    var t := Decimal(end) + ("]" + a);
    Reassociate("[", Decimal(begin) + ("," + t), b);
    Reassociate(Decimal(begin), "," + t, b);
    Reassociate(",", t, b);
    Reassociate(Decimal(end), "]" + a, b);
    Reassociate("]", a, b);
  }

  lemma DataAppendText(e: TensorEntry, a: string, b: string)
    ensures DataThen(e, a) + b == DataThen(e, a + b)
  {
    QuotedAppend("data_offsets", ":" + OffsetsThen(e.begin, e.end, "}" + a), b);
    Reassociate(":", OffsetsThen(e.begin, e.end, "}" + a), b);
    OffsetsAppend(e.begin, e.end, "}" + a, b);
    Reassociate("}", a, b);
  }

  lemma ShapeAppend(e: TensorEntry, a: string, b: string)
    ensures ShapeThen(e, a) + b == ShapeThen(e, a + b)
  {
    var more := "]" + ("," + DataThen(e, a));
    QuotedAppend("shape", ":" + ("[" + SizesThen(e.shape, more)), b);
    Reassociate(":", "[" + SizesThen(e.shape, more), b);
    Reassociate("[", SizesThen(e.shape, more), b);
    SizesAppend(e.shape, more, b);
    Reassociate("]", "," + DataThen(e, a), b);
    Reassociate(",", DataThen(e, a), b);
    DataAppendText(e, a, b);
  }

  lemma EntryAppend(e: TensorEntry, a: string, b: string)
    ensures EntryThen(e, a) + b == EntryThen(e, a + b)
  {
    var dtype := QuotedThen(e.dtype, "," + ShapeThen(e, a));
    QuotedAppend(Escape(e.name), ":" + ObjectThen(e, a), b);
    Reassociate(":", ObjectThen(e, a), b);
    Reassociate("{", QuotedThen("dtype", ":" + dtype), b);
    QuotedAppend("dtype", ":" + dtype, b);
    Reassociate(":", dtype, b);
    QuotedAppend(e.dtype, "," + ShapeThen(e, a), b);
    Reassociate(",", ShapeThen(e, a), b);
    ShapeAppend(e, a, b);
  }

  lemma {:induction false} EntriesTextAppend(entries: seq<TensorEntry>, a: string, b: string)
    ensures EntriesThen(entries, a) + b == EntriesThen(entries, a + b)
  {
    if entries != [] {
      var tail := EntriesThen(entries[1..], a);
      EntriesTextAppend(entries[1..], a, b);
      Reassociate(",", EntryThen(entries[0], tail), b);
      EntryAppend(entries[0], tail, b);
    }
  }

  lemma MetadataAppend(a: string, b: string)
    ensures MetadataThen(a) + b == MetadataThen(a + b)
  {
    var value := QuotedThen("format", ":" + QuotedThen("pt", "}" + a));
    QuotedAppend(METADATA, ":" + ("{" + value), b);
    Reassociate(":", "{" + value, b);
    Reassociate("{", value, b);
    QuotedAppend("format", ":" + QuotedThen("pt", "}" + a), b);
    Reassociate(":", QuotedThen("pt", "}" + a), b);
    QuotedAppend("pt", "}" + a, b);
    Reassociate("}", a, b);
  }

  lemma HeaderThenAppend(entries: seq<TensorEntry>, rest: string)
    ensures HeaderThen(entries, "") + rest == HeaderThen(entries, rest)
  {
    assert "}" + "" == "}";
    Reassociate("{", MetadataThen(EntriesThen(entries, "}")), rest);
    MetadataAppend(EntriesThen(entries, "}"), rest);
    EntriesTextAppend(entries, "}", rest);
  }
}
