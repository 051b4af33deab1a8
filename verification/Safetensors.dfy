/** Safetensors files: the header writer, the header reader, and what reading back a written file gives. */
module Safetensors {
  import opened JsonScan
  import opened Results

  // ----- reading

  datatype TensorInfo = TensorInfo(name: string, dtype: string, shape: seq<int>, begin: nat, end: nat)

  function TensorField(s: string, key: string, info: TensorInfo): (r: Option<(TensorInfo, string)>)
    ensures r.Some? ==> |r.value.1| <= |s|
  {
    if key == "dtype" then
      var v :- ScanString(s);
      Some((info.(dtype := v.0), v.1))
    else if key == "shape" then
      var v :- ScanIntArray(s);
      Some((info.(shape := v.0), v.1))
    else if key == "data_offsets" then
      var v :- ScanIntArray(s);
      if |v.0| != 2 || v.0[0] < 0 || v.0[1] < v.0[0] then None
      else Some((info.(begin := v.0[0], end := v.0[1]), v.1))
    else
      var rest :- SkipValue(s);
      Some((info, rest))
  }

  function TensorMembers(s: string, info: TensorInfo): (r: Option<(TensorInfo, string)>)
    ensures r.Some? ==> |r.value.1| <= |s|
    decreases |s|
  {
    var key :- ScanString(s);
    var colon :- Consume(key.1, ':');
    var field :- TensorField(colon, key.0, info);
    match Consume(field.1, '}')
    case Some(rest) => Some((field.0, rest))
    case None =>
      var rest :- Consume(field.1, ',');
      TensorMembers(rest, field.0)
  }

  function NewInfo(name: string): TensorInfo {
    TensorInfo(name, "", [], 0, 0)
  }

  function ParseTensor(s: string, name: string): (r: Option<(TensorInfo, string)>)
    ensures r.Some? ==> |r.value.1| <= |s|
  {
    var open :- Consume(s, '{');
    match Consume(open, '}')
    case Some(rest) => Some((NewInfo(name), rest))
    case None => TensorMembers(open, NewInfo(name))
  }

  const METADATA := "__metadata__"

  /** One key and its value: tensors are added to the list, metadata is skipped. */
  function HeaderField(s: string, key: string, tensors: seq<TensorInfo>): (r: Option<(seq<TensorInfo>, string)>)
    ensures r.Some? ==> |r.value.1| <= |s|
  {
    if key == METADATA then
      var rest :- SkipValue(s);
      Some((tensors, rest))
    else
      var t :- ParseTensor(s, key);
      Some((tensors + [t.0], t.1))
  }

  function HeaderMembers(s: string, tensors: seq<TensorInfo>): Option<seq<TensorInfo>>
    decreases |s|
  {
    var key :- ScanString(s);
    var colon :- Consume(key.1, ':');
    var field :- HeaderField(colon, key.0, tensors);
    match Consume(field.1, '}')
    case Some(_) => Some(field.0)
    case None =>
      var rest :- Consume(field.1, ',');
      HeaderMembers(rest, field.0)
  }

  function ParseHeader(s: string): Option<seq<TensorInfo>> {
    var open :- Consume(s, '{');
    match Consume(open, '}')
    case Some(_) => Some([])
    case None => HeaderMembers(open, [])
  }

  method ReadTensorField(scanner: JsonScanner, key: string, info: TensorInfo) returns (r: Result<TensorInfo>)
    requires scanner.Valid()
    modifies scanner`pos
    ensures scanner.Valid() && Scanned(r, TensorField(old(scanner.Rest()), key, info), scanner.Rest())
  {
    if key == "dtype" {
      var v :- scanner.String();
      return Ok(info.(dtype := v));
    } else if key == "shape" {
      var v :- scanner.IntArray();
      return Ok(info.(shape := v));
    } else if key == "data_offsets" {
      var v :- scanner.IntArray();
      if |v| != 2 || v[0] < 0 || v[1] < v[0] { return Err("invalid safetensors offsets"); }
      return Ok(info.(begin := v[0], end := v[1]));
    } else {
      var _ :- scanner.SkipOne();
      return Ok(info);
    }
  }

  method ReadTensor(scanner: JsonScanner, name: string) returns (r: Result<TensorInfo>)
    requires scanner.Valid()
    modifies scanner`pos
    ensures scanner.Valid() && Scanned(r, ParseTensor(old(scanner.Rest()), name), scanner.Rest())
  {
    var info := NewInfo(name);
    var _ :- scanner.Expect('{');
    ghost var open := scanner.Rest();
    var empty := scanner.TryConsume('}');
    if empty { return Ok(info); }
    SpaceBeforeString(open);
    ghost var whole := TensorMembers(open, info);
    while true
      invariant scanner.Valid() && TensorMembers(scanner.Rest(), info) == whole
      decreases |scanner.text| - scanner.pos
    {
      var key :- scanner.String();
      var _ :- scanner.Expect(':');
      info :- ReadTensorField(scanner, key, info);
      ghost var after := scanner.Rest();
      var closed := scanner.TryConsume('}');
      if closed { return Ok(info); }
      ConsumeAfterSpace(after, ',');
      var _ :- scanner.Expect(',');
    }
  }

  method ReadHeader(header: string) returns (r: Result<seq<TensorInfo>>)
    ensures match ParseHeader(header) case None => r.Err? case Some(tensors) => r == Ok(tensors)
  {
    var scanner := new JsonScanner(header);
    var tensors: seq<TensorInfo> := [];
    var _ :- scanner.Expect('{');
    ghost var open := scanner.Rest();
    var empty := scanner.TryConsume('}');
    if empty { return Ok(tensors); }
    SpaceBeforeString(open);
    ghost var whole := HeaderMembers(open, tensors);
    while true
      invariant scanner.Valid() && HeaderMembers(scanner.Rest(), tensors) == whole
      decreases |scanner.text| - scanner.pos
    {
      var key :- scanner.String();
      var _ :- scanner.Expect(':');
      if key == METADATA {
        var _ :- scanner.SkipOne();
      } else {
        var info :- ReadTensor(scanner, key);
        tensors := tensors + [info];
      }
      ghost var after := scanner.Rest();
      var closed := scanner.TryConsume('}');
      if closed { return Ok(tensors); }
      ConsumeAfterSpace(after, ',');
      var _ :- scanner.Expect(',');
    }
  }

  // ----- writing

  /** A tensor to be written: `data` stands for its bytes. */
  datatype TensorEntry = TensorEntry(name: string, dtype: string, shape: seq<nat>, begin: nat, end: nat)

  function Escape1(c: char): string {
    if c == '"' then "\\\""
    else if c == '\\' then "\\\\"
    else if c == '\n' then "\\n"
    else if c == '\r' then "\\r"
    else if c == '\t' then "\\t"
    else [c]
  }

  function Escape(s: string): string {
    if s == "" then "" else Escape1(s[0]) + Escape(s[1..])
  }

  function Digit(d: nat): char
    requires d < 10
  {
    ('0' as int + d) as char
  }

  function Decimal(n: nat): string {
    if n < 10 then [Digit(n)] else Decimal(n / 10) + [Digit(n % 10)]
  }

  // The texts below take what follows them, so that a text is what a reader sees with its rest behind it.

  function QuotedThen(s: string, rest: string): string {
    "\"" + (s + ("\"" + rest))
  }

  /** The sizes of a shape with commas between them. */
  function SizesThen(shape: seq<nat>, rest: string): string {
    if shape == [] then rest
    else if |shape| == 1 then Decimal(shape[0]) + rest
    else Decimal(shape[0]) + ("," + SizesThen(shape[1..], rest))
  }

  function OffsetsThen(begin: nat, end: nat, rest: string): string {
    "[" + (Decimal(begin) + ("," + (Decimal(end) + ("]" + rest))))
  }

  function ObjectThen(e: TensorEntry, rest: string): string {
    "{" + QuotedThen("dtype", ":" + QuotedThen(e.dtype, "," + ShapeThen(e, rest)))
  }

  function ShapeThen(e: TensorEntry, rest: string): string {
    QuotedThen("shape", ":" + ("[" + SizesThen(e.shape, "]" + ("," + DataThen(e, rest)))))
  }

  function DataThen(e: TensorEntry, rest: string): string {
    QuotedThen("data_offsets", ":" + OffsetsThen(e.begin, e.end, "}" + rest))
  }

  function EntryThen(e: TensorEntry, rest: string): string {
    QuotedThen(Escape(e.name), ":" + ObjectThen(e, rest))
  }

  function EntriesThen(entries: seq<TensorEntry>, rest: string): string {
    if entries == [] then rest else "," + EntryThen(entries[0], EntriesThen(entries[1..], rest))
  }

  function MetadataThen(rest: string): string {
    QuotedThen(METADATA, ":" + ("{" + QuotedThen("format", ":" + QuotedThen("pt", "}" + rest))))
  }

  function Spaces(n: nat): string {
    seq(n, _ => ' ')
  }

  function HeaderThen(entries: seq<TensorEntry>, rest: string): string {
    "{" + MetadataThen(EntriesThen(entries, "}" + rest))
  }
}
