/** Reading and skipping arbitrary JSON values and tensor objects, not only those the writer makes. */
module JsonValues {
  import opened JsonScan
  import opened Results
  import opened Safetensors
  import opened SafetensorsRoundTrip

  // ----- JSON values and their text

  datatype Json =
    | Text(content: string)
    | Scalar(text: string)
    | List(items: seq<Json>)
    | Object(members: seq<Member>)

  datatype Member = Member(key: string, value: Json)

  predicate Delimiter(c: char) {
    c == ',' || c == '}' || c == ']'
  }

  /** A number, `true`, `false` or `null`: no delimiter in it, and it begins like none of the others. */
  predicate ScalarOk(text: string) {
    && text != "" && !IsSpace(text[0]) && text[0] != '"' && text[0] != '{' && text[0] != '['
    && forall i | 0 <= i < |text| :: !Delimiter(text[i])
  }

  predicate JsonOk(v: Json) {
    match v
    case Text(_) => true
    case Scalar(text) => ScalarOk(text)
    case List(items) => forall i | 0 <= i < |items| :: JsonOk(items[i])
    case Object(members) => forall i | 0 <= i < |members| :: JsonOk(members[i].value)
  }

  /** The text of a value and what follows it. */
  function ValueThen(v: Json, rest: string): string
    decreases v
  {
    match v
    case Text(content) => QuotedThen(Escape(content), rest)
    case Scalar(text) => text + rest
    case List(items) => "[" + ItemsThen(items, "]" + rest)
    case Object(members) => "{" + MembersThen(members, "}" + rest)
  }

  function ItemsThen(items: seq<Json>, end: string): string
    decreases items
  {
    if items == [] then end
    else if |items| == 1 then ValueThen(items[0], end)
    else ValueThen(items[0], "," + ItemsThen(items[1..], end))
  }

  function MembersThen(members: seq<Member>, end: string): string
    decreases members
  {
    if members == [] then end
    else if |members| == 1 then MemberThen(members[0].key, ValueThen(members[0].value, end))
    else MemberThen(members[0].key, ValueThen(members[0].value, "," + MembersThen(members[1..], end)))
  }

  function MemberThen(key: string, value: string): string {
    QuotedThen(Escape(key), ":" + value)
  }

  // ----- skipping takes exactly one value

  predicate Closed(rest: string) {
    rest != "" && Delimiter(rest[0])
  }

  lemma {:induction false} RunScalar(text: string, rest: string)
    requires Closed(rest) && forall i | 0 <= i < |text| :: !Delimiter(text[i])
    ensures RunToDelimiter(text + rest) == rest
  {
    if text == "" {
      assert text + rest == rest;
    } else {
      RunScalar(text[1..], rest);
      assert (text + rest)[1..] == text[1..] + rest;
    }
  }

  lemma SkipScalar(text: string, rest: string)
    requires ScalarOk(text) && Closed(rest)
    ensures SkipValue(text + rest) == Some(rest)
  {
    assert (text + rest)[0] == text[0];
    RunScalar(text, rest);
  }

  lemma SkipText(content: string, rest: string)
    ensures SkipValue(QuotedThen(Escape(content), rest)) == Some(rest)
  {
    EscapedString(content, rest);
    assert QuotedThen(Escape(content), rest)[0] == '"';
  }

  /** No value begins with a closing bracket or a comma. */
  lemma ValueStarts(v: Json, rest: string)
    requires JsonOk(v)
    ensures ValueThen(v, rest) != "" && !IsSpace(ValueThen(v, rest)[0]) && !Delimiter(ValueThen(v, rest)[0])
  {
  }

  lemma NotClosing(s: string, c: char)
    requires s != "" && !IsSpace(s[0]) && !Delimiter(s[0]) && Delimiter(c)
    ensures Consume(s, c) == None
  {
  }

  /** Whatever the value and however deep it is nested, skipping ends just behind it. */
  lemma {:induction false} SkipsOneValue(v: Json, rest: string)
    requires JsonOk(v) && Closed(rest)
    ensures SkipValue(ValueThen(v, rest)) == Some(rest)
    decreases v
  {
    match v
    case Text(content) => SkipText(content, rest);
    case Scalar(text) => SkipScalar(text, rest);
    case List(items) =>
      var inside := ItemsThen(items, "]" + rest);
      if items == [] {
        Punct(']', rest);
      } else {
        ItemsStart(items, "]" + rest);
        NotClosing(inside, ']');
        SkipsItems(items, rest);
      }
      OpenList(inside);
    case Object(members) =>
      var inside := MembersThen(members, "}" + rest);
      if members == [] {
        Punct('}', rest);
        OpenEmptyObject(inside, rest);
      } else {
        MembersStart(members, "}" + rest);
        SkipObject(inside);
        SkipsMembers(members, rest);
      }
  }

  lemma ItemsStart(items: seq<Json>, end: string)
    requires items != [] && forall i | 0 <= i < |items| :: JsonOk(items[i])
    ensures var s := ItemsThen(items, end); s != "" && !IsSpace(s[0]) && !Delimiter(s[0])
  {
    ValueStarts(items[0], if |items| == 1 then end else "," + ItemsThen(items[1..], end));
  }

  lemma MembersStart(members: seq<Member>, end: string)
    requires members != []
    ensures MembersThen(members, end) != "" && MembersThen(members, end)[0] == '"'
  {
  }

  lemma OpenList(inside: string)
    ensures SkipValue("[" + inside)
         == match Consume(inside, ']') case Some(rest) => Some(rest) case None => SkipElements(inside)
  {
    assert ("[" + inside)[1..] == inside;
  }

  lemma OpenEmptyObject(inside: string, rest: string)
    requires Consume(inside, '}') == Some(rest)
    ensures SkipValue("{" + inside) == Some(rest)
  {
    assert ("{" + inside)[1..] == inside;
  }

  lemma {:induction false} SkipsItems(items: seq<Json>, rest: string)
    requires items != [] && forall i | 0 <= i < |items| :: JsonOk(items[i])
    ensures SkipElements(ItemsThen(items, "]" + rest)) == Some(rest)
    decreases items
  {
    hide ValueThen, JsonOk;
    if |items| == 1 {
      SkipsOneValue(items[0], "]" + rest);
      Punct(']', rest);
    } else {
      var tail := ItemsThen(items[1..], "]" + rest);
      SkipsOneValue(items[0], "," + tail);
      Punct(',', tail);
      SkipsItems(items[1..], rest);
    }
  }

  lemma {:induction false} SkipsMembers(members: seq<Member>, rest: string)
    requires members != [] && forall i | 0 <= i < |members| :: JsonOk(members[i].value)
    ensures SkipMembers(MembersThen(members, "}" + rest)) == Some(rest)
    decreases members
  {
    hide ValueThen, JsonOk;
    var key, value := members[0].key, members[0].value;
    if |members| == 1 {
      SkipsOneValue(value, "}" + rest);
      NextMember(key, ValueThen(value, "}" + rest), "}" + rest);
      Punct('}', rest);
    } else {
      var tail := MembersThen(members[1..], "}" + rest);
      SkipsOneValue(value, "," + tail);
      NextMember(key, ValueThen(value, "," + tail), "," + tail);
      Punct(',', tail);
      SkipsMembers(members[1..], rest);
    }
  }

  lemma NextMember(key: string, value: string, after: string)
    requires SkipValue(value) == Some(after)
    ensures SkipMembers(MemberThen(key, value))
         == match Consume(after, '}')
            case Some(rest) => Some(rest)
            case None => (match Consume(after, ',') case None => None case Some(rest) => SkipMembers(rest))
  {
    EscapedString(key, ":" + value);
    Punct(':', value);
  }

  // ----- white space, escapes and signs

  predicate Blank(w: string) {
    forall i | 0 <= i < |w| :: w[i] == ' ' || w[i] == '\t' || w[i] == '\n' || w[i] == '\r' || w[i] as int == 11
        || w[i] as int == 12
  }

  lemma {:induction false} SkipBlank(w: string, s: string)
    requires Blank(w)
    ensures SkipWs(w + s) == SkipWs(s)
  {
    if w == "" {
      assert w + s == s;
    } else {
      SkipBlank(w[1..], s);
      assert (w + s)[1..] == w[1..] + s;
    }
  }

  /** Blanks before any token or value change nothing, and nothing but blanks is passed over. */
  lemma BlanksAreIgnored(w: string, s: string, c: char, name: string)
    requires Blank(w)
    ensures Consume(w + s, c) == Consume(s, c) && ScanString(w + s) == ScanString(s)
    ensures ScanInteger(w + s) == ScanInteger(s) && ScanIntArray(w + s) == ScanIntArray(s)
    ensures SkipValue(w + s) == SkipValue(s)
    ensures ParseTensor(w + s, name) == ParseTensor(s, name) && ParseHeader(w + s) == ParseHeader(s)
    ensures s != "" && !Blank([s[0]]) ==> SkipWs(w + s) == s
  {
    SkipBlank(w, s);
  }

  /** A backslash makes the next byte part of the string: n and t name line feed and tab, every other byte itself. */
  lemma EscapeReads(c: char, tail: string)
    ensures Body("\\" + [c] + tail)
         == match Body(tail)
            case None => None
            case Some(p) => Some(((if c == 'n' then "\n" else if c == 't' then "\t" else [c]) + p.0, p.1))
  {
    var s := "\\" + [c] + tail;
    assert s[0] == '\\' && s[1] == c && s[2..] == tail;
  }

  /** A minus sign negates, down to the least 64-bit integer; larger numbers are refused. */
  lemma SignedInteger(n: nat, rest: string)
    requires NoDigitFirst(rest)
    ensures ScanInteger("-" + (Decimal(n) + rest)) == if n <= 0x8000_0000_0000_0000 then Some((0 - n, rest)) else None
    ensures ScanInteger(Decimal(n) + rest) == if n < 0x8000_0000_0000_0000 then Some((n, rest)) else None
  {
    hide Decimal, DecimalValue;
    var d := Decimal(n);
    DecimalIsValue(n);
    DigitsThen(d, rest);
    assert IsDigit(d[0]) && (d + rest)[0] == d[0];
    assert ("-" + (d + rest))[1..] == d + rest;
    assert (d + rest)[..|d|] == d && (d + rest)[|d|..] == rest;
  }

  // ----- tensor objects in any shape

  /** A member of a tensor object; `Other` has a key that the reader does not know. */
  datatype Field =
    | Dtype(dtype: string)
    | Shape(shape: seq<nat>)
    | Offsets(begin: nat, end: nat)
    | Other(key: string, value: Json)

  predicate FieldOk(f: Field) {
    match f
    case Dtype(_) => true
    case Shape(shape) => AllFit(shape)
    case Offsets(begin, end) => Fits(begin) && Fits(end)
    case Other(key, value) =>
      JsonOk(value) && Back(key) != "dtype" && Back(key) != "shape" && Back(key) != "data_offsets"
  }

  function FieldThen(f: Field, rest: string): string {
    match f
    case Dtype(dtype) => QuotedThen("dtype", ":" + QuotedThen(Escape(dtype), rest))
    case Shape(shape) => QuotedThen("shape", ":" + ("[" + SizesThen(shape, "]" + rest)))
    case Offsets(begin, end) => QuotedThen("data_offsets", ":" + OffsetsThen(begin, end, rest))
    case Other(key, value) => MemberThen(key, ValueThen(value, rest))
  }

  function FieldsThen(fields: seq<Field>, end: string): string {
    if fields == [] then end
    else if |fields| == 1 then FieldThen(fields[0], end)
    else FieldThen(fields[0], "," + FieldsThen(fields[1..], end))
  }

  /** What one member makes of what is known so far; offsets that run backwards are an error. */
  function With(info: TensorInfo, f: Field): Option<TensorInfo> {
    match f
    case Dtype(dtype) => Some(info.(dtype := Back(dtype)))
    case Shape(shape) => Some(info.(shape := shape))
    case Offsets(begin, end) => if end < begin then None else Some(info.(begin := begin, end := end))
    case Other(_, _) => Some(info)
  }

  function WithAll(info: TensorInfo, fields: seq<Field>): Option<TensorInfo>
    decreases |fields|
  {
    if fields == [] then Some(info)
    else
      var next :- With(info, fields[0]);
      WithAll(next, fields[1..])
  }

  /** What the reader does after a member: the object ends, or the next one follows. */
  function AfterMember(info: TensorInfo, s: string): Option<(TensorInfo, string)> {
    match Consume(s, '}')
    case Some(rest) => Some((info, rest))
    case None =>
      var rest :- Consume(s, ',');
      TensorMembers(rest, info)
  }

  lemma FieldScan(f: Field, rest: string, info: TensorInfo)
    requires FieldOk(f) && Closed(rest)
    ensures TensorMembers(FieldThen(f, rest), info)
         == match With(info, f) case None => None case Some(next) => AfterMember(next, rest)
  {
    hide ScanString, ScanIntArray, SkipValue, QuotedThen, Escape, OffsetsThen, SizesThen, ValueThen, JsonOk, Back;
    match f
    case Dtype(dtype) =>
      EscapedString(dtype, rest);
      KeyScan("dtype", QuotedThen(Escape(dtype), rest), info);
    case Shape(shape) =>
      ShapeScan(shape, rest);
      KeyScan("shape", "[" + SizesThen(shape, "]" + rest), info);
    case Offsets(begin, end) =>
      OffsetsScan(begin, end, rest);
      KeyScan("data_offsets", OffsetsThen(begin, end, rest), info);
    case Other(key, value) =>
      SkipsOneValue(value, rest);
      EscapedString(key, ":" + ValueThen(value, rest));
      Punct(':', ValueThen(value, rest));
  }

  /** A known key leads the reader to its value. */
  lemma KeyScan(key: string, value: string, info: TensorInfo)
    requires Plain(key)
    ensures TensorMembers(QuotedThen(key, ":" + value), info)
         == match TensorField(value, key, info) case None => None case Some(p) => AfterMember(p.0, p.1)
  {
    hide QuotedThen, TensorField, ScanString;
    PlainString(key, ":" + value);
    Punct(':', value);
  }

  lemma {:induction false} FieldsScan(fields: seq<Field>, rest: string, info: TensorInfo)
    requires fields != [] && forall i | 0 <= i < |fields| :: FieldOk(fields[i])
    ensures TensorMembers(FieldsThen(fields, "}" + rest), info)
         == match WithAll(info, fields) case None => None case Some(next) => Some((next, rest))
    decreases |fields|
  {
    hide TensorMembers, FieldThen, FieldOk;
    if |fields| == 1 {
      FieldScan(fields[0], "}" + rest, info);
      Punct('}', rest);
      assert forall next :: WithAll(next, fields[1..]) == Some(next);
    } else {
      var tail := FieldsThen(fields[1..], "}" + rest);
      FieldScan(fields[0], "," + tail, info);
      Punct(',', tail);
      if With(info, fields[0]).Some? { FieldsScan(fields[1..], rest, With(info, fields[0]).value); }
    }
  }

  /** An object with members in any order, known ones repeated or left out and unknown ones among them, is read
      member by member, and refused exactly when some offsets run backwards. */
  lemma ObjectScan(fields: seq<Field>, rest: string, name: string)
    requires forall i | 0 <= i < |fields| :: FieldOk(fields[i])
    ensures ParseTensor("{" + FieldsThen(fields, "}" + rest), name)
         == match WithAll(TensorInfo(name, "", [], 0, 0), fields)
            case None => None
            case Some(info) => Some((info, rest))
    ensures WithAll(TensorInfo(name, "", [], 0, 0), fields).None? <==>
              exists i :: 0 <= i < |fields| && Backwards(fields[i])
  {
    var inside := FieldsThen(fields, "}" + rest);
    Punct('{', inside);
    if fields == [] {
      Punct('}', rest);
    } else {
      FieldStarts(fields, "}" + rest);
      FieldsScan(fields, rest, NewInfo(name));
    }
    OnlyBackwards(NewInfo(name), fields);
  }

  predicate Backwards(f: Field) {
    f.Offsets? && f.end < f.begin
  }

  lemma FieldStarts(fields: seq<Field>, end: string)
    requires fields != []
    ensures Consume(FieldsThen(fields, end), '}') == None
  {
    var s := FieldsThen(fields, end);
    assert s[0] == '"';
  }

  lemma {:induction false} OnlyBackwards(info: TensorInfo, fields: seq<Field>)
    ensures WithAll(info, fields).None? <==> exists i :: 0 <= i < |fields| && Backwards(fields[i])
    decreases |fields|
  {
    if fields != [] {
      if Backwards(fields[0]) {
      } else {
        OnlyBackwards(With(info, fields[0]).value, fields[1..]);
        if i :| 0 <= i < |fields| && Backwards(fields[i]) { assert fields[1..][i - 1] == fields[i]; }
        if i :| 0 <= i < |fields[1..]| && Backwards(fields[1..][i]) { assert fields[i + 1] == fields[1..][i]; }
      }
    }
  }

  /** Offsets are accepted exactly when they are two numbers, the first not negative and the second not smaller. */
  lemma OffsetsExactly(s: string, numbers: seq<int>, rest: string, info: TensorInfo)
    requires ScanIntArray(s) == Some((numbers, rest))
    ensures TensorField(s, "data_offsets", info)
         == if |numbers| == 2 && 0 <= numbers[0] <= numbers[1]
            then Some((info.(begin := numbers[0], end := numbers[1]), rest)) else None
  {
  }

  /** Of a member that is repeated the last one counts, and a member that is missing leaves its default. */
  lemma {:induction false} LastCounts(info: TensorInfo, fields: seq<Field>, next: TensorInfo)
    requires WithAll(info, fields) == Some(next)
    ensures next.name == info.name
    ensures (exists i :: LastDtype(fields, i) && next.dtype == Back(fields[i].dtype))
         || ((forall i | 0 <= i < |fields| :: !fields[i].Dtype?) && next.dtype == info.dtype)
    ensures (exists i :: LastShape(fields, i) && next.shape == fields[i].shape)
         || ((forall i | 0 <= i < |fields| :: !fields[i].Shape?) && next.shape == info.shape)
    ensures (exists i :: LastOffsets(fields, i) && (next.begin, next.end) == (fields[i].begin, fields[i].end))
         || ((forall i | 0 <= i < |fields| :: !fields[i].Offsets?) && (next.begin, next.end) == (info.begin, info.end))
    decreases |fields|
  {
    if fields != [] {
      var middle := With(info, fields[0]).value;
      LastCounts(middle, fields[1..], next);
      assert forall i | 0 < i < |fields| :: fields[1..][i - 1] == fields[i];
      assert forall i | 0 <= i < |fields[1..]| :: fields[i + 1] == fields[1..][i];
      if i :| LastDtype(fields[1..], i) && next.dtype == Back(fields[1..][i].dtype) {
        assert LastDtype(fields, i + 1);
      } else {
        if fields[0].Dtype? { assert LastDtype(fields, 0); }
      }
      if i :| LastShape(fields[1..], i) && next.shape == fields[1..][i].shape {
        assert LastShape(fields, i + 1);
      } else {
        if fields[0].Shape? { assert LastShape(fields, 0); }
      }
      if i :| LastOffsets(fields[1..], i) && (next.begin, next.end) == (fields[1..][i].begin, fields[1..][i].end) {
        assert LastOffsets(fields, i + 1);
      } else {
        if fields[0].Offsets? { assert LastOffsets(fields, 0); }
      }
    }
  }

  predicate LastDtype(fields: seq<Field>, i: int) {
    0 <= i < |fields| && fields[i].Dtype? && forall j | i < j < |fields| :: !fields[j].Dtype?
  }

  predicate LastShape(fields: seq<Field>, i: int) {
    0 <= i < |fields| && fields[i].Shape? && forall j | i < j < |fields| :: !fields[j].Shape?
  }

  predicate LastOffsets(fields: seq<Field>, i: int) {
    0 <= i < |fields| && fields[i].Offsets? && forall j | i < j < |fields| :: !fields[j].Offsets?
  }
}
