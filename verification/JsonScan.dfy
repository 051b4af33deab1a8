/** The scanner for safetensors headers: a cursor over JSON text. A char stands for one byte. */
module JsonScan {
  import opened Results

  // ----- the grammar, as functions from the remaining text to a value and what remains after it

  function IsSpace(c: char): bool {
    c == ' ' || 9 <= c as int <= 13
  }

  function IsDigit(c: char): bool {
    '0' <= c <= '9'
  }

  function SkipWs(s: string): (rest: string)
    ensures |rest| <= |s|
  {
    if s != "" && IsSpace(s[0]) then SkipWs(s[1..]) else s
  }

  function Consume(s: string, c: char): (r: Option<string>)
    ensures r.Some? ==> |r.value| < |s|
  {
    var t := SkipWs(s);
    if t != "" && t[0] == c then Some(t[1..]) else None
  }

  /** What a backslash followed by `c` stands for. */
  function Unescaped(c: char): char {
    if c == 'n' then '\n' else if c == 't' then '\t' else c
  }

  /** A string after its opening quote. */
  function Body(s: string): (r: Option<(string, string)>)
    ensures r.Some? ==> |r.value.1| < |s|
  {
    if s == "" then None
    else if s[0] == '"' then Some(("", s[1..]))
    else if s[0] == '\\' then
      if |s| < 2 then None
      else
        match Body(s[2..])
        case None => None
        case Some(p) => Some(([Unescaped(s[1])] + p.0, p.1))
    else
      match Body(s[1..])
      case None => None
      case Some(p) => Some(([s[0]] + p.0, p.1))
  }

  function ScanString(s: string): (r: Option<(string, string)>)
    ensures r.Some? ==> |r.value.1| < |s|
  {
    match Consume(s, '"')
    case None => None
    case Some(t) => Body(t)
  }

  function Digits(s: string): (n: nat)
    ensures n <= |s| && forall i | 0 <= i < n :: IsDigit(s[i])
    ensures n < |s| ==> !IsDigit(s[n])
  {
    if s != "" && IsDigit(s[0]) then 1 + Digits(s[1..]) else 0
  }

  function DigitValue(c: char): nat
    requires IsDigit(c)
  {
    c as int - '0' as int
  }

  function DecimalValue(digits: string): nat
    requires forall i | 0 <= i < |digits| :: IsDigit(digits[i])
  {
    if digits == "" then 0 else DecimalValue(digits[..|digits| - 1]) * 10 + DigitValue(digits[|digits| - 1])
  }

  /** std::stoll of an optional minus sign and digits: no digits, or a value outside int64, is an error. */
  function ScanInteger(s: string): (r: Option<(int, string)>)
    ensures r.Some? ==> |r.value.1| < |s|
  {
    var t := SkipWs(s);
    var negative := t != "" && t[0] == '-';
    var u := if negative then t[1..] else t;
    var n := Digits(u);
    if n == 0 then None
    else
      var v := if negative then 0 - DecimalValue(u[..n]) else DecimalValue(u[..n]);
      if -0x8000_0000_0000_0000 <= v < 0x8000_0000_0000_0000 then Some((v, u[n..])) else None
  }

  function ScanIntegers(s: string): (r: Option<(seq<int>, string)>)
    ensures r.Some? ==> |r.value.1| < |s|
    decreases |s|
  {
    var first :- ScanInteger(s);
    match Consume(first.1, ']')
    case Some(rest) => Some(([first.0], rest))
    case None =>
      var rest :- Consume(first.1, ',');
      var more :- ScanIntegers(rest);
      Some(([first.0] + more.0, more.1))
  }

  function ScanIntArray(s: string): (r: Option<(seq<int>, string)>)
    ensures r.Some? ==> |r.value.1| < |s|
  {
    var open :- Consume(s, '[');
    match Consume(open, ']')
    case Some(rest) => Some(([], rest))
    case None => ScanIntegers(open)
  }

  function RunToDelimiter(s: string): (rest: string)
    ensures |rest| <= |s|
  {
    if s != "" && s[0] != ',' && s[0] != '}' && s[0] != ']' then RunToDelimiter(s[1..]) else s
  }

  function SkipValue(s: string): (r: Option<string>)
    ensures r.Some? ==> |r.value| <= |s|
    decreases |s|, 1
  {
    var t := SkipWs(s);
    if t == "" then None
    else if t[0] == '"' then
      var p :- ScanString(t);
      Some(p.1)
    else if t[0] == '{' then
      match Consume(t[1..], '}')
      case Some(rest) => Some(rest)
      case None => SkipMembers(t[1..])
    else if t[0] == '[' then
      match Consume(t[1..], ']')
      case Some(rest) => Some(rest)
      case None => SkipElements(t[1..])
    else Some(RunToDelimiter(t))
  }

  function SkipMembers(s: string): (r: Option<string>)
    ensures r.Some? ==> |r.value| <= |s|
    decreases |s|, 2
  {
    var key :- ScanString(s);
    var colon :- Consume(key.1, ':');
    var value :- SkipValue(colon);
    match Consume(value, '}')
    case Some(rest) => Some(rest)
    case None =>
      var rest :- Consume(value, ',');
      SkipMembers(rest)
  }

  function SkipElements(s: string): (r: Option<string>)
    ensures r.Some? ==> |r.value| <= |s|
    decreases |s|, 2
  {
    var value :- SkipValue(s);
    match Consume(value, ']')
    case Some(rest) => Some(rest)
    case None =>
      var rest :- Consume(value, ',');
      SkipElements(rest)
  }

  // ----- the scanner

  /** A scan follows its grammar function: the value and the text left over, or an error. */
  predicate Scanned<T(==)>(r: Result<T>, parsed: Option<(T, string)>, rest: string) {
    match parsed
    case None => r.Err?
    case Some(p) => r == Ok(p.0) && rest == p.1
  }

  predicate Skipped(r: Result<()>, skipped: Option<string>, rest: string) {
    match skipped
    case None => r.Err?
    case Some(t) => r.Ok? && rest == t
  }

  class JsonScanner {
    const text: string
    var pos: nat

    ghost predicate Valid()
      reads this
    {
      pos <= |text|
    }

    function Rest(): string
      reads this
      requires Valid()
    {
      text[pos..]
    }

    constructor (text: string)
      ensures Valid() && Rest() == text
    {
      this.text := text;
      pos := 0;
    }

    method SkipSpace()
      requires Valid()
      modifies this`pos
      ensures Valid() && Rest() == SkipWs(old(Rest()))
    {
      while pos < |text| && IsSpace(text[pos])
        invariant Valid() && SkipWs(Rest()) == SkipWs(old(Rest()))
        decreases |text| - pos
      {
        pos := pos + 1;
      }
    }

    method TryConsume(c: char) returns (ok: bool)
      requires Valid()
      modifies this`pos
      ensures Valid() && ok == Consume(old(Rest()), c).Some?
      ensures Rest() == if ok then Consume(old(Rest()), c).value else SkipWs(old(Rest()))
    {
      SkipSpace();
      if pos == |text| || text[pos] != c { return false; }
      pos := pos + 1;
      return true;
    }

    method Expect(c: char) returns (r: Result<()>)
      requires Valid()
      modifies this`pos
      ensures Valid() && r.Ok? == Consume(old(Rest()), c).Some?
      ensures r.Ok? ==> Rest() == Consume(old(Rest()), c).value
    {
      var ok := TryConsume(c);
      if !ok { return Err("expected JSON char"); }
      return Ok(());
    }

    method String() returns (r: Result<string>)
      requires Valid()
      modifies this`pos
      ensures Valid() && Scanned(r, ScanString(old(Rest())), Rest())
    {
      SkipSpace();
      ConsumeAfterSpace(old(Rest()), '"');
      var _ :- Expect('"');
      r := StringBody();
    }

    /** The characters up to the closing quote. */
    method StringBody() returns (r: Result<string>)
      requires Valid()
      modifies this`pos
      ensures Valid() && Scanned(r, Body(old(Rest())), Rest())
    {
      ghost var whole := Body(Rest());
      var out := "";
      BodyStarts(Rest());
      while pos < |text|
        invariant Valid() && BodySoFar(whole, out, Rest())
        decreases |text| - pos
      {
        var ch := text[pos];
        ghost var before := Rest();
        pos := pos + 1;
        if ch == '"' {
          BodyEnds(whole, out, before);
          return Ok(out);
        }
        if ch == '\\' {
          if pos == |text| { return Err("unterminated JSON escape"); }
          var escaped := text[pos];
          pos := pos + 1;
          assert Rest() == before[2..];
          BodyStep(whole, out, before);
          out := out + [Unescaped(escaped)];
        } else {
          BodyStep(whole, out, before);
          out := out + [ch];
        }
      }
      return Err("unterminated JSON string");
    }

    method DigitRun() returns (digits: string)
      requires Valid()
      modifies this`pos
      ensures Valid() && digits == old(Rest())[..Digits(old(Rest()))] && Rest() == old(Rest())[Digits(old(Rest()))..]
    {
      var begin := pos;
      while pos < |text| && IsDigit(text[pos])
        invariant begin <= pos && Valid() && Digits(old(Rest())) == pos - begin + Digits(Rest())
        decreases |text| - pos
      {
        pos := pos + 1;
      }
      digits := text[begin..pos];
    }

    method Integer() returns (r: Result<int>)
      requires Valid()
      modifies this`pos
      ensures Valid() && Scanned(r, ScanInteger(old(Rest())), Rest())
    {
      SkipSpace();
      var negative := pos < |text| && text[pos] == '-';
      if negative { pos := pos + 1; }
      assert Rest() == if negative then SkipWs(old(Rest()))[1..] else SkipWs(old(Rest()));
      var digits := DigitRun();
      if digits == "" { return Err("expected JSON integer"); }
      var v: int := if negative then 0 - DecimalValue(digits) else DecimalValue(digits);
      if v < -0x8000_0000_0000_0000 || v >= 0x8000_0000_0000_0000 { return Err("stoll out of range"); }
      return Ok(v);
    }

    method IntArray() returns (r: Result<seq<int>>)
      requires Valid()
      modifies this`pos
      ensures Valid() && Scanned(r, ScanIntArray(old(Rest())), Rest())
    {
      var _ :- Expect('[');
      ghost var inside := Rest();
      var empty := TryConsume(']');
      if empty { return Ok([]); }
      SpaceBeforeInteger(inside);
      r := Integers();
    }

    /** The elements of a nonempty array and its closing bracket. */
    method Integers() returns (r: Result<seq<int>>)
      requires Valid()
      modifies this`pos
      ensures Valid() && Scanned(r, ScanIntegers(old(Rest())), Rest())
    {
      ghost var whole := ScanIntegers(Rest());
      var out: seq<int> := [];
      IntegersStart(Rest());
      while true
        invariant Valid() && IntegersSoFar(whole, out, Rest())
        decreases |text| - pos
      {
        ghost var before := Rest();
        IntegersStep(whole, out, before);
        var v :- Integer();
        ghost var after := Rest();
        out := out + [v];
        var closed := TryConsume(']');
        if closed { return Ok(out); }
        ConsumeAfterSpace(after, ',');
        var _ :- Expect(',');
      }
    }

    /** Skip one value of any kind. */
    method SkipOne() returns (r: Result<()>)
      requires Valid()
      modifies this`pos
      ensures Valid() && Skipped(r, SkipValue(old(Rest())), Rest())
      decreases |text| - pos, 1
    {
      ghost var before := Rest();
      SkipSpace();
      ghost var t := Rest();
      SpaceOnce(before);
      if pos == |text| { return Err("unexpected JSON eof"); }
      var ch := text[pos];
      if ch == '"' {
        var _ :- String();
        return Ok(());
      }
      if ch == '{' {
        var _ :- Expect('{');
        var empty := TryConsume('}');
        if empty { return Ok(()); }
        SpaceBeforeMembers(t[1..]);
        r := SkipObjectMembers();
        return;
      }
      if ch == '[' {
        var _ :- Expect('[');
        var empty := TryConsume(']');
        if empty { return Ok(()); }
        SpaceBeforeElements(t[1..]);
        r := SkipArrayElements();
        return;
      }
      while pos < |text| && text[pos] != ',' && text[pos] != '}' && text[pos] != ']'
        invariant Valid() && RunToDelimiter(Rest()) == RunToDelimiter(t)
        decreases |text| - pos
      {
        pos := pos + 1;
      }
      return Ok(());
    }

    method SkipObjectMembers() returns (r: Result<()>)
      requires Valid()
      modifies this`pos
      ensures Valid() && Skipped(r, SkipMembers(old(Rest())), Rest())
      decreases |text| - pos, 0
    {
      while true
        invariant Valid() && SkipMembers(Rest()) == SkipMembers(old(Rest())) && pos >= old(pos)
        decreases |text| - pos
      {
        ghost var before := Rest();
        var _ :- String();
        var _ :- Expect(':');
        assert |Rest()| < |before|;
        var _ :- SkipOne();
        ghost var after := Rest();
        var closed := TryConsume('}');
        if closed { return Ok(()); }
        ConsumeAfterSpace(after, ',');
        var _ :- Expect(',');
      }
    }

    method SkipArrayElements() returns (r: Result<()>)
      requires Valid()
      modifies this`pos
      ensures Valid() && Skipped(r, SkipElements(old(Rest())), Rest())
      decreases |text| - pos, 2
    {
      while true
        invariant Valid() && SkipElements(Rest()) == SkipElements(old(Rest())) && pos >= old(pos)
        decreases |text| - pos
      {
        var _ :- SkipOne();
        ghost var after := Rest();
        var closed := TryConsume(']');
        if closed { return Ok(()); }
        ConsumeAfterSpace(after, ',');
        var _ :- Expect(',');
      }
    }
  }

  lemma {:induction false} SpaceOnce(s: string)
    ensures SkipWs(SkipWs(s)) == SkipWs(s)
  {
    if s != "" && IsSpace(s[0]) { SpaceOnce(s[1..]); }
  }

  lemma ConsumeAfterSpace(s: string, c: char)
    ensures Consume(SkipWs(s), c) == Consume(s, c)
  {
    SpaceOnce(s);
  }

  lemma SpaceBeforeInteger(s: string)
    ensures ScanIntegers(SkipWs(s)) == ScanIntegers(s)
  {
    SpaceOnce(s);
  }

  ghost predicate BodySoFar(whole: Option<(string, string)>, out: string, rest: string) {
    match Body(rest)
    case None => whole.None?
    case Some(p) => whole == Some((out + p.0, p.1))
  }

  lemma BodyStep(whole: Option<(string, string)>, out: string, s: string)
    requires s != "" && s[0] != '"' && (s[0] == '\\' ==> |s| >= 2) && BodySoFar(whole, out, s)
    ensures s[0] == '\\' ==> BodySoFar(whole, out + [Unescaped(s[1])], s[2..])
    ensures s[0] != '\\' ==> BodySoFar(whole, out + [s[0]], s[1..])
  {
    var c, tail := if s[0] == '\\' then Unescaped(s[1]) else s[0], if s[0] == '\\' then s[2..] else s[1..];
    match Body(tail)
    case None =>
    case Some(p) => assert out + ([c] + p.0) == out + [c] + p.0;
  }

  lemma BodyStarts(s: string)
    ensures BodySoFar(Body(s), "", s)
  {
    match Body(s)
    case None =>
    case Some(p) => assert "" + p.0 == p.0;
  }

  lemma BodyEnds(whole: Option<(string, string)>, out: string, s: string)
    requires s != "" && s[0] == '"' && BodySoFar(whole, out, s)
    ensures whole == Some((out, s[1..]))
  {
    assert out + "" == out;
  }

  ghost predicate IntegersSoFar(whole: Option<(seq<int>, string)>, out: seq<int>, s: string) {
    match ScanIntegers(s)
    case None => whole.None?
    case Some(p) => whole == Some((out + p.0, p.1))
  }

  lemma IntegersStart(s: string)
    ensures IntegersSoFar(ScanIntegers(s), [], s)
  {
    match ScanIntegers(s)
    case None =>
    case Some(p) => assert [] + p.0 == p.0;
  }

  lemma IntegersStep(whole: Option<(seq<int>, string)>, out: seq<int>, s: string)
    requires IntegersSoFar(whole, out, s)
    ensures ScanInteger(s).None? ==> whole.None?
    ensures ScanInteger(s).Some? && Consume(ScanInteger(s).value.1, ']').Some? ==>
              whole == Some((out + [ScanInteger(s).value.0], Consume(ScanInteger(s).value.1, ']').value))
    ensures ScanInteger(s).Some? && Consume(ScanInteger(s).value.1, ']').None? ==>
              Consume(ScanInteger(s).value.1, ',').None? ==> whole.None?
    ensures ScanInteger(s).Some? && Consume(ScanInteger(s).value.1, ']').None? ==>
              Consume(ScanInteger(s).value.1, ',').Some? ==>
              IntegersSoFar(whole, out + [ScanInteger(s).value.0], Consume(ScanInteger(s).value.1, ',').value)
  {
    if ScanInteger(s).Some? {
      var v := ScanInteger(s).value;
      if Consume(v.1, ']').None? && Consume(v.1, ',').Some? {
        match ScanIntegers(Consume(v.1, ',').value)
        case None =>
        case Some(p) => assert out + ([v.0] + p.0) == out + [v.0] + p.0;
      }
    }
  }

  lemma SpaceBeforeString(s: string)
    ensures ScanString(SkipWs(s)) == ScanString(s)
  {
    SpaceOnce(s);
  }

  lemma SpaceBeforeMembers(s: string)
    ensures SkipMembers(SkipWs(s)) == SkipMembers(s)
  {
    SpaceBeforeString(s);
  }

  lemma SpaceBeforeElements(s: string)
    ensures SkipElements(SkipWs(s)) == SkipElements(s)
  {
    SpaceOnce(s);
    assert SkipValue(SkipWs(s)) == SkipValue(s);
  }
}
