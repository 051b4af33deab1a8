/** Where the fields of a message stand, byte by byte, and what repeated map keys come to. */
module MessageLayout {
  import opened ByteCodec
  import opened Chunks
  import opened LittleEndian
  import opened RolloutMessages

  // ----- numbers

  /** Byte `k` of a number is its digit of weight 256 to the `k`: the lowest comes first. */
  lemma {:induction false} ByteOfLE(v: nat, n: nat, k: nat)
    requires k < n
    ensures LE(v, n)[k] == v / Pow256(k) % 256
  {
    if k > 0 {
      ByteOfLE(v / 256, n - 1, k - 1);
      DivideTwice(v, 256, Pow256(k - 1), Pow256(k), v / 256);
    }
  }

  lemma DivideTwice(v: nat, a: nat, b: nat, product: nat, q: nat)
    requires a > 0 && b > 0 && product == a * b > 0 && q == v / a
    ensures q / b == v / product
  {
    Euclid(v, a);
    Euclid(q, b);
    Euclid(v, product);
    SameQuotient(a, b, product, q / b, q % b, v % a, v / product, v % product);
  }

  lemma Euclid(n: nat, d: nat)
    requires d > 0
    ensures n == n / d * d + n % d && n % d < d
  {
  }

  /** `s` times the product plus `t` times `a` plus `r` has one quotient by the product. */
  lemma SameQuotient(a: nat, b: nat, product: nat, s: nat, t: nat, r: nat, d: nat, m: nat)
    requires product == a * b && t < b && r < a && m < product
    requires (s * b + t) * a + r == d * product + m
    ensures s == d
  {
    InChunk(t, r, b, a);
    assert b * a == product;
    assert (s * b + t) * a == s * product + t * a;
    SameChunk(s, t * a + r, d, m, product);
  }

  /** Signed numbers travel as their remainders modulo 2 to the 32, and come back. */
  lemma TwosComplement(i: I32, u: U32)
    ensures Unsigned(i) == i % 0x1_0000_0000 && Signed(Unsigned(i)) == i
    ensures (Signed(u) - u) % 0x1_0000_0000 == 0 && Unsigned(Signed(u)) == u
  {
  }

  // ----- fields

  lemma PartAt<T>(a: seq<T>, part: seq<T>, rest: seq<T>, begin: nat, end: nat)
    requires begin == |a| && end == |a| + |part|
    ensures (a + part + rest)[begin..end] == part
  {
  }

  lemma HeaderLayout(h: Header)
    ensures var b := HeaderBytes(h);
            && b[0..8] == LE(h.requestId, 8) && b[8..12] == LE(h.n, 4) && b[12..16] == LE(h.maxTokens, 4)
            && b[16..24] == LE(h.temperature, 8) && b[24..32] == LE(h.topP, 8)
            && b[32..36] == LE(h.topK % 0x1_0000_0000, 4) && b[36..44] == LE(h.seed, 8)
            && b[44..48] == LE((if h.returnTokenIds then 1 else 0) + (if h.returnLogprobs then 2 else 0), 4)
  {
    hide LE;
    TwosComplement(h.topK, 0);
  }

  /** A request begins with its header and the model's name behind its length. */
  lemma RequestStart(q: Request)
    ensures var b := RequestBytes(q);
            && |b| >= 52 + |q.model| && b[0..48] == HeaderBytes(q.header)
            && b[48..52] == LE(|q.model| % 0x1_0000_0000, 4) && b[52..52 + |q.model|] == q.model
  {
    hide LE, HeaderBytes, CountedBytes, Parts;
    var header, count := HeaderBytes(q.header), U32Bytes(Truncated(|q.model|));
    var rest := CountedBytes(Parts(q.prompts, StrBytes)) + (CountedBytes(Parts(q.promptTokenIds, IdBytes))
      + (CountedBytes(Parts(q.stop, StrBytes)) + CountedBytes(Parts(q.extraParams, EntryBytes))));
    assert RequestBytes(q) == header + count + (q.model + rest);
    PartAt(header, count, q.model + rest, 48, 52);
    assert RequestBytes(q) == header + count + q.model + rest;
    PartAt(header + count, q.model, rest, 52, 52 + |q.model|);
  }

  /** A response begins with its id and the number of its sequences. */
  lemma ResponseStart(p: Response)
    ensures |ResponseBytes(p)| >= 12 && ResponseBytes(p)[0..8] == LE(p.requestId, 8)
    ensures ResponseBytes(p)[8..12] == LE(|p.sequences| % 0x1_0000_0000, 4)
  {
    hide LE, Gather, Parts;
    var id, size := U64Bytes(p.requestId), U32Bytes(Truncated(|p.sequences|));
    var rest := Gather(Parts(p.sequences, SequenceBytes)) + CountedBytes(Parts(p.metrics, EntryBytes));
    assert ResponseBytes(p) == id + size + rest;
    PartAt(id, size, rest, 8, 12);
  }

  // ----- maps

  ghost predicate Holds(m: seq<Entry>, e: Entry) {
    exists i :: 0 <= i < |m| && m[i] == e
  }

  predicate HasKey(m: seq<Entry>, key: Str) {
    exists i :: 0 <= i < |m| && m[i].0 == key
  }

  lemma {:induction false} LessIsTotal(a: Str, b: Str)
    ensures Less(a, b) || a == b || Less(b, a)
  {
    if a != [] && b != [] && a[0] == b[0] {
      LessIsTotal(a[1..], b[1..]);
      assert a == [a[0]] + a[1..] && b == [b[0]] + b[1..];
    }
  }

  lemma {:induction false} LessIsTransitive(a: Str, b: Str, c: Str)
    requires Less(a, b) && Less(b, c)
    ensures Less(a, c)
  {
    if a != [] && a[0] == b[0] == c[0] { LessIsTransitive(a[1..], b[1..], c[1..]); }
  }

  lemma AscendingCons(e: Entry, m: seq<Entry>)
    requires Ascending(m) && (m != [] ==> Less(e.0, m[0].0))
    ensures Ascending([e] + m)
  {
    forall j | 0 <= j < |m| ensures Less(e.0, m[j].0) {
      if j > 0 { LessIsTransitive(e.0, m[0].0, m[j].0); }
    }
  }

  lemma {:induction false} EmplaceKeeps(m: seq<Entry>, e: Entry, low: Str)
    requires Ascending(m)
    ensures Ascending(Emplace(m, e)) && Emplace(m, e) != []
    ensures Less(low, e.0) && (m != [] ==> Less(low, m[0].0)) ==> Less(low, Emplace(m, e)[0].0)
  {
    if m == [] || Less(e.0, m[0].0) {
      AscendingCons(e, m);
    } else if m[0].0 != e.0 {
      LessIsTotal(e.0, m[0].0);
      assert Ascending(m[1..]);
      EmplaceKeeps(m[1..], e, m[0].0);
      assert m[1..] != [] ==> Less(m[0].0, m[1].0);
      AscendingCons(m[0], Emplace(m[1..], e));
    }
  }

  /** A new entry goes in unless its key is there. */
  lemma {:induction false} EmplaceHolds(m: seq<Entry>, e: Entry, x: Entry)
    requires Ascending(m)
    ensures Holds(Emplace(m, e), x) <==> Holds(m, x) || (x == e && !HasKey(m, e.0))
  {
    if m == [] || Less(e.0, m[0].0) {
      HoldsCons(e, m, x);
      if HasKey(m, e.0) {
        var i :| 0 <= i < |m| && m[i].0 == e.0;
        if i > 0 { LessIsTransitive(e.0, m[0].0, m[i].0); }
        LessIsStrict(e.0, m[i].0);
      }
    } else if m[0].0 != e.0 {
      assert m == [m[0]] + m[1..];
      HoldsCons(m[0], m[1..], x);
      HoldsCons(m[0], Emplace(m[1..], e), x);
      EmplaceHolds(m[1..], e, x);
      KeyCons(m[0], m[1..], e.0);
    } else {
      assert HasKey(m, e.0);
    }
  }

  lemma HoldsCons(e: Entry, m: seq<Entry>, x: Entry)
    ensures Holds([e] + m, x) <==> x == e || Holds(m, x)
  {
    if x == e { assert ([e] + m)[0] == x; }
    if Holds(m, x) {
      var i :| 0 <= i < |m| && m[i] == x;
      assert ([e] + m)[i + 1] == x;
    }
  }

  lemma KeyCons(e: Entry, m: seq<Entry>, key: Str)
    ensures HasKey([e] + m, key) <==> e.0 == key || HasKey(m, key)
  {
    if e.0 == key { assert ([e] + m)[0].0 == key; }
    if HasKey(m, key) {
      var i :| 0 <= i < |m| && m[i].0 == key;
      assert ([e] + m)[i + 1].0 == key;
    }
  }

  /** Entry `j` is the first with its key. */
  predicate FirstOfKey(entries: seq<Entry>, j: nat) {
    j < |entries| && forall i | 0 <= i < j :: entries[i].0 != entries[j].0
  }

  /** A map read from a list is ascending and holds, for every key in the list, its first value. */
  lemma {:induction false} FirstValueWins(m: seq<Entry>, entries: seq<Entry>, x: Entry)
    requires Ascending(m)
    ensures Ascending(EmplaceAll(m, entries))
    ensures Holds(EmplaceAll(m, entries), x) <==>
              || Holds(m, x)
              || (!HasKey(m, x.0) && exists j: nat :: FirstOfKey(entries, j) && entries[j] == x)
    decreases |entries|
  {
    if entries != [] {
      var e, rest := entries[0], entries[1..];
      EmplaceKeeps(m, e, []);
      FirstValueWins(Emplace(m, e), rest, x);
      EmplaceHolds(m, e, x);
      EmplaceKeys(m, e, x.0);
      if j: nat :| FirstOfKey(entries, j) && entries[j] == x {
        if j > 0 { assert FirstOfKey(rest, j - 1) && rest[j - 1] == x; }
      }
      if j: nat :| FirstOfKey(rest, j) && rest[j] == x {
        if e.0 != x.0 { FirstBehind(e, rest, j); }
      }
      if e == x { assert FirstOfKey(entries, 0); }
    }
  }

  lemma FirstBehind(e: Entry, rest: seq<Entry>, j: nat)
    requires FirstOfKey(rest, j) && rest[j].0 != e.0
    ensures FirstOfKey([e] + rest, j + 1) && ([e] + rest)[j + 1] == rest[j]
  {
    forall i | 0 <= i < j + 1 ensures ([e] + rest)[i].0 != rest[j].0 {
      if i > 0 { assert ([e] + rest)[i] == rest[i - 1]; }
    }
  }

  lemma {:induction false} EmplaceKeys(m: seq<Entry>, e: Entry, key: Str)
    requires Ascending(m)
    ensures HasKey(Emplace(m, e), key) <==> HasKey(m, key) || key == e.0
  {
    if m == [] || Less(e.0, m[0].0) {
      KeyCons(e, m, key);
    } else if m[0].0 != e.0 {
      assert m == [m[0]] + m[1..];
      KeyCons(m[0], m[1..], key);
      KeyCons(m[0], Emplace(m[1..], e), key);
      EmplaceKeys(m[1..], e, key);
    } else {
      assert HasKey(m, e.0);
    }
  }
}
