/** Causal attention over blocks of keys and values. */
module StreamingAttention {
  import opened Results
  import opened Sequences
  import opened Sums
  import Vectors

  type Row = seq<real>

  datatype Tensor = Tensor(rows: seq<Row>, width: nat) {
    predicate Valid() {
      forall i | 0 <= i < |rows| :: |rows[i]| == width
    }
  }

  /** A score that may be minus infinity. */
  datatype Extended = NegInf | Finite(value: real)

  // ----- the exponential: only the laws the algorithm relies on

  predicate AddLaw(exp: real -> real, a: real, b: real) {
    exp(a + b) == exp(a) * exp(b)
  }

  predicate Positive(exp: real -> real, a: real) {
    exp(a) > 0.0
  }

  ghost predicate IsExp(exp: real -> real) {
    && exp(0.0) == 1.0
    && (forall a, b :: AddLaw(exp, a, b))
    && (forall a :: Positive(exp, a))
  }

  // ----- one row of the loop body

  /** Running maximum, normaliser and weighted sum of one query row. */
  datatype RowState = RowState(max: Extended, sum: real, acc: Row)

  function ExtendedMax(a: Extended, b: Extended): Extended {
    if a.NegInf? then b else if b.NegInf? then a else if a.value >= b.value then a else b
  }

  /** The maximum of a block's scores after masking the future with minus infinity. */
  function MaskedMax(scores: seq<real>, begin: int, queryPos: int): Extended {
    if scores == [] then NegInf
    else
      var n := |scores| - 1;
      ExtendedMax(MaskedMax(scores[..n], begin, queryPos), if begin + n <= queryPos then Finite(scores[n]) else NegInf)
  }

  function ExpScore(exp: real -> real, score: real, pos: int, queryPos: int, max: real): real {
    if pos <= queryPos then exp(score - max) else 0.0
  }

  function BlockWeight(exp: real -> real, scores: seq<real>, begin: int, queryPos: int, max: real): nat -> real {
    (j: nat) => if j < |scores| then ExpScore(exp, scores[j], begin + j, queryPos, max) else 0.0
  }

  function BlockValue(exp: real -> real, scores: seq<real>, begin: int, queryPos: int, max: real, values: seq<Row>,
                      c: nat): nat -> real
    requires |scores| == |values| && forall i | 0 <= i < |values| :: c < |values[i]|
  {
    (j: nat) => if j < |scores| then ExpScore(exp, scores[j], begin + j, queryPos, max) * values[j][c] else 0.0
  }

  function NextMax(st: RowState, queryPos: int, scores: seq<real>, begin: int): Extended {
    ExtendedMax(st.max, MaskedMax(scores, begin, queryPos))
  }

  function NextSum(exp: real -> real, st: RowState, queryPos: int, scores: seq<real>, begin: int, safeMax: real): real {
    st.sum * OldScale(exp, st, safeMax) + SumTo(|scores|, BlockWeight(exp, scores, begin, queryPos, safeMax))
  }

  function NextColumn(exp: real -> real, st: RowState, queryPos: int, scores: seq<real>, begin: int, values: seq<Row>,
                      safeMax: real, c: nat): real
    requires |scores| == |values| && (forall i | 0 <= i < |values| :: |values[i]| == |st.acc|) && c < |st.acc|
  {
    st.acc[c] * OldScale(exp, st, safeMax) + SumTo(|scores|,
      BlockValue(exp, scores, begin, queryPos, safeMax, values, c))
  }

  function UpdateRow(exp: real -> real, st: RowState, queryPos: int, scores: seq<real>, begin: int,
                     values: seq<Row>): (st': RowState)
    requires |scores| == |values| && forall i | 0 <= i < |values| :: |values[i]| == |st.acc|
    ensures |st'.acc| == |st.acc|
  {
    var nextMax := NextMax(st, queryPos, scores, begin);
    var safeMax := Reference(nextMax);
    RowState(
      nextMax,
      NextSum(exp, st, queryPos, scores, begin, safeMax),
      seq(|st.acc|, c requires 0 <= c < |st.acc| => NextColumn(exp, st, queryPos, scores, begin, values, safeMax, c)))
  }

  function OldScale(exp: real -> real, st: RowState, safeMax: real): real {
    if st.max.Finite? then exp(st.max.value - safeMax) else 0.0
  }

  // ----- what a row state stands for

  /** A list of seen keys whose maximum is `max`, which is minus infinity exactly when it is empty. */
  ghost predicate IsMax(max: Extended, seen: seq<nat>, score: nat -> real) {
    if seen == [] then max == NegInf
    else
      && max.Finite?
      && (exists i | 0 <= i < |seen| :: score(seen[i]) == max.value)
      && (forall i | 0 <= i < |seen| :: score(seen[i]) <= max.value)
  }

  /** The maximum the weights are taken relative to. */
  function Reference(max: Extended): real {
    if max.Finite? then max.value else 0.0
  }

  /** The keys seen so far are listed by position; `score` and `value` say what stands at a position. */
  ghost predicate Represents(exp: real -> real, st: RowState, seen: seq<nat>, score: nat -> real,
                             value: (nat, nat) -> real) {
    && IsMax(st.max, seen, score)
    && st.sum == SumOver(seen, Weight(exp, score, Reference(st.max)))
    && forall c: nat | c < |st.acc| :: Accumulated(exp, st, seen, score, value, Reference(st.max), c)
  }

  predicate Accumulated(exp: real -> real, st: RowState, seen: seq<nat>, score: nat -> real, value: (nat, nat) -> real,
                        max: real, c: nat)
    requires c < |st.acc|
  {
    st.acc[c] == SumOver(seen, WeightedValue(exp, score, max, value, c))
  }

  function Weight(exp: real -> real, score: nat -> real, max: real): nat -> real {
    (k: nat) => exp(score(k) - max)
  }

  function WeightedValue(exp: real -> real, score: nat -> real, max: real, value: (nat, nat) -> real,
                         c: nat): nat -> real {
    (k: nat) => exp(score(k) - max) * value(k, c)
  }

  /** The positions of a block's first `n` keys that the query may see. */
  function Visible(begin: nat, n: nat, queryPos: int): seq<nat> {
    if n == 0 then []
    else Visible(begin, n - 1, queryPos) + (if begin + n - 1 <= queryPos then [begin + n - 1] else [])
  }

  lemma MaxOfConcat(a: Extended, s: seq<nat>, b: Extended, t: seq<nat>, score: nat -> real)
    requires IsMax(a, s, score) && IsMax(b, t, score)
    ensures IsMax(ExtendedMax(a, b), s + t, score)
  {
    if s != [] && t != [] {
      var i :| 0 <= i < |s| && score(s[i]) == a.value;
      var j :| 0 <= j < |t| && score(t[j]) == b.value;
      assert (s + t)[i] == s[i] && (s + t)[|s| + j] == t[j];
    } else if t == [] {
      assert s + t == s;
    } else {
      assert s + t == t;
    }
  }

  lemma {:induction false} MaskedMaxIsMax(scores: seq<real>, begin: nat, queryPos: int, score: nat -> real)
    requires forall j: nat | j < |scores| :: scores[j] == score(begin + j)
    ensures IsMax(MaskedMax(scores, begin, queryPos), Visible(begin, |scores|, queryPos), score)
  {
    if scores != [] {
      var n := |scores| - 1;
      MaskedMaxIsMax(scores[..n], begin, queryPos, score);
      var last, tail := if begin + n <= queryPos then Finite(scores[n])
        else NegInf, if begin + n <= queryPos then [begin + n] else [];
      assert IsMax(last, tail, score) by { if tail != [] { assert score(tail[0]) == last.value; } }
      MaxOfConcat(MaskedMax(scores[..n], begin, queryPos), Visible(begin, n, queryPos), last, tail, score);
    }
  }

  /** Summing a block column by column with zeros for the masked keys is summing over the visible ones. */
  lemma {:induction false} BlockSum(begin: nat, n: nat, queryPos: int, f: nat -> real, masked: nat -> real)
    requires forall j: nat | j < n :: masked(j) == if begin + j <= queryPos then f(begin + j) else 0.0
    ensures SumTo(n, masked) == SumOver(Visible(begin, n, queryPos), f)
  {
    if n > 0 {
      BlockSum(begin, n - 1, queryPos, f, masked);
      var v := Visible(begin, n, queryPos);
      if begin + n - 1 <= queryPos {
        assert v[..|v| - 1] == Visible(begin, n - 1, queryPos);
      } else {
        assert v == Visible(begin, n - 1, queryPos);
      }
    }
  }

  /** Moving the reference maximum rescales every weight by the same factor. */
  lemma WeightScales(exp: real -> real, score: nat -> real, from: real, to: real, k: nat)
    requires IsExp(exp)
    ensures Weight(exp, score, to)(k) == exp(from - to) * Weight(exp, score, from)(k)
  {
    assert AddLaw(exp, from - to, score(k) - from);
    assert (from - to) + (score(k) - from) == score(k) - to;
  }

  lemma RescaleWeights(exp: real -> real, seen: seq<nat>, score: nat -> real, from: real, to: real)
    requires IsExp(exp)
    ensures SumOver(seen, Weight(exp, score, to)) == exp(from - to) * SumOver(seen, Weight(exp, score, from))
  {
    var f, h := Weight(exp, score, from), Weight(exp, score, to);
    forall i | 0 <= i < |seen|
      ensures h(seen[i]) == exp(from - to) * f(seen[i])
    {
      WeightScales(exp, score, from, to, seen[i]);
    }
    SumOverScale(seen, exp(from - to), f, h);
  }

  lemma WeightedValueScales(exp: real -> real, score: nat -> real, from: real, to: real, value: (nat, nat) -> real,
                            c: nat, k: nat)
    requires IsExp(exp)
    ensures WeightedValue(exp, score, to, value, c)(k) == exp(from - to) * WeightedValue(exp, score, from, value, c)(k)
  {
    WeightScales(exp, score, from, to, k);
    Associate(exp(from - to), exp(score(k) - from), value(k, c));
  }

  lemma RescaleValues(exp: real -> real, seen: seq<nat>, score: nat -> real, from: real, to: real,
                      value: (nat, nat) -> real, c: nat)
    requires IsExp(exp)
    ensures SumOver(seen, WeightedValue(exp, score, to, value, c))
        == exp(from - to) * SumOver(seen, WeightedValue(exp, score, from, value, c))
  {
    var f, h := WeightedValue(exp, score, from, value, c), WeightedValue(exp, score, to, value, c);
    forall i | 0 <= i < |seen| ensures h(seen[i]) == exp(from - to) * f(seen[i]) {
      WeightedValueScales(exp, score, from, to, value, c, seen[i]);
    }
    SumOverScale(seen, exp(from - to), f, h);
  }

  lemma Associate(a: real, b: real, c: real)
    ensures (a * b) * c == a * (b * c)
  {
  }

  /** The old part of a row after rescaling, whether or not anything had been seen. */
  lemma OldPart(exp: real -> real, st: RowState, seen: seq<nat>, score: nat -> real, value: (nat, nat) -> real,
                next: real)
    requires IsExp(exp) && Represents(exp, st, seen, score, value)
    ensures st.sum * OldScale(exp, st, next) == SumOver(seen, Weight(exp, score, next))
  {
    if seen != [] { RescaleWeights(exp, seen, score, st.max.value, next); }
  }

  lemma OldColumn(exp: real -> real, st: RowState, seen: seq<nat>, score: nat -> real, value: (nat, nat) -> real,
                  next: real, c: nat)
    requires IsExp(exp) && Represents(exp, st, seen, score, value) && c < |st.acc|
    ensures st.acc[c] * OldScale(exp, st, next) == SumOver(seen, WeightedValue(exp, score, next, value, c))
  {
    assert Accumulated(exp, st, seen, score, value, Reference(st.max), c);
    if seen != [] { RescaleValues(exp, seen, score, st.max.value, next, value, c); }
  }

  predicate BlockMatches(scores: seq<real>, begin: nat, values: seq<Row>, width: nat, score: nat -> real,
                         value: (nat, nat) -> real) {
    && |scores| == |values|
    && (forall j: nat | j < |scores| :: scores[j] == score(begin + j))
    && (forall j: nat | j < |scores| :: |values[j]| == width)
    && (forall j: nat, c: nat | j < |scores| && c < width :: values[j][c] == value(begin + j, c))
  }

  lemma NewPart(exp: real -> real, score: nat -> real, value: (nat, nat) -> real,
                queryPos: int, scores: seq<real>, begin: nat, values: seq<Row>, width: nat, next: real)
    requires BlockMatches(scores, begin, values, width, score, value)
    ensures SumTo(|scores|, BlockWeight(exp, scores, begin, queryPos, next))
        == SumOver(Visible(begin, |scores|, queryPos), Weight(exp, score, next))
  {
    BlockSum(begin, |scores|, queryPos, Weight(exp, score, next), BlockWeight(exp, scores, begin, queryPos, next));
  }

  lemma NewPartColumn(exp: real -> real, score: nat -> real, value: (nat, nat) -> real,
                      queryPos: int, scores: seq<real>, begin: nat, values: seq<Row>, width: nat, next: real, c: nat)
    requires BlockMatches(scores, begin, values, width, score, value) && c < width
    ensures SumTo(|scores|, BlockValue(exp, scores, begin, queryPos, next, values, c))
         == SumOver(Visible(begin, |scores|, queryPos), WeightedValue(exp, score, next, value, c))
  {
    BlockSum(begin, |scores|, queryPos, WeightedValue(exp, score, next, value, c),
      BlockValue(exp, scores, begin, queryPos, next, values, c));
  }

  lemma NewSum(exp: real -> real, st: RowState, seen: seq<nat>, score: nat -> real, value: (nat, nat) -> real,
               queryPos: int, scores: seq<real>, begin: nat, values: seq<Row>, next: real)
    requires IsExp(exp) && Represents(exp, st, seen, score, value)
    requires BlockMatches(scores, begin, values, |st.acc|, score, value)
    ensures NextSum(exp, st, queryPos, scores, begin, next)
         == SumOver(seen + Visible(begin, |scores|, queryPos), Weight(exp, score, next))
  {
    var w, visible := Weight(exp, score, next), Visible(begin, |scores|, queryPos);
    assert st.sum * OldScale(exp, st, next) == SumOver(seen, w) by {
      OldPart(exp, st, seen, score, value, next);
    }
    assert SumTo(|scores|, BlockWeight(exp, scores, begin, queryPos, next)) == SumOver(visible, w) by {
      NewPart(exp, score, value, queryPos, scores, begin, values, |st.acc|, next);
    }
    SumOverConcat(seen, visible, w);
  }

  lemma NewColumn(exp: real -> real, st: RowState, seen: seq<nat>, score: nat -> real, value: (nat, nat) -> real,
                  queryPos: int, scores: seq<real>, begin: nat, values: seq<Row>, next: real, c: nat)
    requires IsExp(exp) && Represents(exp, st, seen, score, value) && c < |st.acc|
    requires BlockMatches(scores, begin, values, |st.acc|, score, value)
    ensures NextColumn(exp, st, queryPos, scores, begin, values, next, c)
         == SumOver(seen + Visible(begin, |scores|, queryPos), WeightedValue(exp, score, next, value, c))
  {
    var w, visible := WeightedValue(exp, score, next, value, c), Visible(begin, |scores|, queryPos);
    assert st.acc[c] * OldScale(exp, st, next) == SumOver(seen, w) by {
      OldColumn(exp, st, seen, score, value, next, c);
    }
    assert SumTo(|scores|, BlockValue(exp, scores, begin, queryPos, next, values, c)) == SumOver(visible, w) by {
      NewPartColumn(exp, score, value, queryPos, scores, begin, values, |st.acc|, next, c);
    }
    SumOverConcat(seen, visible, w);
  }

  lemma MaxExtends(st: RowState, seen: seq<nat>, score: nat -> real, queryPos: int, scores: seq<real>, begin: nat)
    requires IsMax(st.max, seen, score) && forall j: nat | j < |scores| :: scores[j] == score(begin + j)
    ensures IsMax(NextMax(st, queryPos, scores, begin), seen + Visible(begin, |scores|, queryPos), score)
  {
    MaskedMaxIsMax(scores, begin, queryPos, score);
    MaxOfConcat(st.max, seen, MaskedMax(scores, begin, queryPos), Visible(begin, |scores|, queryPos), score);
  }

  /** One block: the row state comes to stand for the keys seen before and the block's visible keys. */
  lemma UpdateRowExtends(exp: real -> real, st: RowState, seen: seq<nat>, score: nat -> real, value: (nat, nat) -> real,
                         queryPos: int, scores: seq<real>, begin: nat, values: seq<Row>)
    requires IsExp(exp) && Represents(exp, st, seen, score, value)
    requires BlockMatches(scores, begin, values, |st.acc|, score, value)
    ensures Represents(exp, UpdateRow(exp, st, queryPos, scores, begin, values), seen
        + Visible(begin, |scores|, queryPos), score, value)
  {
    var next := Reference(NextMax(st, queryPos, scores, begin));
    MaxExtends(st, seen, score, queryPos, scores, begin);
    NewSum(exp, st, seen, score, value, queryPos, scores, begin, values, next);
    forall c: nat | c < |st.acc|
      ensures NextColumn(exp, st, queryPos, scores, begin, values, next, c)
           == SumOver(seen + Visible(begin, |scores|, queryPos), WeightedValue(exp, score, next, value, c))
    {
      NewColumn(exp, st, seen, score, value, queryPos, scores, begin, values, next, c);
    }
  }

  // ----- the loop over blocks

  datatype Block = Block(keys: Tensor, values: Tensor, begin: int)

  function Scores(q: Row, keys: seq<Row>, scale: real): (s: seq<real>)
    requires forall i | 0 <= i < |keys| :: |keys[i]| == |q|
    ensures |s| == |keys|
  {
    seq(|keys|, i requires 0 <= i < |keys| => Dot(q, keys[i]) * scale)
  }

  /** Scores are the scaled products with each key: reading a query or a key entry by entry, the first
      included, additive in the query, and with one more coordinate adding exactly its product. */
  lemma ScoresAreProducts(q: Row, keys: seq<Row>, scale: real, j: nat, i: nat)
    requires (forall k | 0 <= k < |keys| :: |keys[k]| == |q|) && j < |keys| && i < |q|
    ensures Scores(Vectors.Unit(|q|, i), keys, scale)[j] == keys[j][i] * scale
    ensures keys[j] == Vectors.Unit(|q|, i) ==> Scores(q, keys, scale)[j] == q[i] * scale
  {
    Vectors.DotUnit(keys[j], i);
    Vectors.DotUnit(q, i);
  }

  lemma ScoresAdd(q: Row, q': Row, keys: seq<Row>, scale: real, j: nat, factor: real)
    requires (forall k | 0 <= k < |keys| :: |keys[k]| == |q|) && |q| == |q'| && j < |keys|
    ensures Scores(Vectors.Add(q, q'), keys, scale)[j] == Scores(q, keys, scale)[j] + Scores(q', keys, scale)[j]
    ensures Scores(Vectors.Scale(q, factor), keys, scale)[j] == factor * Scores(q, keys, scale)[j]
  {
    Vectors.DotAdd(keys[j], q, q');
    Vectors.DotScale(keys[j], q, factor);
  }

  /** Keys of a block that lie inside the unpadded sequence. */
  function ValidKeys(b: Block, originalLength: int): (n: nat)
    ensures n <= |b.keys.rows|
  {
    Clamp(originalLength - b.begin, 0, |b.keys.rows|)
  }

  /** The checks the loop makes of a block. */
  predicate BlockShapeOk(b: Block, keyWidth: nat, valueWidth: nat) {
    && |b.keys.rows| == |b.values.rows|
    && b.keys.width == keyWidth
    && b.values.width == valueWidth
    && b.begin >= 0
  }

  function EmptyRow(width: nat): RowState {
    RowState(NegInf, 0.0, seq(width, _ => 0.0))
  }

  function AbsorbBlock(exp: real -> real, st: RowState, q: Row, queryPos: int, b: Block, originalLength: int,
                       scale: real): (st': RowState)
    requires b.keys.Valid() && b.values.Valid() && BlockShapeOk(b, |q|, |st.acc|)
    ensures |st'.acc| == |st.acc|
  {
    var n := ValidKeys(b, originalLength);
    if n == 0 then st
    else UpdateRow(exp, st, queryPos, Scores(q, b.keys.rows[..n], scale), b.begin, b.values.rows[..n])
  }

  predicate BlocksOk(blocks: seq<Block>, keyWidth: nat, valueWidth: nat) {
    forall i | 0 <= i < |blocks| ::
      blocks[i].keys.Valid() && blocks[i].values.Valid() && BlockShapeOk(blocks[i], keyWidth, valueWidth)
  }

  /** One query row after the first `n` blocks. */
  function RowAfter(exp: real -> real, q: Row, queryPos: int, blocks: seq<Block>, n: nat, originalLength: int,
                    scale: real, width: nat): (st: RowState)
    requires n <= |blocks| && BlocksOk(blocks[..n], |q|, width)
    ensures |st.acc| == width
  {
    if n == 0 then EmptyRow(width)
    else
      assert blocks[..n][..n - 1] == blocks[..n - 1];
      assert blocks[..n][n - 1] == blocks[n - 1];
      AbsorbBlock(exp, RowAfter(exp, q, queryPos, blocks, n - 1, originalLength, scale, width), q, queryPos,
        blocks[n - 1], originalLength, scale)
  }

  /** Division by the normaliser, clamped from below at 1e-20. */
  function Normalise(st: RowState): (out: Row)
    ensures |out| == |st.acc|
  {
    var denominator := if st.sum < 0.00000000000000000001 then 0.00000000000000000001 else st.sum;
    seq(|st.acc|, c requires 0 <= c < |st.acc| => st.acc[c] / denominator)
  }

  function OutputRow(exp: real -> real, query: Tensor, r: nat, blocks: seq<Block>, queryBegin: int,
                     originalLength: int, scale: real, width: nat): Row
    requires query.Valid() && r < |query.rows|
    requires r < Clamp(originalLength - queryBegin, 0, |query.rows|) ==> BlocksOk(blocks, query.width, width)
  {
    if r < Clamp(originalLength - queryBegin, 0, |query.rows|) then
      assert blocks[..|blocks|] == blocks;
      Normalise(RowAfter(exp, query.rows[r], queryBegin + r, blocks, |blocks|, originalLength, scale, width))
    else seq(width, _ => 0.0)
  }

  /** The loop body on all query rows at once. */
  function AbsorbRows(exp: real -> real, states: seq<RowState>, query: Tensor, queryBegin: int, b: Block,
                      originalLength: int, scale: real, width: nat)
    : (next: seq<RowState>)
    requires query.Valid() && |states| <= |query.rows| && b.keys.Valid() && b.values.Valid()
    requires BlockShapeOk(b, query.width, width)
    requires forall r | 0 <= r < |states| :: |states[r].acc| == width
    ensures |next| == |states|
    ensures forall r: nat | r < |states| ::
        next[r] == AbsorbBlock(exp, states[r], query.rows[r], queryBegin + r, b, originalLength, scale)
  {
    seq(|states|, r requires 0 <= r < |states| =>
      AbsorbBlock(exp, states[r], query.rows[r], queryBegin + r, b, originalLength, scale))
  }

  /** The streaming loop. Padded query rows stay zero; every other row folds the blocks in list order. */
  method StreamingBlocks(exp: real -> real, query: Tensor, blocks: seq<Block>, queryBegin: int, originalLength: int,
                         scale: real)
    returns (r: Result<Tensor>)
    requires query.Valid() && forall i | 0 <= i < |blocks| :: blocks[i].keys.Valid() && blocks[i].values.Valid()
    ensures var validQuery := Clamp(originalLength - queryBegin, 0, |query.rows|);
            r.Ok? <==>
              && queryBegin >= 0 && originalLength >= 0 && blocks != []
              && (validQuery > 0 ==> BlocksOk(blocks, query.width, blocks[0].values.width))
    ensures r.Ok? ==>
              && r.value.Valid() && r.value.width == blocks[0].values.width && |r.value.rows| == |query.rows|
              && forall i: nat | i < |query.rows| ::
                   r.value.rows[i] == OutputRow(exp, query, i, blocks, queryBegin, originalLength, scale, r.value.width)
  {
    if queryBegin < 0 || originalLength < 0 {
      return Err("query_begin and original_sequence_length must be non-negative");
    }
    if blocks == [] {
      return Err("streaming CP attention requires at least one KV block");
    }
    var width := blocks[0].values.width;
    var validQuery := Clamp(originalLength - queryBegin, 0, |query.rows|);
    var out := seq(|query.rows|, _ => seq(width, _ => 0.0));
    if validQuery == 0 {
      return Ok(Tensor(out, width));
    }
    var states := seq(validQuery, _ => EmptyRow(width));
    var i := 0;
    while i < |blocks|
      invariant i <= |blocks| && |states| == validQuery
      invariant BlocksOk(blocks[..i], query.width, width)
      invariant forall r: nat | r < validQuery ::
                  states[r] == RowAfter(exp, query.rows[r], queryBegin + r, blocks, i, originalLength, scale, width)
    {
      if !BlockShapeOk(blocks[i], query.width, width) {
        assert !BlocksOk(blocks, query.width, width);
        return Err("streaming CP attention block shape mismatch");
      }
      assert blocks[..i + 1] == blocks[..i] + [blocks[i]];
      assert BlocksOk(blocks[..i + 1], query.width, width);
      states := AbsorbRows(exp, states, query, queryBegin, blocks[i], originalLength, scale, width);
      i := i + 1;
    }
    assert blocks[..|blocks|] == blocks;
    out := seq(|query.rows|, r requires 0 <= r < |query.rows| && |states| == validQuery =>
      if r < validQuery then Normalise(states[r]) else seq(width, _ => 0.0));
    return Ok(Tensor(out, width));
  }

  // ----- the exact softmax

  /** sum over k < n of exp(score(k)) * value(k, c), divided by the sum of exp(score(k)). */
  function SoftmaxAverage(exp: real -> real, n: nat, score: nat -> real, value: (nat, nat) -> real, c: nat): real
    requires SumTo(n, Weight(exp, score, 0.0)) != 0.0
  {
    SumTo(n, WeightedValue(exp, score, 0.0, value, c)) / SumTo(n, Weight(exp, score, 0.0))
  }

  lemma {:induction false} WeightsArePositive(exp: real -> real, ps: seq<nat>, score: nat -> real, max: real)
    requires IsExp(exp)
    ensures SumOver(ps, Weight(exp, score, max)) >= 0.0
    ensures forall i | 0 <= i < |ps| :: SumOver(ps, Weight(exp, score, max)) >= exp(score(ps[i]) - max)
  {
    if ps != [] {
      WeightsArePositive(exp, ps[..|ps| - 1], score, max);
      assert Positive(exp, score(ps[|ps| - 1]) - max);
      forall i | 0 <= i < |ps| ensures SumOver(ps, Weight(exp, score, max)) >= exp(score(ps[i]) - max) {
        if i < |ps| - 1 { assert ps[..|ps| - 1][i] == ps[i]; }
      }
    }
  }

  /** Once a key has been seen the normaliser is at least 1, so its clamp never acts. */
  lemma NormaliserAtLeastOne(exp: real -> real, st: RowState, seen: seq<nat>, score: nat -> real,
                             value: (nat, nat) -> real)
    requires IsExp(exp) && Represents(exp, st, seen, score, value) && seen != []
    ensures st.sum >= 1.0
  {
    var i :| 0 <= i < |seen| && score(seen[i]) == st.max.value;
    WeightsArePositive(exp, seen, score, st.max.value);
    assert exp(score(seen[i]) - st.max.value) == 1.0;
  }

  lemma CancelFactor(x: real, y: real, f: real, a: real, b: real)
    requires f > 0.0 && b > 0.0 && x == f * a && y == f * b
    ensures y > 0.0 && x / y == a / b
  {
  }

  lemma NormaliseDivides(st: RowState, c: nat)
    requires st.sum >= 1.0 && c < |st.acc|
    ensures Normalise(st)[c] == st.acc[c] / st.sum
  {
  }

  /** Sums over the keys seen, relative to 0, are the plain sums over 0..n. */
  lemma SeenSums(exp: real -> real, seen: seq<nat>, score: nat -> real, value: (nat, nat) -> real, n: nat, c: nat)
    requires IsExp(exp) && n > 0 && EachOnce(seen, n)
    ensures seen != []
    ensures SumOver(seen, Weight(exp, score, 0.0)) == SumTo(n, Weight(exp, score, 0.0)) > 0.0
    ensures SumOver(seen, WeightedValue(exp, score, 0.0, value, c))
        == SumTo(n, WeightedValue(exp, score, 0.0, value, c))
  {
    assert Count(seen, 0) == 1;
    SumOverEachOnce(seen, n, Weight(exp, score, 0.0));
    SumOverEachOnce(seen, n, WeightedValue(exp, score, 0.0, value, c));
    WeightsArePositive(exp, seen, score, 0.0);
    assert Positive(exp, score(seen[0]) - 0.0);
  }

  /** Numerator and denominator are the sums relative to 0 times one common factor. */
  lemma CommonFactor(exp: real -> real, st: RowState, seen: seq<nat>, score: nat -> real, value: (nat, nat) -> real,
                     c: nat) returns (f: real)
    requires IsExp(exp) && Represents(exp, st, seen, score, value) && c < |st.acc|
    ensures f > 0.0
    ensures st.sum == f * SumOver(seen, Weight(exp, score, 0.0))
    ensures st.acc[c] == f * SumOver(seen, WeightedValue(exp, score, 0.0, value, c))
  {
    var m := Reference(st.max);
    f := exp(0.0 - m);
    assert Positive(exp, 0.0 - m);
    assert Accumulated(exp, st, seen, score, value, m, c);
    RescaleWeights(exp, seen, score, 0.0, m);
    RescaleValues(exp, seen, score, 0.0, m, value, c);
  }

  lemma RowQuotient(exp: real -> real, st: RowState, seen: seq<nat>, score: nat -> real, value: (nat, nat) -> real,
                    n: nat, c: nat)
    requires IsExp(exp) && Represents(exp, st, seen, score, value) && n > 0 && c < |st.acc| && st.sum >= 1.0
    requires EachOnce(seen, n)
    ensures SumTo(n, Weight(exp, score, 0.0)) > 0.0
    ensures st.acc[c] / st.sum == SoftmaxAverage(exp, n, score, value, c)
  {
    var f, a, b := RangeFactor(exp, st, seen, score, value, n, c);
    CancelFactor(st.acc[c], st.sum, f, a, b);
  }

  lemma RangeFactor(exp: real -> real, st: RowState, seen: seq<nat>, score: nat -> real, value: (nat, nat) -> real,
                    n: nat, c: nat)
    returns (f: real, a: real, b: real)
    requires IsExp(exp) && Represents(exp, st, seen, score, value) && n > 0 && c < |st.acc|
    requires EachOnce(seen, n)
    ensures a == SumTo(n, WeightedValue(exp, score, 0.0, value, c)) && b == SumTo(n, Weight(exp, score, 0.0))
    ensures f > 0.0 && b > 0.0 && st.sum == f * b && st.acc[c] == f * a
  {
    f := CommonFactor(exp, st, seen, score, value, c);
    SeenSums(exp, seen, score, value, n, c);
    a, b := SumTo(n, WeightedValue(exp, score, 0.0, value, c)), SumTo(n, Weight(exp, score, 0.0));
  }

  /** A row state that stands for the keys 0..n in any order normalises to their softmax average. */
  lemma NormalisedRow(exp: real -> real, st: RowState, seen: seq<nat>, score: nat -> real, value: (nat, nat) -> real,
                      n: nat, c: nat)
    requires IsExp(exp) && Represents(exp, st, seen, score, value) && n > 0 && c < |st.acc|
    requires EachOnce(seen, n)
    ensures SumTo(n, Weight(exp, score, 0.0)) > 0.0
    ensures Normalise(st)[c] == SoftmaxAverage(exp, n, score, value, c)
  {
    assert st.sum >= 1.0 && Normalise(st)[c] == st.acc[c] / st.sum by {
      SeenSums(exp, seen, score, value, n, c);
      NormaliserAtLeastOne(exp, st, seen, score, value);
      NormaliseDivides(st, c);
    }
    RowQuotient(exp, st, seen, score, value, n, c);
  }

  // ----- blocks that tile a sequence, in any order

  /** The key positions of the first `n` blocks that a query at `queryPos` sees. */
  function SeenAfter(blocks: seq<Block>, n: nat, originalLength: int, queryPos: int): seq<nat>
    requires n <= |blocks| && forall i | 0 <= i < |blocks| :: blocks[i].begin >= 0
  {
    if n == 0 then []
    else SeenAfter(blocks, n - 1, originalLength, queryPos)
         + Visible(blocks[n - 1].begin, ValidKeys(blocks[n - 1], originalLength), queryPos)
  }

  /** Together the blocks hold every position below the sequence length exactly once. */
  ghost predicate Tile(blocks: seq<Block>, originalLength: nat) {
    && (forall i | 0 <= i < |blocks| :: blocks[i].begin >= 0)
    && EachOnce(SeenAfter(blocks, |blocks|, originalLength, originalLength), originalLength)
  }

  /** Row `j` of a block is the row of the whole sequence at its position. */
  ghost predicate RowCut(b: Block, j: nat, keys: Tensor, values: Tensor) {
    && 0 <= b.begin && j < |b.keys.rows| && j < |b.values.rows| && b.begin + j < |keys.rows|
      && b.begin + j < |values.rows|
    && b.keys.rows[j] == keys.rows[b.begin + j]
    && b.values.rows[j] == values.rows[b.begin + j]
  }

  ghost predicate CutFrom(blocks: seq<Block>, keys: Tensor, values: Tensor) {
    && |keys.rows| == |values.rows|
    && forall i, j: nat | 0 <= i < |blocks| && j < ValidKeys(blocks[i], |keys.rows|) ::
      RowCut(blocks[i], j, keys, values)
  }

  /** The score of a query row against the whole sequence; 0 outside it. */
  function ScoreOf(q: Row, keys: Tensor, scale: real): nat -> real
    requires keys.Valid() && keys.width == |q|
  {
    (k: nat) => if k < |keys.rows| then Dot(q, keys.rows[k]) * scale else 0.0
  }

  function ValueOf(values: Tensor): (nat, nat) -> real
    requires values.Valid()
  {
    (k: nat, c: nat) => if k < |values.rows| && c < values.width then values.rows[k][c] else 0.0
  }

  lemma EmptyRepresents(exp: real -> real, width: nat, score: nat -> real, value: (nat, nat) -> real)
    ensures Represents(exp, EmptyRow(width), [], score, value)
  {
  }

  lemma {:induction false} RowAfterRepresents(exp: real -> real, q: Row, queryPos: int, blocks: seq<Block>, n: nat,
                                              keys: Tensor, values: Tensor, scale: real)
    requires IsExp(exp) && keys.Valid() && values.Valid() && keys.width == |q|
    requires n <= |blocks| && BlocksOk(blocks, |q|, values.width) && CutFrom(blocks, keys, values)
    requires BlocksOk(blocks[..n], |q|, values.width)
    ensures Represents(exp, RowAfter(exp, q, queryPos, blocks, n, |keys.rows|, scale, values.width),
                       SeenAfter(blocks, n, |keys.rows|, queryPos), ScoreOf(q, keys, scale), ValueOf(values))
  {
    hide Represents, ScoreOf, ValueOf, IsExp;
    if n == 0 {
      EmptyRepresents(exp, values.width, ScoreOf(q, keys, scale), ValueOf(values));
    } else {
      var b := blocks[n - 1];
      assert blocks[..n][..n - 1] == blocks[..n - 1];
      RowAfterRepresents(exp, q, queryPos, blocks, n - 1, keys, values, scale);
      var st := RowAfter(exp, q, queryPos, blocks, n - 1, |keys.rows|, scale, values.width);
      var seen := SeenAfter(blocks, n - 1, |keys.rows|, queryPos);
      BlockExtends(exp, st, seen, q, queryPos, b, keys, values, scale);
    }
  }

  lemma BlockExtends(exp: real -> real, st: RowState, seen: seq<nat>, q: Row, queryPos: int, b: Block, keys: Tensor,
                     values: Tensor, scale: real)
    requires IsExp(exp) && keys.Valid() && values.Valid() && keys.width == |q| && |st.acc| == values.width
    requires |keys.rows| == |values.rows|
    requires b.keys.Valid() && b.values.Valid() && BlockShapeOk(b, |q|, values.width)
    requires forall j: nat | j < ValidKeys(b, |keys.rows|) :: RowCut(b, j, keys, values)
    requires Represents(exp, st, seen, ScoreOf(q, keys, scale), ValueOf(values))
    ensures Represents(exp, AbsorbBlock(exp, st, q, queryPos, b, |keys.rows|, scale),
                       seen + Visible(b.begin, ValidKeys(b, |keys.rows|), queryPos), ScoreOf(q, keys, scale),
                         ValueOf(values))
  {
    hide UpdateRow, Represents, IsExp;
    var n := ValidKeys(b, |keys.rows|);
    if n == 0 {
      assert seen + Visible(b.begin, 0, queryPos) == seen;
    } else {
      var scores, rows := Scores(q, b.keys.rows[..n], scale), b.values.rows[..n];
      forall j: nat | j < n
        ensures b.begin + j < |keys.rows| && b.keys.rows[j] == keys.rows[b.begin + j]
        ensures rows[j] == values.rows[b.begin + j] {
        assert RowCut(b, j, keys, values);
      }
      assert BlockMatches(scores, b.begin, rows, |st.acc|, ScoreOf(q, keys, scale), ValueOf(values));
      UpdateRowExtends(exp, st, seen, ScoreOf(q, keys, scale), ValueOf(values), queryPos, scores, b.begin, rows);
    }
  }

  lemma {:induction false} VisibleCount(begin: nat, n: nat, queryPos: int, k: nat)
    ensures Count(Visible(begin, n, queryPos), k) == if begin <= k < begin + n && k <= queryPos then 1 else 0
  {
    if n > 0 {
      VisibleCount(begin, n - 1, queryPos, k);
      CountAppend(Visible(begin, n - 1, queryPos), begin + n - 1, k);
      assert Visible(begin, n - 1, queryPos) + [] == Visible(begin, n - 1, queryPos);
    }
  }

  lemma {:induction false} SeenIsFilter(blocks: seq<Block>, n: nat, originalLength: int, queryPos: int, limit: int,
                                        k: nat)
    requires n <= |blocks| && (forall i | 0 <= i < |blocks| :: blocks[i].begin >= 0) && queryPos <= limit
    ensures Count(SeenAfter(blocks, n, originalLength, queryPos), k)
         == if k <= queryPos then Count(SeenAfter(blocks, n, originalLength, limit), k) else 0
  {
    if n > 0 {
      var begin, size := blocks[n - 1].begin, ValidKeys(blocks[n - 1], originalLength);
      SeenIsFilter(blocks, n - 1, originalLength, queryPos, limit, k);
      VisibleCount(begin, size, queryPos, k);
      VisibleCount(begin, size, limit, k);
      CountConcat(SeenAfter(blocks, n - 1, originalLength, queryPos), Visible(begin, size, queryPos), k);
      CountConcat(SeenAfter(blocks, n - 1, originalLength, limit), Visible(begin, size, limit), k);
    }
  }

  /** A causal query in a tiled sequence sees exactly the positions up to its own. */
  lemma SeenIsPrefix(blocks: seq<Block>, originalLength: nat, queryPos: nat)
    requires Tile(blocks, originalLength) && queryPos < originalLength
    ensures EachOnce(SeenAfter(blocks, |blocks|, originalLength, queryPos), queryPos + 1)
  {
    forall k: nat
      ensures Count(SeenAfter(blocks, |blocks|, originalLength, queryPos), k) == if k < queryPos + 1 then 1 else 0
    {
      SeenIsFilter(blocks, |blocks|, originalLength, queryPos, originalLength, k);
    }
  }

  /** Streaming is exact: over blocks that tile the sequence in any order, every query row inside the
      sequence is the softmax average of the keys up to its own position, and padded rows are zero. */
  lemma StreamingIsSoftmax(exp: real -> real, query: Tensor, i: nat, blocks: seq<Block>, queryBegin: nat,
                           keys: Tensor, values: Tensor, scale: real, c: nat)
    requires IsExp(exp) && query.Valid() && keys.Valid() && values.Valid() && keys.width == query.width
    requires BlocksOk(blocks, query.width, values.width) && Tile(blocks, |keys.rows|) && CutFrom(blocks, keys, values)
    requires i < |query.rows| && c < values.width
    ensures var row := OutputRow(exp, query, i, blocks, queryBegin, |keys.rows|, scale, values.width);
            if queryBegin + i < |keys.rows| then
              var n := queryBegin + i + 1;
              var score := ScoreOf(query.rows[i], keys, scale);
              && SumTo(n, Weight(exp, score, 0.0)) > 0.0
              && |row| == values.width
              && row[c] == SoftmaxAverage(exp, n, score, ValueOf(values), c)
            else row == seq(values.width, _ => 0.0)
  {
    if queryBegin + i < |keys.rows| {
      var q, pos := query.rows[i], queryBegin + i;
      assert blocks[..|blocks|] == blocks;
      RowAfterRepresents(exp, q, pos, blocks, |blocks|, keys, values, scale);
      SeenIsPrefix(blocks, |keys.rows|, pos);
      var st := RowAfter(exp, q, pos, blocks, |blocks|, |keys.rows|, scale, values.width);
      NormalisedRow(exp, st, SeenAfter(blocks, |blocks|, |keys.rows|, pos), ScoreOf(q, keys, scale), ValueOf(values),
        pos + 1, c);
    }
  }
}
