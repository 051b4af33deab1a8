/** The context-parallel ring of keys and values. */
module RingExchange {
  import opened Results
  import opened Sums
  import opened Vectors

  predicate Group(group: seq<int>) {
    forall i, j | 0 <= i < j < |group| :: group[i] != group[j]
  }

  // ----- the schedule

  datatype RingStep = RingStep(step: nat, kvRank: int, sendRank: int, recvRank: int)

  method GroupIndex(group: seq<int>, rank: int) returns (r: Result<nat>)
    ensures r.Ok? <==> rank in group
    ensures r.Ok? ==> r.value < |group| && group[r.value] == rank && rank !in group[..r.value]
  {
    var i := 0;
    while i < |group|
      invariant i <= |group| && rank !in group[..i]
    {
      if group[i] == rank { return Ok(i); }
      i := i + 1;
    }
    return Err("rank is not a member of context_group");
  }

  /** The group index whose shard rank `local` holds after `step` hops. */
  function KvIndex(size: nat, local: nat, step: nat): (k: nat)
    requires local < size && step < size
    ensures k < size
  {
    if step <= local then local - step else local + size - step
  }

  function Next(size: nat, local: nat): (k: nat)
    requires local < size
    ensures k < size
  {
    if local + 1 == size then 0 else local + 1
  }

  function Previous(size: nat, local: nat): (k: nat)
    requires local < size
    ensures k < size
  {
    if local == 0 then size - 1 else local - 1
  }

  lemma Wrap(size: nat, x: nat)
    requires x < 2 * size
    ensures x % size == if x < size then x else x - size
  {
    if x >= size { assert x == 1 * size + (x - size); }
  }

  /** The index arithmetic of the source, with remainders. */
  lemma RingRemainders(size: nat, local: nat, step: nat)
    requires local < size && step < size
    ensures KvIndex(size, local, step) == (local + size - step) % size
    ensures Next(size, local) == (local + 1) % size
    ensures Previous(size, local) == (local + size - 1) % size
  {
    Wrap(size, local + size - step);
    Wrap(size, local + 1);
    Wrap(size, local + size - 1);
  }

  function ScheduleStep(group: seq<int>, local: nat, step: nat): RingStep
    requires local < |group| && step < |group|
  {
    var size := |group|;
    RingStep(step, group[KvIndex(size, local, step)],
             if size == 1 then -1 else group[Next(size, local)],
             if size == 1 then -1 else group[Previous(size, local)])
  }

  method RingSchedule(group: seq<int>, rank: int) returns (r: Result<seq<RingStep>>)
    requires Group(group)
    ensures r.Ok? <==> rank in group
    ensures r.Ok? ==> |r.value| == |group|
    ensures r.Ok? ==> forall local, step | 0 <= local < |group| && group[local] == rank && 0 <= step < |group| ::
                        r.value[step] == ScheduleStep(group, local, step)
  {
    if group == [] { return Err("context_group must not be empty"); }
    var found := GroupIndex(group, rank);
    if found.Err? { return Err(found.message); }
    var size, local := |group|, found.value;
    RingRemainders(size, local, 0);
    var sendRank := if size == 1 then -1 else group[(local + 1) % size];
    var recvRank := if size == 1 then -1 else group[(local + size - 1) % size];
    var schedule: seq<RingStep> := [];
    var step := 0;
    while step < size
      invariant step <= size && |schedule| == step
      invariant forall i | 0 <= i < step :: schedule[i] == ScheduleStep(group, local, i)
    {
      var kvIndex := (local + size - step) % size;
      RingRemainders(size, local, step);
      schedule := schedule + [RingStep(step, group[kvIndex], sendRank, recvRank)];
      step := step + 1;
    }
    return Ok(schedule);
  }

  /** The step at which a rank holds the shard of `k`; reading the schedule backwards is reading it again. */
  lemma KvIndexInvolution(size: nat, local: nat, step: nat)
    requires local < size && step < size
    ensures KvIndex(size, local, KvIndex(size, local, step)) == step
  {
  }

  // ----- one hop of all ranks

  /** What each rank receives when everyone sends `data` to its successor. */
  function Hop<T>(data: seq<T>): (next: seq<T>)
    ensures |next| == |data|
    ensures forall r | 0 <= r < |data| :: next[r] == data[Previous(|data|, r)]
  {
    seq(|data|, r requires 0 <= r < |data| => data[Previous(|data|, r)])
  }

  /** The calls of a hop match: whoever a rank receives from is sending to that rank. */
  lemma HopCallsMatch(group: seq<int>, local: nat, from: nat, step: nat)
    requires Group(group) && 2 <= |group| && local < |group| && from < |group| && step < |group|
    requires group[from] == ScheduleStep(group, local, step).recvRank
    ensures from == Previous(|group|, local)
    ensures ScheduleStep(group, from, step).sendRank == group[local]
  {
  }

  lemma OneHopFurther(size: nat, local: nat, step: nat)
    requires local < size && step + 1 < size
    ensures KvIndex(size, Previous(size, local), step) == KvIndex(size, local, step + 1)
  {
  }

  /** The forward exchange on all ranks at once: `blocks[r]` is what rank `r` concatenates. */
  method RingForward<T>(local: seq<T>) returns (blocks: seq<seq<T>>)
    ensures |blocks| == |local|
    ensures forall r, i | 0 <= r < |local| && 0 <= i < |local| ::
              |blocks[r]| == |local| && blocks[r][i] == local[KvIndex(|local|, r, i)]
  {
    var size := |local|;
    var current := local;
    blocks := seq(size, _ => []);
    var i := 0;
    while i < size
      invariant i <= size && |blocks| == |current| == size
      invariant forall r | 0 <= r < size :: |blocks[r]| == i
      invariant forall r, j | 0 <= r < size && 0 <= j < i :: blocks[r][j] == local[KvIndex(size, r, j)]
      invariant i < size ==> forall r | 0 <= r < size :: current[r] == local[KvIndex(size, r, i)]
    {
      var before := blocks;
      blocks := seq(size, r requires 0 <= r < size && |before| == |current| == size => before[r] + [current[r]]);
      if i + 1 < size {
        current := Hop(current);
        forall r | 0 <= r < size ensures current[r] == local[KvIndex(size, r, i + 1)] {
          OneHopFurther(size, r, i);
        }
      }
      i := i + 1;
    }
  }

  // ----- backward

  /** One rank's gradient blocks put back in rank order (first half of the backward pass). */
  method RankOrder<T>(group: seq<int>, local: nat, blocks: seq<T>) returns (rankOrder: seq<T>)
    requires Group(group) && local < |group| && |blocks| == |group|
    ensures |rankOrder| == |group|
    ensures forall k | 0 <= k < |group| :: rankOrder[k] == blocks[KvIndex(|group|, local, k)]
  {
    hide KvIndex;
    var size := |group|;
    var schedule := RingSchedule(group, group[local]);
    rankOrder := blocks;
    var i := 0;
    while i < size
      invariant i <= size && Ordered(rankOrder, blocks, local, i)
    {
      var found := GroupIndex(group, schedule.value[i].kvRank);
      var k := found.value;
      assert k == KvIndex(size, local, i);
      PutInOrder(rankOrder, blocks, local, i);
      rankOrder := rankOrder[k := blocks[i]];
      i := i + 1;
    }
  }

  /** The blocks of the first `n` hops stand at their owner's index. */
  predicate Ordered<T(==)>(rankOrder: seq<T>, blocks: seq<T>, local: nat, n: nat)
    requires local < |blocks|
  {
    && |rankOrder| == |blocks|
    && forall k | 0 <= k < |blocks| && KvIndex(|blocks|, local, k) < n ::
      rankOrder[k] == blocks[KvIndex(|blocks|, local, k)]
  }

  lemma PutInOrder<T>(rankOrder: seq<T>, blocks: seq<T>, local: nat, n: nat)
    requires local < |blocks| && n < |blocks| && Ordered(rankOrder, blocks, local, n)
    ensures Ordered(rankOrder[KvIndex(|blocks|, local, n) := blocks[n]], blocks, local, n + 1)
  {
    KvIndexInvolution(|blocks|, local, n);
    forall k | 0 <= k < |blocks| ensures KvIndex(|blocks|, local, k) == n <==> k == KvIndex(|blocks|, local, n) {
      KvIndexInvolution(|blocks|, local, k);
    }
  }

  /** Summing along the ring, from any rank on, visits every rank once. */
  lemma SumAroundRing(size: nat, local: nat, f: nat -> real, g: nat -> real)
    requires local < size && forall i: nat | i < size :: g(i) == f(KvIndex(size, local, i))
    ensures SumTo(size, g) == SumTo(size, f)
  {
    HalvesOfRing(size, local, local + 1, size - local - 1, f, g);
  }

  lemma HalvesOfRing(size: nat, local: nat, first: nat, second: nat, f: nat -> real, g: nat -> real)
    requires local < size && first == local + 1 && first + second == size
    requires forall i: nat | i < size :: g(i) == f(KvIndex(size, local, i))
    ensures SumTo(first + second, g) == SumTo(first + second, f)
  {
    var g2, f2 := (i: nat) => g(first + i), (i: nat) => f(first + i);
    assert SumTo(first + second, g) == SumTo(first, g) + SumTo(second, g2) by { SumSplit(first, second, g, g2); }
    assert SumTo(first + second, f) == SumTo(first, f) + SumTo(second, f2) by { SumSplit(first, second, f, f2); }
    assert SumTo(first, g) == SumTo(first, f) by {
      forall i: nat | i < first ensures g(i) == f(0 + first - 1 - i) { assert KvIndex(size, local, i) == local - i; }
      SumReverse(first, 0, f, g, f);
    }
    assert SumTo(second, g2) == SumTo(second, f2) by {
      forall i: nat | i < second ensures g2(i) == f(first + second - 1 - i) {
        assert KvIndex(size, local, first + i) == local + size - (first + i);
      }
      SumReverse(second, first, f, g2, f2);
    }
  }

  /** The fallback for one owner: every rank passes its contribution round and adds up what comes by. */
  method PassRound(contributions: seq<Vec>, width: nat) returns (totals: seq<Vec>)
    requires Widths(contributions, width) && contributions != []
    ensures |totals| == |contributions| && Widths(totals, width)
    ensures forall r | 0 <= r < |totals| :: totals[r] == TotalOf(contributions, width)
  {
    var size := |contributions|;
    var current := contributions;
    totals := contributions;
    var hop := 0;
    FirstTotals(contributions, width);
    while hop + 1 < size
      invariant hop < size && |current| == size && Widths(current, width)
      invariant forall r | 0 <= r < size :: current[r] == contributions[KvIndex(size, r, hop)]
      invariant TotalsAfter(contributions, width, totals, hop)
    {
      current := Hop(current);
      forall r | 0 <= r < size ensures current[r] == contributions[KvIndex(size, r, hop + 1)] {
        OneHopFurther(size, r, hop);
      }
      AddRound(contributions, width, totals, current, hop);
      totals := AddAll(totals, current, width);
      hop := hop + 1;
    }
    RoundIsTotal(contributions, width, totals, hop);
  }

  function AddAll(a: seq<Vec>, b: seq<Vec>, width: nat): (c: seq<Vec>)
    requires |a| == |b| && Widths(a, width) && Widths(b, width)
    ensures |c| == |a| && Widths(c, width)
    ensures forall r, i | 0 <= r < |a| && 0 <= i < width :: c[r][i] == a[r][i] + b[r][i]
  {
    seq(|a|, r requires 0 <= r < |a| => Add(a[r], b[r]))
  }

  /** After `hop` hops rank r has added up its own contribution and those of its `hop` predecessors. */
  ghost predicate TotalsAfter(contributions: seq<Vec>, width: nat, totals: seq<Vec>, hop: nat)
    requires Widths(contributions, width)
  {
    && |totals| == |contributions| && Widths(totals, width)
    && forall r: nat, c: nat | r < |totals| && c < width ::
         totals[r][c] == SumTo(hop + 1, AlongRing(contributions, width, r, c))
  }

  lemma FirstTotals(contributions: seq<Vec>, width: nat)
    requires Widths(contributions, width)
    ensures TotalsAfter(contributions, width, contributions, 0)
  {
    forall r: nat, c: nat | r < |contributions| && c < width
      ensures contributions[r][c] == SumTo(1, AlongRing(contributions, width, r, c))
    {
      assert SumTo(0, AlongRing(contributions, width, r, c)) == 0.0;
    }
  }

  lemma AddRound(contributions: seq<Vec>, width: nat, totals: seq<Vec>, current: seq<Vec>, hop: nat)
    requires Widths(contributions, width) && TotalsAfter(contributions, width, totals, hop) && hop + 1 < |contributions|
    requires |current| == |contributions| && Widths(current, width)
    requires forall r | 0 <= r < |current| :: current[r] == contributions[KvIndex(|contributions|, r, hop + 1)]
    ensures TotalsAfter(contributions, width, AddAll(totals, current, width), hop + 1)
  {
    var next := AddAll(totals, current, width);
    forall r: nat, c: nat | r < |next| && c < width
      ensures next[r][c] == SumTo(hop + 2, AlongRing(contributions, width, r, c))
    {
      assert AlongRing(contributions, width, r, c)(hop + 1) == current[r][c];
    }
  }

  lemma RoundIsTotal(contributions: seq<Vec>, width: nat, totals: seq<Vec>, hop: nat)
    requires Widths(contributions, width) && hop + 1 == |contributions|
    requires TotalsAfter(contributions, width, totals, hop)
    ensures forall r | 0 <= r < |totals| :: totals[r] == TotalOf(contributions, width)
  {
    var size := |contributions|;
    forall r: nat | r < size ensures totals[r] == TotalOf(contributions, width) {
      forall c: nat | c < width ensures totals[r][c] == SumTo(size, Entry(contributions, width, c)) {
        SumAroundRing(size, r, Entry(contributions, width, c), AlongRing(contributions, width, r, c));
      }
    }
  }

  function AlongRing(vectors: seq<Vec>, width: nat, r: nat, c: nat): nat -> real
    requires Widths(vectors, width) && c < width && r < |vectors|
  {
    (i: nat) => if i < |vectors| then vectors[KvIndex(|vectors|, r, i)][c] else 0.0
  }

  /** `gradients[p][i]`: the gradient of the i-th block that rank p concatenated. */
  predicate Gradients(gradients: seq<seq<Vec>>, width: nat) {
    forall p | 0 <= p < |gradients| :: |gradients[p]| == |gradients| && Widths(gradients[p], width)
  }

  /** Every rank's contribution to `owner`. */
  function Contributions(gradients: seq<seq<Vec>>, width: nat, owner: nat): (v: seq<Vec>)
    requires Gradients(gradients, width) && owner < |gradients|
    ensures |v| == |gradients| && Widths(v, width)
  {
    seq(|gradients|, p requires 0 <= p < |gradients| => gradients[p][KvIndex(|gradients|, p, owner)])
  }

  function Backward(gradients: seq<seq<Vec>>, width: nat): (local: seq<Vec>)
    requires Gradients(gradients, width)
    ensures |local| == |gradients| && Widths(local, width)
  {
    seq(|gradients|, owner requires 0 <= owner < |gradients| => TotalOf(Contributions(gradients, width, owner), width))
  }

  /** The hop-by-hop fallback on all ranks gives every owner the gradient of the reduce-scatter path. */
  method BackwardFallback(group: seq<int>, gradients: seq<seq<Vec>>, width: nat) returns (local: seq<Vec>)
    requires Group(group) && group != [] && |gradients| == |group| && Gradients(gradients, width)
    ensures local == Backward(gradients, width)
  {
    var size := |group|;
    var rankOrders: seq<seq<Vec>> := [];
    while |rankOrders| < size
      invariant |rankOrders| <= size
      invariant forall p | 0 <= p < |rankOrders| :: |rankOrders[p]| == size
      invariant forall p, k | 0 <= p < |rankOrders| && 0 <= k < size ::
                  rankOrders[p][k] == gradients[p][KvIndex(size, p, k)]
    {
      var one := RankOrder(group, |rankOrders|, gradients[|rankOrders|]);
      rankOrders := rankOrders + [one];
    }
    local := [];
    while |local| < size
      invariant |local| <= size
      invariant local == Backward(gradients, width)[..|local|]
    {
      var owner := |local|;
      var contributions := Column(rankOrders, owner);
      assert contributions == Contributions(gradients, width, owner);
      var totals := PassRound(contributions, width);
      local := local + [totals[owner]];
    }
  }

  function Column<T>(rows: seq<seq<T>>, k: nat): (column: seq<T>)
    requires forall p | 0 <= p < |rows| :: k < |rows[p]|
    ensures |column| == |rows| && forall p | 0 <= p < |rows| :: column[p] == rows[p][k]
  {
    seq(|rows|, p requires 0 <= p < |rows| => rows[p][k])
  }

  // ----- adjointness

  lemma {:induction false} DotOfSum(x: Vec, vectors: seq<Vec>, width: nat, n: nat, total: Vec)
    requires |x| == |total| == width && Widths(vectors, width) && n <= |vectors|
    requires forall c: nat | c < width :: total[c] == SumTo(n, Entry(vectors, width, c))
    ensures Dot(x, total) == SumTo(n, (p: nat) => if p < |vectors| then Dot(x, vectors[p]) else 0.0)
  {
    var term := Products(x, total);
    if n == 0 {
      SumZero(width, term);
    } else {
      var rest: Vec := seq(width, c requires 0 <= c < width => SumTo(n - 1, Entry(vectors, width, c)));
      DotOfSum(x, vectors, width, n - 1, rest);
      var v := vectors[n - 1];
      var a, b := Products(x, rest), Products(x, v);
      forall i: nat | i < width ensures term(i) == a(i) + b(i) {
        assert total[i] == rest[i] + v[i];
      }
      SumAdd(width, a, b, term);
    }
  }

  /** <i-th block of forward(x) on rank r, g[r][i]>. */
  function ForwardProduct(x: seq<Vec>, gradients: seq<seq<Vec>>, width: nat, r: nat, i: nat): real
    requires |x| == |gradients| && Widths(x, width) && Gradients(gradients, width)
  {
    if r < |x| && i < |x| then Dot(x[KvIndex(|x|, r, i)], gradients[r][i]) else 0.0
  }

  /** <forward(x), g> on rank r. */
  function RankProduct(x: seq<Vec>, gradients: seq<seq<Vec>>, width: nat, r: nat): real
    requires |x| == |gradients| && Widths(x, width) && Gradients(gradients, width)
  {
    SumTo(|x|, (i: nat) => ForwardProduct(x, gradients, width, r, i))
  }

  function OwnerProduct(x: seq<Vec>, gradients: seq<seq<Vec>>, width: nat, r: nat, k: nat): real
    requires |x| == |gradients| && Widths(x, width) && Gradients(gradients, width)
  {
    if r < |x| && k < |x| then Dot(x[k], gradients[r][KvIndex(|x|, r, k)]) else 0.0
  }

  function ByOwner(x: seq<Vec>, gradients: seq<seq<Vec>>, width: nat): (nat, nat) -> real
    requires |x| == |gradients| && Widths(x, width) && Gradients(gradients, width)
  {
    (r: nat, k: nat) => OwnerProduct(x, gradients, width, r, k)
  }

  lemma RankByOwner(x: seq<Vec>, gradients: seq<seq<Vec>>, width: nat, r: nat, owner: (nat, nat) -> real)
    requires |x| == |gradients| && Widths(x, width) && Gradients(gradients, width) && r < |x|
    requires owner == ByOwner(x, gradients, width)
    ensures RankProduct(x, gradients, width, r) == SumTo(|x|, (k: nat) => owner(r, k))
  {
    var f, g := (k: nat) => owner(r, k), (i: nat) => ForwardProduct(x, gradients, width, r, i);
    forall i: nat | i < |x| ensures g(i) == f(KvIndex(|x|, r, i)) { KvIndexInvolution(|x|, r, i); }
    SumAroundRing(|x|, r, f, g);
  }

  lemma OwnerTotal(x: seq<Vec>, gradients: seq<seq<Vec>>, width: nat, k: nat, owner: (nat, nat) -> real)
    requires |x| == |gradients| && Widths(x, width) && Gradients(gradients, width) && k < |x|
    requires owner == ByOwner(x, gradients, width)
    ensures SumTo(|x|, (r: nat) => owner(r, k)) == Dot(x[k], Backward(gradients, width)[k])
  {
    var vectors := Contributions(gradients, width, k);
    DotOfSum(x[k], vectors, width, |x|, TotalOf(vectors, width));
    SumEqual(|x|, (r: nat) => owner(r, k), (p: nat) => if p < |vectors| then Dot(x[k], vectors[p]) else 0.0);
  }

  /** <forward(x), g> summed over ranks equals <x, backward(g)> summed over ranks. */
  lemma BackwardIsAdjoint(x: seq<Vec>, gradients: seq<seq<Vec>>, width: nat)
    requires |x| == |gradients| && Widths(x, width) && Gradients(gradients, width)
    ensures SumTo(|x|, (r: nat) => RankProduct(x, gradients, width, r))
         == SumTo(|x|, (k: nat) => if k < |x| then Dot(x[k], Backward(gradients, width)[k]) else 0.0)
  {
    var size, owner := |x|, ByOwner(x, gradients, width);
    var byRank, byRank' := (r: nat) => RankProduct(x, gradients, width, r), (r: nat) =>
      SumTo(size, (k: nat) => owner(r, k));
    forall r: nat | r < size ensures byRank(r) == byRank'(r) { RankByOwner(x, gradients, width, r, owner); }
    SumEqual(size, byRank, byRank');
    SumSwap(size, size, owner);
    var byOwner, local := (k: nat) => SumTo(size, (r: nat) => owner(r, k)),
                          (k: nat) => if k < size then Dot(x[k], Backward(gradients, width)[k]) else 0.0;
    forall k: nat | k < size ensures byOwner(k) == local(k) { OwnerTotal(x, gradients, width, k, owner); }
    SumEqual(size, byOwner, local);
  }
}
