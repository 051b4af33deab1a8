/** Equal-capacity dispatch of routes to ranks. */
module ExpertDispatch {
  import opened Chunks
  import opened IndexOps
  import opened MixtureOfExperts
  import opened Sequences
  import opened Sums
  import opened Vectors

  // ----- counts and capacity

  function Destinations(experts: seq<nat>, perRank: nat, world: nat): (r: seq<nat>)
    requires perRank > 0 && Indices(experts, world * perRank)
    ensures |r| == |experts| && Indices(r, world)
    ensures forall j | 0 <= j < |experts| :: r[j] * perRank <= experts[j] < r[j] * perRank + perRank
  {
    seq(|experts|, j requires 0 <= j < |experts| => Destination(experts[j], perRank, world))
  }

  function Destination(expert: nat, perRank: nat, world: nat): (d: nat)
    requires perRank > 0 && expert < world * perRank
    ensures d < world && d * perRank <= expert < d * perRank + perRank
  {
    DivBounds(expert, perRank, world);
    expert / perRank
  }

  lemma DivBounds(expert: nat, perRank: nat, world: nat)
    requires perRank > 0 && expert < world * perRank
    ensures expert / perRank < world
    ensures expert / perRank * perRank <= expert < expert / perRank * perRank + perRank
  {
    var r, i := Locate(expert, perRank, world);
    SameChunk(r, i, expert / perRank, expert % perRank, perRank);
  }

  /** bincount with `world` bins. */
  function Counts(dest: seq<nat>, world: nat): (counts: seq<nat>)
    ensures |counts| == world && forall d | 0 <= d < world :: counts[d] == Count(dest, d)
  {
    seq(world, d requires 0 <= d < world => Count(dest, d))
  }

  function Largest(s: seq<nat>): (m: nat)
    ensures forall i | 0 <= i < |s| :: s[i] <= m
  {
    if s == [] then 0
    else var m := Largest(s[..|s| - 1]); if s[|s| - 1] > m then s[|s| - 1] else m
  }

  /** The largest count of any rank for any destination. */
  function Capacity(dests: seq<seq<nat>>, world: nat): (c: nat)
    ensures forall r, d | 0 <= r < |dests| && 0 <= d < world :: Count(dests[r], d) <= c
  {
    var local := seq(|dests|, r requires 0 <= r < |dests| => Largest(Counts(dests[r], world)));
    assert forall r, d | 0 <= r < |dests| && 0 <= d < world :: Counts(dests[r], world)[d] <= local[r];
    Largest(local)
  }

  lemma {:induction false} LargestIsThere(s: seq<nat>)
    ensures s != [] ==> Largest(s) in s
  {
    if |s| > 1 { LargestIsThere(s[..|s| - 1]); }
  }

  /** The capacity is no larger than it must be: some rank has that many routes for one destination. */
  lemma CapacityIsAttained(dests: seq<seq<nat>>, world: nat) returns (r: nat, d: nat)
    requires dests != [] && world > 0
    ensures r < |dests| && d < world && Capacity(dests, world) == Count(dests[r], d)
  {
    var local := seq(|dests|, r requires 0 <= r < |dests| => Largest(Counts(dests[r], world)));
    LargestIsThere(local);
    r :| r < |local| && local[r] == Capacity(dests, world);
    LargestIsThere(Counts(dests[r], world));
    d :| d < world && Counts(dests[r], world)[d] == local[r];
  }

  function Cumsum(s: seq<nat>): (r: seq<nat>)
    ensures |r| == |s|
  {
    if s == [] then []
    else
      var n := |s| - 1;
      var before := Cumsum(s[..n]);
      before + [s[n] + if n == 0 then 0 else before[n - 1]]
  }

  lemma {:induction false} CumsumIsBelow(keys: seq<nat>, s: seq<nat>, d: nat)
    requires d < |s| && forall e: nat | e < |s| :: s[e] == Count(keys, e)
    ensures Cumsum(s)[d] == Below(keys, d + 1)
    decreases |s|
  {
    var n := |s| - 1;
    if d < n {
      CumsumIsBelow(keys, s[..n], d);
    } else if n > 0 {
      CumsumIsBelow(keys, s[..n], n - 1);
    }
  }

  // ----- places

  /** counts.cumsum - counts at destination `d`. */
  function ExclusiveOffset(dest: seq<nat>, world: nat, d: nat): int
    requires d < world
  {
    Cumsum(Counts(dest, world))[d] as int - Counts(dest, world)[d] as int
  }

  lemma ExclusiveOffsetIsBelow(dest: seq<nat>, world: nat, d: nat)
    requires d < world
    ensures ExclusiveOffset(dest, world, d) == Below(dest, d)
  {
    CumsumIsBelow(dest, Counts(dest, world), d);
  }

  ghost predicate Dispatchable(dest: seq<nat>, order: seq<nat>, world: nat, capacity: nat) {
    && Sorts(order, dest) && Indices(dest, world)
    && forall d: nat | d < world :: Count(dest, d) <= capacity
  }

  /** The place within its chunk of the i-th route in destination order. */
  function RouteOffset(dest: seq<nat>, order: seq<nat>, world: nat, capacity: nat, i: nat): (k: nat)
    requires Dispatchable(dest, order, world, capacity) && i < |order|
    ensures k < capacity && i == Below(dest, dest[order[i]]) + k
  {
    var d := dest[order[i]];
    ExclusiveOffsetIsBelow(dest, world, d);
    SortedPlace(dest, order, i, d);
    i - ExclusiveOffset(dest, world, d)
  }

  function PayloadIndex(dest: seq<nat>, order: seq<nat>, world: nat, capacity: nat, i: nat): (p: nat)
    requires Dispatchable(dest, order, world, capacity) && i < |order|
    ensures p < world * capacity
  {
    var k := RouteOffset(dest, order, world, capacity, i);
    InChunk(dest[order[i]], k, world, capacity);
    dest[order[i]] * capacity + k
  }

  function PayloadIndices(dest: seq<nat>, order: seq<nat>, world: nat, capacity: nat): (r: seq<nat>)
    requires Dispatchable(dest, order, world, capacity)
    ensures |r| == |order| && Indices(r, world * capacity)
    ensures forall i | 0 <= i < |order| :: r[i] == PayloadIndex(dest, order, world, capacity, i)
  {
    seq(|order|, i requires 0 <= i < |order| => PayloadIndex(dest, order, world, capacity, i))
  }

  /** No two routes share a place. */
  lemma PlacesDistinct(dest: seq<nat>, order: seq<nat>, world: nat, capacity: nat)
    requires Dispatchable(dest, order, world, capacity)
    ensures Distinct(PayloadIndices(dest, order, world, capacity))
  {
    var r := PayloadIndices(dest, order, world, capacity);
    forall i, j | 0 <= i < j < |r| ensures r[i] != r[j] {
      var a, b := RouteOffset(dest, order, world, capacity, i), RouteOffset(dest, order, world, capacity, j);
      if r[i] == r[j] { SameChunk(dest[order[i]], a, dest[order[j]], b, capacity); }
    }
  }

  // ----- payloads

  /** What a rank sends (tokens, experts) and keeps (source tokens, weights), place by place. */
  datatype Payload = Payload(tokens: seq<Vec>, experts: seq<int>, source: seq<int>, weights: seq<real>)

  function RouteTokens(x: Routing, width: nat, slots: nat): (rows: seq<Vec>)
    requires Widths(x.tokens, width)
    ensures |rows| == |x.tokens| * slots && Widths(rows, width)
  {
    Select(x.tokens, TokenIndices(|x.tokens|, slots))
  }

  function AsInts(s: seq<nat>): (r: seq<int>)
    ensures |r| == |s| && forall i | 0 <= i < |s| :: r[i] == s[i]
  {
    seq(|s|, i requires 0 <= i < |s| => s[i])
  }

  function Pack(x: Routing, width: nat, slots: nat, perRank: nat, world: nat, capacity: nat,
                order: seq<nat>): (p: Payload)
    requires perRank > 0 && RoutingOk(x, width, slots, world * perRank)
    requires Dispatchable(Destinations(x.experts, perRank, world), order, world, capacity)
    ensures |p.tokens| == |p.experts| == |p.source| == |p.weights| == world * capacity && Widths(p.tokens, width)
  {
    var size := world * capacity;
    var places := PayloadIndices(Destinations(x.experts, perRank, world), order, world, capacity);
    Payload(
      IndexAdd(ZeroRows(size, width), places, Select(RouteTokens(x, width, slots), order), width),
      Put(seq(size, _ => -1), places, Select(AsInts(x.experts), order)),
      Put(seq(size, _ => -1), places, Select(AsInts(TokenIndices(|x.tokens|, slots)), order)),
      Put(seq(size, _ => 0.0), places, Select(x.weights, order)))
  }

  /** The i-th route in destination order stands, with its data, at the i-th place. */
  lemma PackedRoute(x: Routing, width: nat, slots: nat, perRank: nat, world: nat, capacity: nat, order: seq<nat>,
                    i: nat)
    requires perRank > 0 && RoutingOk(x, width, slots, world * perRank)
    requires Dispatchable(Destinations(x.experts, perRank, world), order, world, capacity) && i < |order|
    ensures var p := Pack(x, width, slots, perRank, world, capacity, order);
            var place := PayloadIndex(Destinations(x.experts, perRank, world), order, world, capacity, i);
            var t := TokenOf(x, slots, order[i]);
            && p.tokens[place] == x.tokens[t] && p.experts[place] == x.experts[order[i]]
            && p.source[place] == t && p.weights[place] == x.weights[order[i]]
  {
    var dest, size := Destinations(x.experts, perRank, world), world * capacity;
    var places := PayloadIndices(dest, order, world, capacity);
    PlacesDistinct(dest, order, world, capacity);
    IndexAddStores(ZeroRows(size, width), places, Select(RouteTokens(x, width, slots), order), width, i);
    PutAt(seq(size, _ => -1), places, Select(AsInts(x.experts), order), i);
    PutAt(seq(size, _ => -1), places, Select(AsInts(TokenIndices(|x.tokens|, slots)), order), i);
    PutAt(seq(size, _ => 0.0), places, Select(x.weights, order), i);
  }

  /** Every other place is marked empty. */
  lemma PackedPadding(x: Routing, width: nat, slots: nat, perRank: nat, world: nat, capacity: nat, order: seq<nat>,
                      p: nat)
    requires perRank > 0 && RoutingOk(x, width, slots, world * perRank)
    requires Dispatchable(Destinations(x.experts, perRank, world), order, world, capacity) && p < world * capacity
    requires p !in PayloadIndices(Destinations(x.experts, perRank, world), order, world, capacity)
    ensures Pack(x, width, slots, perRank, world, capacity, order).source[p] == -1
    ensures Pack(x, width, slots, perRank, world, capacity, order).experts[p] == -1
  {
    var places := PayloadIndices(Destinations(x.experts, perRank, world), order, world, capacity);
    PutElsewhere(seq(world * capacity, _ => -1), places, Select(AsInts(x.experts), order), p);
    PutElsewhere(seq(world * capacity, _ => -1), places, Select(AsInts(TokenIndices(|x.tokens|, slots)), order), p);
  }

  // ----- what a packed payload promises its reader

  /** Chunk and place within the chunk. */
  datatype Spot = Spot(rank: nat, offset: nat)

  function PlaceOf(s: Spot, capacity: nat): nat {
    s.rank * capacity + s.offset
  }

  function Places(spots: seq<Spot>, capacity: nat): (places: seq<nat>)
    ensures |places| == |spots| && forall i | 0 <= i < |spots| :: places[i] == PlaceOf(spots[i], capacity)
  {
    seq(|spots|, i requires 0 <= i < |spots| => PlaceOf(spots[i], capacity))
  }

  /** Route j stands at `spot`, in the chunk of the rank that owns its expert. */
  ghost predicate RouteAt(x: Routing, slots: nat, perRank: nat, world: nat, capacity: nat, p: Payload, j: nat,
                          spot: Spot) {
    && j < |x.experts| == |x.weights| == |x.tokens| * slots
    && spot.rank < world && spot.offset < capacity
    && PlaceOf(spot, capacity) < |p.tokens| == |p.experts| == |p.source| == |p.weights|
    && spot.rank * perRank <= x.experts[j] < spot.rank * perRank + perRank
    && p.tokens[PlaceOf(spot, capacity)] == x.tokens[TokenOf(x, slots, j)]
    && p.experts[PlaceOf(spot, capacity)] == x.experts[j]
    && p.source[PlaceOf(spot, capacity)] == TokenOf(x, slots, j)
    && p.weights[PlaceOf(spot, capacity)] == x.weights[j]
  }

  ghost predicate SourceMarks(p: Payload, tokens: nat, places: seq<nat>, q: nat)
    requires q < |p.source|
  {
    p.source[q] < tokens && (p.source[q] >= 0 <==> q in places)
  }

  /** Every route stands at exactly one place and every other place is marked empty. */
  ghost predicate PackedAs(x: Routing, width: nat, slots: nat, perRank: nat, world: nat, capacity: nat, p: Payload,
                           order: seq<nat>, spots: seq<Spot>) {
    && |p.tokens| == |p.experts| == |p.source| == |p.weights| == world * capacity && Widths(p.tokens, width)
    && |order| == |spots| == |x.experts| && Indices(order, |x.experts|) && EachOnce(order, |x.experts|)
    && (forall i: nat | i < |order| :: RouteAt(x, slots, perRank, world, capacity, p, order[i], spots[i]))
    && Distinct(Places(spots, capacity))
    && (forall q: nat | q < |p.source| :: SourceMarks(p, |x.tokens|, Places(spots, capacity), q))
  }

  ghost function Spots(dest: seq<nat>, order: seq<nat>, world: nat, capacity: nat): (spots: seq<Spot>)
    requires Dispatchable(dest, order, world, capacity)
    ensures |spots| == |order| && Places(spots, capacity) == PayloadIndices(dest, order, world, capacity)
    ensures forall i | 0 <= i < |order| ::
        spots[i] == Spot(dest[order[i]], RouteOffset(dest, order, world, capacity, i))
  {
    seq(|order|, i requires 0 <= i < |order| => Spot(dest[order[i]], RouteOffset(dest, order, world, capacity, i)))
  }

  lemma PackPlacesRoutes(x: Routing, width: nat, slots: nat, perRank: nat, world: nat, capacity: nat, order: seq<nat>)
    returns (spots: seq<Spot>)
    requires perRank > 0 && RoutingOk(x, width, slots, world * perRank)
    requires Dispatchable(Destinations(x.experts, perRank, world), order, world, capacity)
    ensures PackedAs(x, width, slots, perRank, world, capacity, Pack(x, width, slots, perRank, world, capacity, order),
        order, spots)
  {
    var dest, p := Destinations(x.experts, perRank, world), Pack(x, width, slots, perRank, world, capacity, order);
    spots := Spots(dest, order, world, capacity);
    PlacesDistinct(dest, order, world, capacity);
    forall i: nat | i < |order| ensures RouteAt(x, slots, perRank, world, capacity, p, order[i], spots[i]) {
      PackedRoute(x, width, slots, perRank, world, capacity, order, i);
    }
    forall q: nat | q < |p.source| ensures SourceMarks(p, |x.tokens|, Places(spots, capacity), q) {
      MarkedPlace(x, width, slots, perRank, world, capacity, order, q);
    }
  }

  lemma MarkedPlace(x: Routing, width: nat, slots: nat, perRank: nat, world: nat, capacity: nat, order: seq<nat>,
                    q: nat)
    requires perRank > 0 && RoutingOk(x, width, slots, world * perRank)
    requires Dispatchable(Destinations(x.experts, perRank, world), order, world, capacity) && q < world * capacity
    ensures SourceMarks(Pack(x, width, slots, perRank, world, capacity, order), |x.tokens|,
                        PayloadIndices(Destinations(x.experts, perRank, world), order, world, capacity), q)
  {
    var places := PayloadIndices(Destinations(x.experts, perRank, world), order, world, capacity);
    if q in places {
      var i: nat :| i < |places| && places[i] == q;
      PackedRoute(x, width, slots, perRank, world, capacity, order, i);
    } else {
      PackedPadding(x, width, slots, perRank, world, capacity, order, q);
    }
  }
}
