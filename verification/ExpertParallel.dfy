/** The expert-parallel layer on all ranks. */
module ExpertParallel {
  import opened Chunks
  import opened ExpertDispatch
  import opened ExpertGrouping
  import opened IndexOps
  import opened MixtureOfExperts
  import opened Sequences
  import opened Sums
  import opened Vectors

  // ----- the weighted scatter-add on the way back

  function Valid(source: seq<int>): (mask: seq<bool>)
    ensures |mask| == |source| && forall p | 0 <= p < |source| :: mask[p] == (source[p] >= 0)
  {
    seq(|source|, p requires 0 <= p < |source| => source[p] >= 0)
  }

  predicate SourcesBelow(source: seq<int>, n: nat) {
    forall p | 0 <= p < |source| :: source[p] < n
  }

  function Targets(source: seq<int>, n: nat): (targets: seq<nat>)
    requires SourcesBelow(source, n)
    ensures |targets| == |NonZero(Valid(source))| && Indices(targets, n)
    ensures forall k | 0 <= k < |targets| :: targets[k] == source[NonZero(Valid(source))[k]]
  {
    NonZeroDistinct(Valid(source));
    var valid := NonZero(Valid(source));
    assert forall k | 0 <= k < |valid| :: valid[k] in valid;
    seq(|valid|, k requires 0 <= k < |valid| => source[valid[k]])
  }

  function Weighted(weights: seq<real>, returned: seq<Vec>, places: seq<nat>, width: nat): (rows: seq<Vec>)
    requires |weights| == |returned| && Indices(places, |returned|) && Widths(returned, width)
    ensures |rows| == |places| && Widths(rows, width)
    ensures forall k | 0 <= k < |rows| :: rows[k] == Scale(returned[places[k]], weights[places[k]])
  {
    seq(|places|, k requires 0 <= k < |places| => Scale(returned[places[k]], weights[places[k]]))
  }

  function Combine(p: Payload, returned: seq<Vec>, n: nat, width: nat): (out: seq<Vec>)
    requires |p.source| == |p.weights| == |returned| && Widths(returned, width) && SourcesBelow(p.source, n)
    ensures |out| == n && Widths(out, width)
  {
    IndexAdd(ZeroRows(n, width), Targets(p.source, n), Weighted(p.weights, returned, NonZero(Valid(p.source)), width),
      width)
  }

  function PlaceTerm(p: Payload, returned: seq<Vec>, width: nat, t: nat, c: nat): nat -> real
    requires |p.source| == |p.weights| == |returned| && Widths(returned, width) && c < width
  {
    (place: nat) => if place < |returned| && p.source[place] == t then returned[place][c] * p.weights[place] else 0.0
  }

  lemma CombineEntry(p: Payload, returned: seq<Vec>, n: nat, width: nat, t: nat, c: nat)
    requires |p.source| == |p.weights| == |returned| && Widths(returned, width) && SourcesBelow(p.source, n) && t < n
    requires c < width
    ensures Combine(p, returned, n, width)[t][c]
        == SumOver(NonZero(Valid(p.source)), PlaceTerm(p, returned, width, t, c))
  {
    var places := NonZero(Valid(p.source));
    var targets, rows := Targets(p.source, n), Weighted(p.weights, returned, places, width);
    IndexAddEntry(ZeroRows(n, width), targets, rows, width, t, c);
    SumOverIsSum(places, PlaceTerm(p, returned, width, t, c), Landing(targets, rows, width, t, c));
  }

  /** The returned row at the place of route j is what the route's expert makes of its token. */
  ghost predicate ReturnsRoute(f: Experts, x: Routing, width: nat, slots: nat, experts: nat, returned: seq<Vec>,
                               j: nat, place: nat) {
    && KeepsWidth(f, width) && RoutingOk(x, width, slots, experts) && j < |x.experts| && place < |returned|
    && returned[place] == ExpertRow(f, x, width, slots, experts, j)
  }

  ghost predicate ReturnsAll(f: Experts, x: Routing, width: nat, slots: nat, experts: nat, returned: seq<Vec>,
                             order: seq<nat>, places: seq<nat>) {
    && |order| == |places|
    && forall i: nat | i < |order| :: ReturnsRoute(f, x, width, slots, experts, returned, order[i], places[i])
  }

  lemma ValidPlaces(p: Payload, tokens: nat, places: seq<nat>)
    requires Indices(places, |p.source|) && forall q: nat | q < |p.source| :: SourceMarks(p, tokens, places, q)
    ensures SourcesBelow(p.source, tokens)
    ensures forall q: nat :: q in NonZero(Valid(p.source)) <==> q in places
  {
    NonZeroDistinct(Valid(p.source));
    forall q: nat | q < |p.source| ensures p.source[q] < tokens && (p.source[q] >= 0 <==> q in places) {
      assert SourceMarks(p, tokens, places, q);
    }
  }

  /** An entry of the combined output is the sum of all routes' terms. */
  lemma CombinedRoutes(f: Experts, x: Routing, width: nat, slots: nat, perRank: nat, world: nat, capacity: nat,
                       p: Payload, order: seq<nat>, spots: seq<Spot>, returned: seq<Vec>, t: nat, c: nat)
    requires KeepsWidth(f, width) && RoutingOk(x, width, slots, world * perRank) && t < |x.tokens| && c < width
    requires PackedAs(x, width, slots, perRank, world, capacity, p, order, spots)
    requires |returned| == |p.source| && Widths(returned, width) && SourcesBelow(p.source, |x.tokens|)
    requires ReturnsAll(f, x, width, slots, world * perRank, returned, order, Places(spots, capacity))
    ensures Combine(p, returned, |x.tokens|, width)[t][c]
         == SumTo(|x.experts|, RouteTerm(f, x, width, slots, world * perRank, t, c))
  {
    var places := Places(spots, capacity);
    var byPlace, byRoute := PlaceTerm(p, returned, width, t, c), RouteTerm(f, x, width, slots, world * perRank, t, c);
    var term := (i: nat) => if i < |order| then byRoute(order[i]) else 0.0;
    assert Combine(p, returned, |x.tokens|, width)[t][c] == SumOver(NonZero(Valid(p.source)), byPlace) by {
      CombineEntry(p, returned, |x.tokens|, width, t, c);
    }
    assert SumOver(NonZero(Valid(p.source)), byPlace) == SumOver(places, byPlace) by {
      SpotsInside(x, width, slots, perRank, world, capacity, p, order, spots);
      ValidPlaces(p, |x.tokens|, places);
      NonZeroDistinct(Valid(p.source));
      SumOverSameMembers(NonZero(Valid(p.source)), places, byPlace);
    }
    assert SumOver(places, byPlace) == SumTo(|order|, term) by {
      forall i: nat | i < |order| ensures term(i) == byPlace(places[i]) {
        RouteCounted(f, x, width, slots, perRank, world, capacity, p, order[i], spots[i], returned, t, c);
      }
      SumOverIsSum(places, byPlace, term);
    }
    SumOverIsSum(order, byRoute, term);
    SumOverEachOnce(order, |x.experts|, byRoute);
  }

  lemma RouteCounted(f: Experts, x: Routing, width: nat, slots: nat, perRank: nat, world: nat, capacity: nat,
                     p: Payload, j: nat, spot: Spot, returned: seq<Vec>, t: nat, c: nat)
    requires ReturnsRoute(f, x, width, slots, world * perRank, returned, j, PlaceOf(spot, capacity))
    requires RouteAt(x, slots, perRank, world, capacity, p, j, spot)
    requires |returned| == |p.source| && Widths(returned, width) && c < width
    ensures PlaceTerm(p, returned, width, t, c)(PlaceOf(spot, capacity))
        == RouteTerm(f, x, width, slots, world * perRank, t, c)(j)
  {
  }

  lemma SpotsInside(x: Routing, width: nat, slots: nat, perRank: nat, world: nat, capacity: nat, p: Payload,
                    order: seq<nat>, spots: seq<Spot>)
    requires PackedAs(x, width, slots, perRank, world, capacity, p, order, spots)
    ensures Indices(Places(spots, capacity), |p.source|)
  {
    forall i | 0 <= i < |spots| ensures PlaceOf(spots[i], capacity) < |p.source| {
      assert RouteAt(x, slots, perRank, world, capacity, p, order[i], spots[i]);
    }
  }

  lemma CombineIsMixture(f: Experts, x: Routing, width: nat, slots: nat, perRank: nat, world: nat, capacity: nat,
                         p: Payload, order: seq<nat>, spots: seq<Spot>, returned: seq<Vec>)
    requires KeepsWidth(f, width) && RoutingOk(x, width, slots, world * perRank)
    requires PackedAs(x, width, slots, perRank, world, capacity, p, order, spots)
    requires |returned| == |p.source| && Widths(returned, width)
    requires ReturnsAll(f, x, width, slots, world * perRank, returned, order, Places(spots, capacity))
    ensures SourcesBelow(p.source, |x.tokens|)
    ensures Mixed(f, x, width, slots, world * perRank, Combine(p, returned, |x.tokens|, width))
  {
    SpotsInside(x, width, slots, perRank, world, capacity, p, order, spots);
    ValidPlaces(p, |x.tokens|, Places(spots, capacity));
    forall t: nat, c: nat | t < |x.tokens| && c < width
      ensures Combine(p, returned, |x.tokens|, width)[t][c] == Mixture(f, x, width, slots, world * perRank, t, c)
    {
      CombinedRoutes(f, x, width, slots, perRank, world, capacity, p, order, spots, returned, t, c);
      RoutesOfToken(f, x, width, slots, world * perRank, t, c);
    }
  }

  // ----- there and back

  /** What the expert rank that starts at expert `begin` sends back: its own experts' rows, place by place. */
  ghost predicate Computed(f: Experts, begin: nat, perRank: nat, received: seq<int>, tokens: seq<Vec>, back: seq<Vec>) {
    && |received| == |tokens| == |back|
    && forall p: nat | p < |received| :: begin <= received[p] < begin + perRank ==> back[p] == f(received[p], tokens[p])
  }

  /** A route's row comes back to the place it was sent from. */
  lemma RouteReturns(f: Experts, x: Routing, width: nat, slots: nat, perRank: nat, capacity: nat, r: nat, p: Payload,
                     j: nat, spot: Spot,
                     experts: seq<seq<int>>, tokens: seq<seq<Vec>>, back: seq<seq<Vec>>)
    requires KeepsWidth(f, width) && RoutingOk(x, width, slots, |back| * perRank)
    requires |experts| == |tokens| == |back| && Chunked(experts, capacity) && Chunked(tokens, capacity)
    requires Chunked(back, capacity)
    requires r < |back| && experts[r] == p.experts && tokens[r] == p.tokens
    requires RouteAt(x, slots, perRank, |back|, capacity, p, j, spot)
    requires Computed(f, spot.rank * perRank, perRank, AllToAll(experts, capacity)[spot.rank],
        AllToAll(tokens, capacity)[spot.rank], back[spot.rank])
    ensures ReturnsRoute(f, x, width, slots, |back| * perRank, AllToAll(back, capacity)[r], j, PlaceOf(spot, capacity))
  {
    var d, k := spot.rank, spot.offset;
    var there := r * capacity + k;
    assert AllToAll(back, capacity)[r][PlaceOf(spot, capacity)] == back[d][there] by {
      AllToAllAt(back, capacity, r, d, k);
    }
    assert AllToAll(experts, capacity)[d][there] == x.experts[j] by { AllToAllAt(experts, capacity, d, r, k); }
    assert AllToAll(tokens, capacity)[d][there] == x.tokens[TokenOf(x, slots, j)] by {
      AllToAllAt(tokens, capacity, d, r, k);
    }
    InChunk(r, k, |back|, capacity);
  }

  lemma AllToAllWidths(data: seq<seq<Vec>>, chunk: nat, width: nat, r: nat)
    requires Chunked(data, chunk) && r < |data| && forall s | 0 <= s < |data| :: Widths(data[s], width)
    ensures Widths(AllToAll(data, chunk)[r], width)
  {
    forall p: nat | p < |data| * chunk ensures |AllToAll(data, chunk)[r][p]| == width {
      var s, k := Locate(p, chunk, |data|);
      AllToAllAt(data, chunk, r, s, k);
    }
  }

  // ----- all ranks

  /** Hidden width, experts per token, experts per rank. */
  datatype Layout = Layout(width: nat, slots: nat, perRank: nat)

  predicate RoutingsOk(l: Layout, xs: seq<Routing>) {
    l.perRank > 0 && forall r | 0 <= r < |xs| :: RoutingOk(xs[r], l.width, l.slots, |xs| * l.perRank)
  }

  function AllDestinations(l: Layout, xs: seq<Routing>): (dests: seq<seq<nat>>)
    requires RoutingsOk(l, xs)
    ensures |dests| == |xs| && forall r | 0 <= r < |xs| :: dests[r] == Destinations(xs[r].experts, l.perRank, |xs|)
  {
    seq(|xs|, r requires 0 <= r < |xs| => Destinations(xs[r].experts, l.perRank, |xs|))
  }

  /** The dispatch of all ranks, up to the collective. */
  method DispatchAll(l: Layout, xs: seq<Routing>, capacity: nat)
    returns (payloads: seq<Payload>, ghost orders: seq<seq<nat>>, ghost spots: seq<seq<Spot>>)
    requires RoutingsOk(l, xs) && capacity == Capacity(AllDestinations(l, xs), |xs|)
    ensures |payloads| == |orders| == |spots| == |xs|
    ensures forall r | 0 <= r < |xs| ::
        PackedAs(xs[r], l.width, l.slots, l.perRank, |xs|, capacity, payloads[r], orders[r], spots[r])
  {
    payloads, orders, spots := [], [], [];
    while |payloads| < |xs|
      invariant |payloads| == |orders| == |spots| <= |xs|
      invariant forall r | 0 <= r < |payloads| ::
                  PackedAs(xs[r], l.width, l.slots, l.perRank, |xs|, capacity, payloads[r], orders[r], spots[r])
    {
      var x := xs[|payloads|];
      var dest := Destinations(x.experts, l.perRank, |xs|);
      var order := Sort(dest);
      assert AllDestinations(l, xs)[|payloads|] == dest;
      ghost var at := PackPlacesRoutes(x, l.width, l.slots, l.perRank, |xs|, capacity, order);
      payloads := payloads + [Pack(x, l.width, l.slots, l.perRank, |xs|, capacity, order)];
      orders, spots := orders + [order], spots + [at];
    }
  }

  /** The experts of all ranks. */
  method ComputeAll(f: Experts, l: Layout, experts: seq<seq<int>>, tokens: seq<seq<Vec>>) returns (back: seq<seq<Vec>>)
    requires KeepsWidth(f, l.width) && |experts| == |tokens|
    requires forall d | 0 <= d < |tokens| :: |experts[d]| == |tokens[d]| && Widths(tokens[d], l.width)
    ensures |back| == |tokens| && forall d | 0 <= d < |back| :: |back[d]| == |tokens[d]| && Widths(back[d], l.width)
    ensures forall d: nat | d < |back| :: Computed(f, d * l.perRank, l.perRank, experts[d], tokens[d], back[d])
  {
    back := [];
    while |back| < |tokens|
      invariant |back| <= |tokens| && forall d | 0 <= d < |back| :: |back[d]| == |tokens[d]| && Widths(back[d], l.width)
      invariant forall d: nat | d < |back| :: Computed(f, d * l.perRank, l.perRank, experts[d], tokens[d], back[d])
    {
      var d := |back|;
      var begin := d * l.perRank;
      var localOrder := Sort(SlotIds(LocalIds(experts[d], begin, l.perRank), l.perRank));
      var one := LocalReturn(f, experts[d], tokens[d], l.width, begin, l.perRank, localOrder);
      LocalReturnComputes(f, experts[d], tokens[d], l.width, begin, l.perRank, localOrder);
      back := back + [one];
    }
  }

  lemma LocalReturnComputes(f: Experts, received: seq<int>, tokens: seq<Vec>, width: nat, begin: nat, perRank: nat,
                            localOrder: seq<nat>)
    requires KeepsWidth(f, width) && |tokens| == |received| && Widths(tokens, width)
    requires LocallySorts(localOrder, received, begin, perRank)
    ensures Computed(f, begin, perRank, received, tokens,
        LocalReturn(f, received, tokens, width, begin, perRank, localOrder))
  {
    forall p: nat | p < |received| && begin <= received[p] < begin + perRank
      ensures LocalReturn(f, received, tokens, width, begin, perRank, localOrder)[p] == f(received[p], tokens[p])
    {
      PlaceReturns(f, received, tokens, width, begin, perRank, localOrder, p);
    }
  }

  lemma AllReturn(f: Experts, l: Layout, x: Routing, capacity: nat, r: nat, p: Payload, order: seq<nat>,
                  spots: seq<Spot>,
                  experts: seq<seq<int>>, tokens: seq<seq<Vec>>, back: seq<seq<Vec>>)
    requires KeepsWidth(f, l.width) && RoutingOk(x, l.width, l.slots, |back| * l.perRank)
    requires |experts| == |tokens| == |back| && Chunked(experts, capacity) && Chunked(tokens, capacity)
    requires Chunked(back, capacity)
    requires r < |back| && experts[r] == p.experts && tokens[r] == p.tokens
    requires PackedAs(x, l.width, l.slots, l.perRank, |back|, capacity, p, order, spots)
    requires forall d: nat | d < |back| ::
               Computed(f, d * l.perRank, l.perRank, AllToAll(experts, capacity)[d], AllToAll(tokens, capacity)[d],
                 back[d])
    ensures ReturnsAll(f, x, l.width, l.slots, |back| * l.perRank, AllToAll(back, capacity)[r], order,
        Places(spots, capacity))
  {
    hide AllToAll, Computed, ReturnsRoute, RoutingOk, KeepsWidth;
    forall i: nat | i < |order|
      ensures ReturnsRoute(f, x, l.width, l.slots, |back| * l.perRank, AllToAll(back, capacity)[r], order[i],
          Places(spots, capacity)[i])
    {
      assert RouteAt(x, l.slots, l.perRank, |back|, capacity, p, order[i], spots[i]);
      RouteReturns(f, x, l.width, l.slots, l.perRank, capacity, r, p, order[i], spots[i], experts, tokens, back);
    }
  }

  function SentExperts(payloads: seq<Payload>): (sent: seq<seq<int>>)
    ensures |sent| == |payloads| && forall r | 0 <= r < |sent| :: sent[r] == payloads[r].experts
  {
    seq(|payloads|, r requires 0 <= r < |payloads| => payloads[r].experts)
  }

  function SentTokens(payloads: seq<Payload>): (sent: seq<seq<Vec>>)
    ensures |sent| == |payloads| && forall r | 0 <= r < |sent| :: sent[r] == payloads[r].tokens
  {
    seq(|payloads|, r requires 0 <= r < |payloads| => payloads[r].tokens)
  }

  /** A rank's return rows make its output the mixture. */
  ghost predicate RankReady(f: Experts, l: Layout, x: Routing, world: nat, p: Payload, returned: seq<Vec>) {
    && |p.source| == |p.weights| == |returned| && Widths(returned, l.width) && SourcesBelow(p.source, |x.tokens|)
    && Mixed(f, x, l.width, l.slots, world * l.perRank, Combine(p, returned, |x.tokens|, l.width))
  }

  lemma RankOutput(f: Experts, l: Layout, x: Routing, world: nat, capacity: nat, r: nat, p: Payload, order: seq<nat>,
                   spots: seq<Spot>,
                   experts: seq<seq<int>>, tokens: seq<seq<Vec>>, back: seq<seq<Vec>>)
    requires KeepsWidth(f, l.width) && RoutingOk(x, l.width, l.slots, world * l.perRank)
    requires |experts| == |tokens| == |back| == world && Chunked(experts, capacity) && Chunked(tokens, capacity)
    requires Chunked(back, capacity)
    requires r < |back| && experts[r] == p.experts && tokens[r] == p.tokens
    requires forall d | 0 <= d < |back| :: Widths(back[d], l.width)
    requires PackedAs(x, l.width, l.slots, l.perRank, world, capacity, p, order, spots)
    requires forall d: nat | d < |back| ::
               Computed(f, d * l.perRank, l.perRank, AllToAll(experts, capacity)[d], AllToAll(tokens, capacity)[d],
                 back[d])
    ensures RankReady(f, l, x, world, p, AllToAll(back, capacity)[r])
  {
    AllToAllWidths(back, capacity, l.width, r);
    AllReturn(f, l, x, capacity, r, p, order, spots, experts, tokens, back);
    CombineIsMixture(f, x, l.width, l.slots, l.perRank, world, capacity, p, order, spots, AllToAll(back, capacity)[r]);
  }

  /** The scatter-add of all ranks. */
  method CombineAll(f: Experts, l: Layout, xs: seq<Routing>, payloads: seq<Payload>, returned: seq<seq<Vec>>)
    returns (outputs: seq<seq<Vec>>)
    requires |payloads| == |returned| == |xs|
    requires forall r | 0 <= r < |xs| :: RankReady(f, l, xs[r], |xs|, payloads[r], returned[r])
    ensures |outputs| == |xs|
    ensures forall r | 0 <= r < |xs| :: Mixed(f, xs[r], l.width, l.slots, |xs| * l.perRank, outputs[r])
  {
    outputs := [];
    while |outputs| < |xs|
      invariant |outputs| <= |xs|
      invariant forall r | 0 <= r < |outputs| :: Mixed(f, xs[r], l.width, l.slots, |xs| * l.perRank, outputs[r])
    {
      var r := |outputs|;
      assert RankReady(f, l, xs[r], |xs|, payloads[r], returned[r]);
      outputs := outputs + [Combine(payloads[r], returned[r], |xs[r].tokens|, l.width)];
    }
  }

  /** Expert parallelism preserves the layer: whatever the routing and however the sorts order equal
      keys, every rank gets the mixture that the plain loop computes for its own tokens. */
  method ExpertParallelMlp(f: Experts, l: Layout, xs: seq<Routing>) returns (outputs: seq<seq<Vec>>)
    requires KeepsWidth(f, l.width) && RoutingsOk(l, xs)
    ensures |outputs| == |xs|
    ensures forall r | 0 <= r < |xs| :: Mixed(f, xs[r], l.width, l.slots, |xs| * l.perRank, outputs[r])
  {
    var capacity := Capacity(AllDestinations(l, xs), |xs|);
    var payloads, orders, spots := DispatchAll(l, xs, capacity);
    var experts, tokens := SentExperts(payloads), SentTokens(payloads);
    forall d | 0 <= d < |xs|
      ensures Widths(AllToAll(tokens, capacity)[d], l.width)
    {
      AllToAllWidths(tokens, capacity, l.width, d);
    }
    var back := ComputeAll(f, l, AllToAll(experts, capacity), AllToAll(tokens, capacity));
    var returned := AllToAll(back, capacity);
    forall r | 0 <= r < |xs| ensures RankReady(f, l, xs[r], |xs|, payloads[r], returned[r]) {
      RankOutput(f, l, xs[r], |xs|, capacity, r, payloads[r], orders[r], spots[r], experts, tokens, back);
    }
    outputs := CombineAll(f, l, xs, payloads, returned);
  }
}
