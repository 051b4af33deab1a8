/** The mixture-of-experts layer: what it means, and the plain loop over experts that computes it. */
module MixtureOfExperts {
  import opened Chunks
  import opened IndexOps
  import opened Sequences
  import opened Sums
  import opened Vectors

  /** One expert's gate, up and down projections applied to one token; any function of the right width. */
  type Experts = (nat, Vec) -> Vec

  ghost predicate KeepsWidth(f: Experts, width: nat) {
    forall e: nat, v: Vec | |v| == width :: |f(e, v)| == width
  }

  // ----- routes

  /** The router's choice: route t * slots + s is slot s of token t. */
  datatype Routing = Routing(tokens: seq<Vec>, experts: seq<nat>, weights: seq<real>)

  /** Every token index repeated once per slot. */
  function TokenIndices(n: nat, slots: nat): (r: seq<nat>)
    ensures |r| == n * slots && Indices(r, n)
  {
    if n == 0 then [] else
      assert n * slots == (n - 1) * slots + slots;
      TokenIndices(n - 1, slots) + seq(slots, _ => n - 1)
  }

  lemma {:induction false} TokenIndicesAt(n: nat, slots: nat, t: nat, s: nat)
    requires t < n && s < slots
    ensures t * slots + s < n * slots && TokenIndices(n, slots)[t * slots + s] == t
  {
    InChunk(t, s, n, slots);
    if t < n - 1 {
      InChunk(t, s, n - 1, slots);
      TokenIndicesAt(n - 1, slots, t, s);
    }
  }

  predicate RoutingOk(x: Routing, width: nat, slots: nat, experts: nat) {
    && Widths(x.tokens, width)
    && |x.experts| == |x.weights| == |x.tokens| * slots
    && Indices(x.experts, experts)
  }

  function TokenOf(x: Routing, slots: nat, j: nat): (t: nat)
    requires j < |x.tokens| * slots
    ensures t < |x.tokens|
  {
    TokenIndices(|x.tokens|, slots)[j]
  }

  /** What an expert makes of the token of route j. */
  function ExpertRow(f: Experts, x: Routing, width: nat, slots: nat, experts: nat, j: nat): (row: Vec)
    requires KeepsWidth(f, width) && RoutingOk(x, width, slots, experts) && j < |x.experts|
    ensures |row| == width
  {
    f(x.experts[j], x.tokens[TokenOf(x, slots, j)])
  }

  /** What route j adds to entry (t, c) of the output. */
  function RouteTerm(f: Experts, x: Routing, width: nat, slots: nat, experts: nat, t: nat, c: nat): nat -> real
    requires KeepsWidth(f, width) && RoutingOk(x, width, slots, experts) && c < width
  {
    (j: nat) =>
      if j < |x.experts| && TokenOf(x, slots, j) == t then ExpertRow(f, x, width, slots, experts, j)[c] * x.weights[j]
          else 0.0
  }

  /** The layer's meaning: a token's output is the weighted sum of its slots' experts applied to it. */
  function SlotTerm(f: Experts, x: Routing, width: nat, slots: nat, experts: nat, t: nat, c: nat): nat -> real
    requires KeepsWidth(f, width) && RoutingOk(x, width, slots, experts) && c < width && t < |x.tokens|
  {
    (s: nat) =>
      if s < slots then
        InChunk(t, s, |x.tokens|, slots);
        f(x.experts[t * slots + s], x.tokens[t])[c] * x.weights[t * slots + s]
      else 0.0
  }

  function Mixture(f: Experts, x: Routing, width: nat, slots: nat, experts: nat, t: nat, c: nat): real
    requires KeepsWidth(f, width) && RoutingOk(x, width, slots, experts) && c < width && t < |x.tokens|
  {
    SumTo(slots, SlotTerm(f, x, width, slots, experts, t, c))
  }

  /** A sum over routes that looks at one token's routes only is a sum over its slots. */
  lemma {:induction false} OneToken(n: nat, slots: nat, t: nat, p: nat, f: nat -> real, slot: nat -> real)
    requires t < n && p == t * slots && forall s: nat | s < slots :: slot(s) == f(p + s)
    requires forall j: nat | j < n * slots && TokenIndices(n, slots)[j] != t :: f(j) == 0.0
    ensures SumTo(n * slots, f) == SumTo(slots, slot)
  {
    if t == n - 1 {
      LastToken(n, slots, p, f, slot);
    } else {
      OneEarlierToken(n, slots, t, f);
      OneToken(n - 1, slots, t, p, f, slot);
      NoLastToken(n, slots, (n - 1) * slots, t, f);
    }
  }

  lemma LastToken(n: nat, slots: nat, p: nat, f: nat -> real, slot: nat -> real)
    requires n > 0 && p == (n - 1) * slots && forall s: nat | s < slots :: slot(s) == f(p + s)
    requires forall j: nat | j < n * slots && TokenIndices(n, slots)[j] != n - 1 :: f(j) == 0.0
    ensures SumTo(n * slots, f) == SumTo(slots, slot)
  {
    assert n * slots == p + slots;
    forall j: nat | j < p ensures f(j) == 0.0 { EarlierToken(n, slots, j); }
    SumZero(p, f);
    SumSplit(p, slots, f, slot);
  }

  lemma NoLastToken(n: nat, slots: nat, p: nat, t: nat, f: nat -> real)
    requires n > 0 && p == (n - 1) * slots && t < n - 1
    requires forall j: nat | j < n * slots && TokenIndices(n, slots)[j] != t :: f(j) == 0.0
    ensures SumTo(n * slots, f) == SumTo(p, f)
  {
    var last := (s: nat) => f(p + s);
    assert n * slots == p + slots;
    forall s: nat | s < slots ensures last(s) == 0.0 { TokenIndicesAt(n, slots, n - 1, s); }
    SumZero(slots, last);
    SumSplit(p, slots, f, last);
  }

  lemma OneEarlierToken(n: nat, slots: nat, t: nat, f: nat -> real)
    requires n > 0 && forall j: nat | j < n * slots && TokenIndices(n, slots)[j] != t :: f(j) == 0.0
    ensures forall j: nat | j < (n - 1) * slots && TokenIndices(n - 1, slots)[j] != t :: f(j) == 0.0
  {
    forall j: nat | j < (n - 1) * slots && TokenIndices(n - 1, slots)[j] != t
      ensures f(j) == 0.0
    {
      EarlierToken(n, slots, j);
    }
  }

  lemma EarlierToken(n: nat, slots: nat, j: nat)
    requires n > 0 && j < (n - 1) * slots
    ensures j < n * slots && TokenIndices(n, slots)[j] == TokenIndices(n - 1, slots)[j] < n - 1
  {
    assert n * slots == (n - 1) * slots + slots;
  }

  lemma RoutesOfToken(f: Experts, x: Routing, width: nat, slots: nat, experts: nat, t: nat, c: nat)
    requires KeepsWidth(f, width) && RoutingOk(x, width, slots, experts) && c < width && t < |x.tokens|
    ensures SumTo(|x.experts|, RouteTerm(f, x, width, slots, experts, t, c))
        == Mixture(f, x, width, slots, experts, t, c)
  {
    var routes, slot := RouteTerm(f, x, width, slots, experts, t, c), SlotTerm(f, x, width, slots, experts, t, c);
    forall s: nat | s < slots ensures slot(s) == routes(t * slots + s) {
      TokenIndicesAt(|x.tokens|, slots, t, s);
    }
    OneToken(|x.tokens|, slots, t, t * slots, routes, slot);
  }

  // ----- the plain loop

  function Hits(experts: seq<nat>, e: nat): seq<bool> {
    seq(|experts|, j requires 0 <= j < |experts| => experts[j] == e)
  }

  function Under(experts: seq<nat>, e: nat): seq<bool> {
    seq(|experts|, j requires 0 <= j < |experts| => experts[j] < e)
  }

  function WeightedRows(f: Experts, x: Routing, width: nat, slots: nat, experts: nat,
                        routes: seq<nat>): (rows: seq<Vec>)
    requires KeepsWidth(f, width) && RoutingOk(x, width, slots, experts) && Indices(routes, |x.experts|)
    ensures |rows| == |routes| && Widths(rows, width)
    ensures forall k | 0 <= k < |routes| ::
        rows[k] == Scale(ExpertRow(f, x, width, slots, experts, routes[k]), x.weights[routes[k]])
  {
    seq(|routes|, k requires 0 <= k < |routes| =>
      Scale(ExpertRow(f, x, width, slots, experts, routes[k]), x.weights[routes[k]]))
  }

  /** The output of the experts below `e`. */
  ghost predicate MixedUpTo(f: Experts, x: Routing, width: nat, slots: nat, experts: nat, e: nat, out: seq<Vec>) {
    && KeepsWidth(f, width) && RoutingOk(x, width, slots, experts) && |out| == |x.tokens| && Widths(out, width)
    && forall t: nat, c: nat | t < |out| && c < width ::
         out[t][c] == SumTo(|x.experts|, Masked(Under(x.experts, e), RouteTerm(f, x, width, slots, experts, t, c)))
  }

  lemma NoneMixed(f: Experts, x: Routing, width: nat, slots: nat, experts: nat)
    requires KeepsWidth(f, width) && RoutingOk(x, width, slots, experts)
    ensures MixedUpTo(f, x, width, slots, experts, 0, ZeroRows(|x.tokens|, width))
  {
    forall t: nat, c: nat | t < |x.tokens| && c < width
      ensures SumTo(|x.experts|, Masked(Under(x.experts, 0), RouteTerm(f, x, width, slots, experts, t, c))) == 0.0
    {
      SumZero(|x.experts|, Masked(Under(x.experts, 0), RouteTerm(f, x, width, slots, experts, t, c)));
    }
  }

  lemma MaskStep(experts: seq<nat>, e: nat, f: nat -> real)
    ensures SumTo(|experts|, Masked(Under(experts, e + 1), f))
         == SumTo(|experts|, Masked(Under(experts, e), f)) + SumOver(NonZero(Hits(experts, e)), f)
  {
    var below, upTo := Masked(Under(experts, e), f), Masked(Under(experts, e + 1), f);
    var hits := Masked(Hits(experts, e), f);
    forall j: nat | j < |experts| ensures upTo(j) == below(j) + hits(j) { MaskAt(experts, e, f, j); }
    hide *;
    SumOverNonZero(Hits(experts, e), f);
    SumAdd(|experts|, below, hits, upTo);
    assert |Hits(experts, e)| == |experts| by { HitsLength(experts, e); }
  }

  lemma MaskAt(experts: seq<nat>, e: nat, f: nat -> real, j: nat)
    ensures Masked(Under(experts, e + 1), f)(j) == Masked(Under(experts, e), f)(j) + Masked(Hits(experts, e), f)(j)
  {
  }

  lemma HitsLength(experts: seq<nat>, e: nat)
    ensures |Hits(experts, e)| == |experts|
  {
  }

  /** Scatter-adding the weighted rows of some routes adds those routes' terms. */
  lemma ScatterRoutes(f: Experts, x: Routing, width: nat, slots: nat, experts: nat, routes: seq<nat>, out: seq<Vec>,
                      t: nat, c: nat)
    requires KeepsWidth(f, width) && RoutingOk(x, width, slots, experts) && Indices(routes, |x.experts|)
    requires |out| == |x.tokens| && Widths(out, width) && t < |out| && c < width
    ensures IndexAdd(out, Select(TokenIndices(|x.tokens|, slots), routes),
        WeightedRows(f, x, width, slots, experts, routes), width)[t][c]
         == out[t][c] + SumOver(routes, RouteTerm(f, x, width, slots, experts, t, c))
  {
    var targets, rows := Select(TokenIndices(|x.tokens|, slots), routes),
      WeightedRows(f, x, width, slots, experts, routes);
    var term, landing := RouteTerm(f, x, width, slots, experts, t, c), Landing(targets, rows, width, t, c);
    assert SumOver(routes, term) == SumTo(|routes|, landing) by {
      forall i: nat | i < |routes| ensures landing(i) == term(routes[i]) {
        LandingIsTerm(f, x, width, slots, experts, routes, t, c, i);
      }
      SumOverIsSum(routes, term, landing);
    }
    IndexAddEntry(out, targets, rows, width, t, c);
  }

  lemma LandingIsTerm(f: Experts, x: Routing, width: nat, slots: nat, experts: nat, routes: seq<nat>, t: nat, c: nat,
                      i: nat)
    requires KeepsWidth(f, width) && RoutingOk(x, width, slots, experts) && Indices(routes, |x.experts|) && c < width
    requires i < |routes|
    ensures Landing(Select(TokenIndices(|x.tokens|, slots), routes), WeightedRows(f, x, width, slots, experts, routes),
        width, t, c)(i)
         == RouteTerm(f, x, width, slots, experts, t, c)(routes[i])
  {
    var j := routes[i];
    assert Select(TokenIndices(|x.tokens|, slots), routes)[i] == TokenOf(x, slots, j);
  }

  lemma MixedOneMore(f: Experts, x: Routing, width: nat, slots: nat, experts: nat, e: nat, out: seq<Vec>,
                     routes: seq<nat>)
    requires MixedUpTo(f, x, width, slots, experts, e, out) && routes == NonZero(Hits(x.experts, e))
    ensures MixedUpTo(f, x, width, slots, experts, e + 1,
                      IndexAdd(out, Select(TokenIndices(|x.tokens|, slots), routes),
                        WeightedRows(f, x, width, slots, experts, routes), width))
  {
    var next := IndexAdd(out, Select(TokenIndices(|x.tokens|, slots), routes),
      WeightedRows(f, x, width, slots, experts, routes), width);
    forall t: nat, c: nat | t < |next| && c < width
      ensures next[t][c] == SumTo(|x.experts|,
          Masked(Under(x.experts, e + 1), RouteTerm(f, x, width, slots, experts, t, c)))
    {
      ScatterRoutes(f, x, width, slots, experts, routes, out, t, c);
      MaskStep(x.experts, e, RouteTerm(f, x, width, slots, experts, t, c));
    }
  }

  lemma AllMixed(f: Experts, x: Routing, width: nat, slots: nat, experts: nat, out: seq<Vec>, t: nat, c: nat)
    requires MixedUpTo(f, x, width, slots, experts, experts, out) && t < |out| && c < width
    ensures out[t][c] == Mixture(f, x, width, slots, experts, t, c)
  {
    var term := RouteTerm(f, x, width, slots, experts, t, c);
    SumEqual(|x.experts|, Masked(Under(x.experts, experts), term), term);
    RoutesOfToken(f, x, width, slots, experts, t, c);
  }

  ghost predicate Mixed(f: Experts, x: Routing, width: nat, slots: nat, experts: nat, out: seq<Vec>) {
    && KeepsWidth(f, width) && RoutingOk(x, width, slots, experts) && |out| == |x.tokens| && Widths(out, width)
    && forall t: nat, c: nat | t < |out| && c < width :: out[t][c] == Mixture(f, x, width, slots, experts, t, c)
  }

  /** The reference layer: for each expert in turn, gather its routes and scatter-add its weighted rows. */
  method Mlp(f: Experts, x: Routing, width: nat, slots: nat, experts: nat) returns (out: seq<Vec>)
    requires KeepsWidth(f, width) && RoutingOk(x, width, slots, experts)
    ensures Mixed(f, x, width, slots, experts, out)
  {
    out := ZeroRows(|x.tokens|, width);
    NoneMixed(f, x, width, slots, experts);
    var expert := 0;
    while expert < experts
      invariant expert <= experts && MixedUpTo(f, x, width, slots, experts, expert, out)
    {
      var routes := NonZero(Hits(x.experts, expert));
      MixedOneMore(f, x, width, slots, experts, expert, out, routes);
      if routes != [] {
        out := IndexAdd(out, Select(TokenIndices(|x.tokens|, slots), routes),
          WeightedRows(f, x, width, slots, experts, routes), width);
      }
      expert := expert + 1;
    }
    forall t: nat, c: nat | t < |out| && c < width ensures out[t][c] == Mixture(f, x, width, slots, experts, t, c) {
      AllMixed(f, x, width, slots, experts, out, t, c);
    }
  }
}
