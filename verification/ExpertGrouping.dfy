/** Grouped experts on the rows a rank received. */
module ExpertGrouping {
  import opened ExpertDispatch
  import opened IndexOps
  import opened MixtureOfExperts
  import opened Sequences
  import opened Sums
  import opened Vectors

  // ----- active experts

  function Positive(counts: seq<nat>): (mask: seq<bool>)
    ensures |mask| == |counts| && forall i | 0 <= i < |counts| :: mask[i] == (counts[i] > 0)
  {
    seq(|counts|, i requires 0 <= i < |counts| => counts[i] > 0)
  }

  /** The local experts that have work, ascending. */
  function Active(ids: seq<nat>, perRank: nat): (active: seq<nat>)
    ensures Indices(active, perRank)
  {
    NonZero(Positive(Counts(ids, perRank)))
  }

  /** The slot of each local expert among the active ones, -1 for an idle one. */
  function SlotsByExpert(ids: seq<nat>, perRank: nat): (slots: seq<int>)
    ensures |slots| == perRank
  {
    var active := Active(ids, perRank);
    Put(seq(perRank, _ => -1), active, AsInts(Range(|active|)))
  }

  lemma SlotOfActive(ids: seq<nat>, perRank: nat, a: nat)
    requires a < |Active(ids, perRank)|
    ensures SlotsByExpert(ids, perRank)[Active(ids, perRank)[a]] == a
  {
    NonZeroDistinct(Positive(Counts(ids, perRank)));
    PutAt(seq(perRank, _ => -1), Active(ids, perRank), AsInts(Range(|Active(ids, perRank)|)), a);
  }

  /** The slot of the k-th received row; it names an active expert, the row's own. */
  function SlotId(ids: seq<nat>, perRank: nat, k: nat): (a: nat)
    requires Indices(ids, perRank) && k < |ids|
    ensures a < |Active(ids, perRank)| && Active(ids, perRank)[a] == ids[k]
  {
    HasSlot(ids, perRank, k);
    SlotsByExpert(ids, perRank)[ids[k]]
  }

  lemma HasSlot(ids: seq<nat>, perRank: nat, k: nat)
    requires Indices(ids, perRank) && k < |ids|
    ensures var a := SlotsByExpert(ids, perRank)[ids[k]];
            0 <= a < |Active(ids, perRank)| && Active(ids, perRank)[a] == ids[k]
  {
    CountMember(ids, k);
    NonZeroDistinct(Positive(Counts(ids, perRank)));
    assert ids[k] in Active(ids, perRank);
    var a: nat :| a < |Active(ids, perRank)| && Active(ids, perRank)[a] == ids[k];
    SlotOfActive(ids, perRank, a);
  }

  function SlotIds(ids: seq<nat>, perRank: nat): (slots: seq<nat>)
    requires Indices(ids, perRank)
    ensures |slots| == |ids| && forall k | 0 <= k < |ids| :: slots[k] == SlotId(ids, perRank, k)
  {
    seq(|ids|, k requires 0 <= k < |ids| => SlotId(ids, perRank, k))
  }

  lemma {:induction false} CountsAlike(s: seq<nat>, x: nat, t: seq<nat>, y: nat)
    requires |s| == |t| && forall k | 0 <= k < |s| :: s[k] == x <==> t[k] == y
    ensures Count(s, x) == Count(t, y)
  {
    if s != [] { CountsAlike(s[..|s| - 1], x, t[..|t| - 1], y); }
  }

  /** As many rows carry slot `a` as its expert received. */
  lemma SlotCount(ids: seq<nat>, perRank: nat, a: nat)
    requires Indices(ids, perRank) && a < |Active(ids, perRank)|
    ensures Count(SlotIds(ids, perRank), a) == Count(ids, Active(ids, perRank)[a])
  {
    SlotOfActive(ids, perRank, a);
    forall k | 0 <= k < |ids| ensures SlotIds(ids, perRank)[k] == a <==> ids[k] == Active(ids, perRank)[a] {
      assert SlotIds(ids, perRank)[k] == SlotsByExpert(ids, perRank)[ids[k]];
    }
    CountsAlike(SlotIds(ids, perRank), a, ids, Active(ids, perRank)[a]);
  }

  // ----- grouped matrix multiplication

  /** The group of row `i`: the first whose end offset exceeds it. */
  function GroupOf(offsets: seq<nat>, i: nat): (g: nat)
    ensures g <= |offsets|
  {
    if offsets == [] || i < offsets[0] then 0 else 1 + GroupOf(offsets[1..], i)
  }

  lemma {:induction false} GroupOfAt(offsets: seq<nat>, i: nat, g: nat)
    requires g < |offsets| && i < offsets[g] && forall h | 0 <= h < g :: offsets[h] <= i
    ensures GroupOf(offsets, i) == g
  {
    if g > 0 { GroupOfAt(offsets[1..], i, g - 1); }
  }

  function GroupedOffsets(ids: seq<nat>, perRank: nat): (offsets: seq<nat>)
    requires Indices(ids, perRank)
    ensures |offsets| == |Active(ids, perRank)|
  {
    Cumsum(Select(Counts(ids, perRank), Active(ids, perRank)))
  }

  lemma GroupedOffset(ids: seq<nat>, perRank: nat, g: nat)
    requires Indices(ids, perRank) && g < |Active(ids, perRank)|
    ensures GroupedOffsets(ids, perRank)[g] == Below(SlotIds(ids, perRank), g + 1)
  {
    var activeCounts := Select(Counts(ids, perRank), Active(ids, perRank));
    forall e: nat | e < |activeCounts| ensures activeCounts[e] == Count(SlotIds(ids, perRank), e) {
      SlotCount(ids, perRank, e);
    }
    CumsumIsBelow(SlotIds(ids, perRank), activeCounts, g);
  }

  /** Sorting by slot puts every row into its own expert's group. */
  lemma RowInItsGroup(ids: seq<nat>, perRank: nat, localOrder: seq<nat>, i: nat)
    requires Indices(ids, perRank) && Sorts(localOrder, SlotIds(ids, perRank)) && i < |localOrder|
    ensures GroupOf(GroupedOffsets(ids, perRank), i) == SlotIds(ids, perRank)[localOrder[i]]
  {
    var slots := SlotIds(ids, perRank);
    var g, offsets := slots[localOrder[i]], GroupedOffsets(ids, perRank);
    SortedPlace(slots, localOrder, i, g);
    GroupedOffset(ids, perRank, g);
    forall h: nat | h < g ensures offsets[h] <= i {
      GroupedOffset(ids, perRank, h);
      BelowMonotone(slots, h + 1, g);
    }
    GroupOfAt(offsets, i, g);
  }

  // ----- one expert rank

  function Mine(received: seq<int>, begin: nat, perRank: nat): (mask: seq<bool>)
    ensures |mask| == |received|
    ensures forall p | 0 <= p < |received| :: mask[p] == (begin <= received[p] < begin + perRank)
  {
    seq(|received|, p requires 0 <= p < |received| => begin <= received[p] < begin + perRank)
  }

  /** Local expert number of each received row that is this rank's, in place order. */
  function LocalIds(received: seq<int>, begin: nat, perRank: nat): (ids: seq<nat>)
    ensures |ids| == |NonZero(Mine(received, begin, perRank))| && Indices(ids, perRank)
    ensures forall k | 0 <= k < |ids| :: begin + ids[k] == received[NonZero(Mine(received, begin, perRank))[k]]
  {
    NonZeroDistinct(Mine(received, begin, perRank));
    var picked := NonZero(Mine(received, begin, perRank));
    assert forall k | 0 <= k < |picked| :: picked[k] in picked;
    seq(|picked|, k requires 0 <= k < |picked| => received[picked[k]] - begin)
  }

  ghost predicate LocallySorts(localOrder: seq<nat>, received: seq<int>, begin: nat, perRank: nat) {
    Sorts(localOrder, SlotIds(LocalIds(received, begin, perRank), perRank))
  }

  function ReturnIndices(received: seq<int>, begin: nat, perRank: nat, localOrder: seq<nat>): (r: seq<nat>)
    requires LocallySorts(localOrder, received, begin, perRank)
    ensures |r| == |localOrder| && Indices(r, |received|)
  {
    Select(NonZero(Mine(received, begin, perRank)), localOrder)
  }

  /** Row i of the grouped product: its group's expert applied to it, which is the expert it asked for. */
  function GroupedRow(f: Experts, received: seq<int>, tokens: seq<Vec>, width: nat, begin: nat, perRank: nat,
                      localOrder: seq<nat>, i: nat): (row: Vec)
    requires KeepsWidth(f, width) && |tokens| == |received| && Widths(tokens, width)
    requires LocallySorts(localOrder, received, begin, perRank)
    requires i < |localOrder|
    ensures var p := ReturnIndices(received, begin, perRank, localOrder)[i];
            |row| == width && received[p] >= 0 && row == f(received[p], tokens[p])
  {
    var ids := LocalIds(received, begin, perRank);
    RowInItsGroup(ids, perRank, localOrder, i);
    f(begin + Active(ids, perRank)[GroupOf(GroupedOffsets(ids, perRank), i)],
      tokens[ReturnIndices(received, begin, perRank, localOrder)[i]])
  }

  function GroupedRows(f: Experts, received: seq<int>, tokens: seq<Vec>, width: nat, begin: nat, perRank: nat,
                       localOrder: seq<nat>): (rows: seq<Vec>)
    requires KeepsWidth(f, width) && |tokens| == |received| && Widths(tokens, width)
    requires LocallySorts(localOrder, received, begin, perRank)
    ensures |rows| == |localOrder| && Widths(rows, width)
    ensures forall i | 0 <= i < |rows| ::
        rows[i] == GroupedRow(f, received, tokens, width, begin, perRank, localOrder, i)
  {
    seq(|localOrder|, i requires 0 <= i < |localOrder| =>
      GroupedRow(f, received, tokens, width, begin, perRank, localOrder, i))
  }

  function LocalReturn(f: Experts, received: seq<int>, tokens: seq<Vec>, width: nat, begin: nat, perRank: nat,
                       localOrder: seq<nat>): (out: seq<Vec>)
    requires KeepsWidth(f, width) && |tokens| == |received| && Widths(tokens, width)
    requires LocallySorts(localOrder, received, begin, perRank)
    ensures |out| == |received| && Widths(out, width)
  {
    IndexAdd(ZeroRows(|received|, width), ReturnIndices(received, begin, perRank, localOrder),
             GroupedRows(f, received, tokens, width, begin, perRank, localOrder), width)
  }

  lemma InOrder(order: seq<nat>, n: nat, k: nat) returns (i: nat)
    requires EachOnce(order, n) && k < n
    ensures i < |order| && order[i] == k
  {
    assert k in order by {
      assert Count(order, k) == 1;
      if k !in order { CountAbsent(order, k); }
    }
    i :| i < |order| && order[i] == k;
  }

  /** Grouping does not matter: every place of this rank's experts returns its own expert's row. */
  lemma PlaceReturns(f: Experts, received: seq<int>, tokens: seq<Vec>, width: nat, begin: nat, perRank: nat,
                     localOrder: seq<nat>, p: nat)
    requires KeepsWidth(f, width) && |tokens| == |received| && Widths(tokens, width)
    requires LocallySorts(localOrder, received, begin, perRank)
    requires p < |received| && begin <= received[p] < begin + perRank
    ensures LocalReturn(f, received, tokens, width, begin, perRank, localOrder)[p] == f(received[p], tokens[p])
  {
    var picked, ids := NonZero(Mine(received, begin, perRank)), LocalIds(received, begin, perRank);
    NonZeroDistinct(Mine(received, begin, perRank));
    assert p in picked;
    var k: nat :| k < |picked| && picked[k] == p;
    var i := InOrder(localOrder, |ids|, k);
    var places := ReturnIndices(received, begin, perRank, localOrder);
    ReturnIndicesDistinct(received, begin, perRank, localOrder);
    IndexAddStores(ZeroRows(|received|, width), places,
      GroupedRows(f, received, tokens, width, begin, perRank, localOrder), width, i);
  }

  lemma ReturnIndicesDistinct(received: seq<int>, begin: nat, perRank: nat, localOrder: seq<nat>)
    requires LocallySorts(localOrder, received, begin, perRank)
    ensures Distinct(ReturnIndices(received, begin, perRank, localOrder))
  {
    NonZeroDistinct(Mine(received, begin, perRank));
    SortsDistinct(localOrder, SlotIds(LocalIds(received, begin, perRank), perRank));
  }
}
