/** Ranks as mixed-radix numbers, the communication groups they fall into, and the layers of pipeline stages. */
module Topology {
  import opened Chunks
  import opened Results

  datatype Dims = Dims(data: nat, pipeline: nat, context: nat, tensor: nat, expert: nat, sequence: nat,
    microBatches: nat) {
    predicate Positive() {
      data > 0 && pipeline > 0 && context > 0 && tensor > 0 && expert > 0 && sequence > 0 && microBatches > 0
    }

    function World(): nat {
      data * pipeline * context * tensor * expert
    }
  }

  datatype ClusterSpec = ClusterSpec(worldSize: int, rank: int, localWorldSize: int, localRank: int, gpusPerNode: int,
    dims: Dims)

  function Validate(s: ClusterSpec): Result<()> {
    if s.worldSize <= 0 || s.localWorldSize <= 0 || s.gpusPerNode <= 0 || !s.dims.Positive() then
        Err("must be positive")
    else if s.rank < 0 || s.rank >= s.worldSize then Err("rank must be in [0, world_size)")
    else if s.localRank < 0 || s.localRank >= s.localWorldSize then Err("local_rank must be in [0, local_world_size)")
    else if s.worldSize != s.dims.World() then Err("world_size must equal the product of the dimensions")
    else if s.dims.pipeline > 1 && s.dims.microBatches < s.dims.pipeline then
      Err("pipeline parallelism needs at least as many micro_batches")
    else if s.dims.tensor > s.gpusPerNode then Err("tensor_parallel should fit within one node")
    else if s.dims.sequence > s.dims.tensor || s.dims.tensor % s.dims.sequence != 0 then
      Err("sequence_parallel must divide tensor_parallel")
    else if s.localWorldSize > s.gpusPerNode then Err("local_world_size cannot exceed gpus_per_node")
    else Ok(())
  }

  /** What `Validate` leaves of a specification for rank arithmetic. */
  predicate Usable(dims: Dims) {
    dims.Positive() && dims.tensor % dims.sequence == 0
  }

  // ----- coordinates

  datatype Coord = Coord(data: nat, pipeline: nat, context: nat, tensor: nat, expert: nat)

  predicate Inside(dims: Dims, c: Coord) {
    c.data < dims.data && c.pipeline < dims.pipeline && c.context < dims.context && c.tensor < dims.tensor
      && c.expert < dims.expert
  }

  function Digit(high: nat, low: nat, radix: nat): nat {
    high * radix + low
  }

  function RankOf(dims: Dims, c: Coord): nat {
    Digit(Digit(Digit(Digit(c.data, c.pipeline, dims.pipeline), c.context, dims.context), c.tensor, dims.tensor),
      c.expert, dims.expert)
  }

  function GlobalRank(dims: Dims, data: int, pipeline: int, context: int, tensor: int, expert: int): (r: Result<nat>)
    ensures r.Ok? <==> (0 <= data && 0 <= pipeline && 0 <= context && 0 <= tensor && 0 <= expert
                        && Inside(dims, Coord(data, pipeline, context, tensor, expert)))
  {
    if data < 0 || data >= dims.data || pipeline < 0 || pipeline >= dims.pipeline || context < 0
        || context >= dims.context
       || tensor < 0 || tensor >= dims.tensor || expert < 0 || expert >= dims.expert
    then Err("parallel rank coordinate out of range")
    else Ok(RankOf(dims, Coord(data, pipeline, context, tensor, expert)))
  }

  function CoordOf(dims: Dims, rank: nat): Coord
    requires dims.Positive()
  {
    var a: nat := rank / dims.expert;
    var b: nat := a / dims.tensor;
    var c: nat := b / dims.context;
    Coord(c / dims.pipeline, c % dims.pipeline, b % dims.context, a % dims.tensor, rank % dims.expert)
  }

  lemma TakeApart(high: nat, low: nat, radix: nat)
    requires low < radix
    ensures Digit(high, low, radix) / radix == high && Digit(high, low, radix) % radix == low
  {
    var n := Digit(high, low, radix);
    assert n == n / radix * radix + n % radix;
    SameChunk(high, low, n / radix, n % radix, radix);
  }

  lemma PutTogether(n: nat, radix: nat)
    requires radix > 0
    ensures Digit(n / radix, n % radix, radix) == n
  {
  }

  lemma DigitBelow(high: nat, low: nat, radix: nat, size: nat)
    requires high < size && low < radix
    ensures Digit(high, low, radix) < size * radix
  {
    InChunk(high, low, size, radix);
  }

  lemma HighBelow(n: nat, radix: nat, size: nat)
    requires radix > 0 && n < size * radix
    ensures n / radix < size
  {
    if n / radix >= size { MulAtLeast(n / radix, size, radix); }
  }

  /** Coordinates give ranks below the world size, and a rank gives its coordinates back. */
  lemma CoordOfRank(dims: Dims, c: Coord)
    requires dims.Positive() && Inside(dims, c)
    ensures RankOf(dims, c) < dims.World() && CoordOf(dims, RankOf(dims, c)) == c
  {
    var x := Digit(c.data, c.pipeline, dims.pipeline);
    var y := Digit(x, c.context, dims.context);
    var z := Digit(y, c.tensor, dims.tensor);
    DigitBelow(c.data, c.pipeline, dims.pipeline, dims.data);
    DigitBelow(x, c.context, dims.context, dims.data * dims.pipeline);
    DigitBelow(y, c.tensor, dims.tensor, dims.data * dims.pipeline * dims.context);
    DigitBelow(z, c.expert, dims.expert, dims.data * dims.pipeline * dims.context * dims.tensor);
    TakeApart(c.data, c.pipeline, dims.pipeline);
    TakeApart(x, c.context, dims.context);
    TakeApart(y, c.tensor, dims.tensor);
    TakeApart(z, c.expert, dims.expert);
  }

  /** Every rank of the world is the rank of its coordinates. */
  lemma RankOfCoord(dims: Dims, rank: nat)
    requires dims.Positive() && rank < dims.World()
    ensures Inside(dims, CoordOf(dims, rank)) && RankOf(dims, CoordOf(dims, rank)) == rank
  {
    var a := rank / dims.expert;
    var b := a / dims.tensor;
    var c := b / dims.context;
    HighBelow(rank, dims.expert, dims.data * dims.pipeline * dims.context * dims.tensor);
    HighBelow(a, dims.tensor, dims.data * dims.pipeline * dims.context);
    HighBelow(b, dims.context, dims.data * dims.pipeline);
    HighBelow(c, dims.pipeline, dims.data);
    PutTogether(rank, dims.expert);
    PutTogether(a, dims.tensor);
    PutTogether(b, dims.context);
    PutTogether(c, dims.pipeline);
  }

  // ----- groups along one axis

  datatype Axis = DataAxis | PipelineAxis | ContextAxis | TensorAxis | ExpertAxis

  function Size(dims: Dims, axis: Axis): nat {
    match axis
    case DataAxis => dims.data
    case PipelineAxis => dims.pipeline
    case ContextAxis => dims.context
    case TensorAxis => dims.tensor
    case ExpertAxis => dims.expert
  }

  function Along(c: Coord, axis: Axis): nat {
    match axis
    case DataAxis => c.data
    case PipelineAxis => c.pipeline
    case ContextAxis => c.context
    case TensorAxis => c.tensor
    case ExpertAxis => c.expert
  }

  function Moved(c: Coord, axis: Axis, i: nat): Coord {
    match axis
    case DataAxis => c.(data := i)
    case PipelineAxis => c.(pipeline := i)
    case ContextAxis => c.(context := i)
    case TensorAxis => c.(tensor := i)
    case ExpertAxis => c.(expert := i)
  }

  /** The ranks that differ from `c` along one axis only. */
  function Group(dims: Dims, c: Coord, axis: Axis): (group: seq<nat>)
    ensures |group| == Size(dims, axis) && forall i: nat | i < |group| :: group[i] == RankOf(dims, Moved(c, axis, i))
  {
    seq(Size(dims, axis), i requires 0 <= i < Size(dims, axis) => RankOf(dims, Moved(c, axis, i)))
  }

  /** Member `i` of a group has the group's coordinates but for `i` along the axis. */
  lemma MemberCoord(dims: Dims, c: Coord, axis: Axis, i: nat)
    requires dims.Positive() && Inside(dims, c) && i < Size(dims, axis)
    ensures Group(dims, c, axis)[i] < dims.World() && CoordOf(dims, Group(dims, c, axis)[i]) == Moved(c, axis, i)
  {
    CoordOfRank(dims, Moved(c, axis, i));
  }

  /** A group has no rank twice and holds its own rank at its own coordinate. */
  lemma GroupHoldsItsRank(dims: Dims, c: Coord, axis: Axis, i: nat, j: nat)
    requires dims.Positive() && Inside(dims, c) && i < Size(dims, axis) && j < Size(dims, axis)
    ensures Group(dims, c, axis)[i] == Group(dims, c, axis)[j] ==> i == j
    ensures Along(c, axis) < Size(dims, axis) && Group(dims, c, axis)[Along(c, axis)] == RankOf(dims, c)
  {
    MemberCoord(dims, c, axis, i);
    MemberCoord(dims, c, axis, j);
    assert Moved(c, axis, Along(c, axis)) == c;
  }

  /** Every member has the same group. */
  lemma GroupOfMember(dims: Dims, c: Coord, axis: Axis, member: nat)
    requires dims.Positive() && Inside(dims, c) && member in Group(dims, c, axis)
    ensures member < dims.World() && Group(dims, CoordOf(dims, member), axis) == Group(dims, c, axis)
  {
    var i :| 0 <= i < |Group(dims, c, axis)| && Group(dims, c, axis)[i] == member;
    MemberCoord(dims, c, axis, i);
    forall k: nat | k < Size(dims, axis) ensures Group(dims, Moved(c, axis, i), axis)[k] == Group(dims, c, axis)[k] {
      assert Moved(Moved(c, axis, i), axis, k) == Moved(c, axis, k);
    }
  }

  /** Two ranks' groups along an axis are the same or have no rank in common: the groups partition the world. */
  lemma GroupsPartition(dims: Dims, a: nat, b: nat, axis: Axis, shared: nat)
    requires dims.Positive() && a < dims.World() && b < dims.World()
    requires shared in Group(dims, CoordOf(dims, a), axis) && shared in Group(dims, CoordOf(dims, b), axis)
    ensures Group(dims, CoordOf(dims, a), axis) == Group(dims, CoordOf(dims, b), axis)
    ensures a in Group(dims, CoordOf(dims, a), axis)
  {
    RankOfCoord(dims, a);
    RankOfCoord(dims, b);
    GroupOfMember(dims, CoordOf(dims, a), axis, shared);
    GroupOfMember(dims, CoordOf(dims, b), axis, shared);
    GroupHoldsItsRank(dims, CoordOf(dims, a), axis, 0, 0);
  }

  // ----- sequence blocks and model groups

  function BlockBegin(dims: Dims, tensor: nat): nat
    requires dims.sequence > 0
  {
    tensor / dims.sequence * dims.sequence
  }

  lemma BlockInside(dims: Dims, tensor: nat)
    requires Usable(dims) && tensor < dims.tensor
    ensures BlockBegin(dims, tensor) <= tensor < BlockBegin(dims, tensor) + dims.sequence <= dims.tensor
  {
    var blocks, block := dims.tensor / dims.sequence, tensor / dims.sequence;
    assert dims.tensor == blocks * dims.sequence;
    HighBelow(tensor, dims.sequence, blocks);
    MulAtLeast(blocks, block + 1, dims.sequence);
    PutTogether(tensor, dims.sequence);
  }

  function BlockMember(dims: Dims, c: Coord, i: nat): nat
    requires dims.sequence > 0
  {
    RankOf(dims, c.(tensor := BlockBegin(dims, c.tensor) + i))
  }

  /** The ranks of the block of the tensor group that `c` lies in. */
  function SequenceGroup(dims: Dims, c: Coord): (group: seq<nat>)
    requires dims.sequence > 0
    ensures |group| == dims.sequence && forall i: nat | i < |group| :: group[i] == BlockMember(dims, c, i)
  {
    seq(dims.sequence, i requires 0 <= i < dims.sequence => BlockMember(dims, c, i))
  }

  /** The members of a sequence group share it, and it lies in the tensor group. */
  lemma SequenceGroupOfMember(dims: Dims, c: Coord, i: nat)
    requires Usable(dims) && Inside(dims, c) && i < dims.sequence
    ensures SequenceGroup(dims, c)[i] in Group(dims, c, TensorAxis)
    ensures SequenceGroup(dims, c)[c.tensor % dims.sequence] == RankOf(dims, c)
    ensures SequenceGroup(dims, CoordOf(dims, SequenceGroup(dims, c)[i])) == SequenceGroup(dims, c)
  {
    var begin := BlockBegin(dims, c.tensor);
    BlockInside(dims, c.tensor);
    PutTogether(c.tensor, dims.sequence);
    assert SequenceGroup(dims, c)[i] == Group(dims, c, TensorAxis)[begin + i];
    MemberCoord(dims, c, TensorAxis, begin + i);
    TakeApart(c.tensor / dims.sequence, i, dims.sequence);
    var member := c.(tensor := begin + i);
    assert BlockBegin(dims, begin + i) == begin;
    forall k: nat | k < dims.sequence ensures SequenceGroup(dims, member)[k] == SequenceGroup(dims, c)[k] {
      assert member.(tensor := begin + k) == c.(tensor := begin + k);
    }
  }

  /** How many ranks one data replica has. */
  function ReplicaSize(dims: Dims): nat {
    dims.pipeline * dims.context * dims.tensor * dims.expert
  }

  function InReplica(dims: Dims, pipeline: nat, context: nat, tensor: nat, expert: nat): nat {
    Digit(Digit(Digit(pipeline, context, dims.context), tensor, dims.tensor), expert, dims.expert)
  }

  /** A replica's ranks are the ones from `data * ReplicaSize` on. */
  lemma RankInReplica(dims: Dims, c: Coord)
    ensures RankOf(dims, c) == c.data * ReplicaSize(dims) + InReplica(dims, c.pipeline, c.context, c.tensor, c.expert)
  {
    var p, x := dims.pipeline, dims.context;
    Distribute(c.data, p, c.pipeline, x, c.context);
    Distribute(c.data, p * x, Digit(c.pipeline, c.context, x), dims.tensor, c.tensor);
    Distribute(c.data, p * x * dims.tensor, Digit(Digit(c.pipeline, c.context, x), c.tensor, dims.tensor), dims.expert,
      c.expert);
  }

  lemma Distribute(d: nat, size: nat, low: nat, radix: nat, digit: nat)
    ensures Digit(d * size + low, digit, radix) == d * (size * radix) + Digit(low, digit, radix)
  {
    assert (d * size + low) * radix == d * (size * radix) + low * radix;
  }

  /** Counting up from the first rank of a replica. */
  predicate CountsUp(group: seq<nat>, first: nat) {
    forall i: nat | i < |group| :: group[i] == first + i
  }

  /** The innermost loop: all experts of one pipeline, context and tensor rank. */
  method AppendExperts(dims: Dims, data: nat, pipeline: nat, context: nat, tensor: nat, before: seq<nat>)
    returns (group: seq<nat>)
    requires CountsUp(before, data * ReplicaSize(dims))
    requires |before| == Digit(Digit(pipeline, context, dims.context), tensor, dims.tensor) * dims.expert
    ensures CountsUp(group, data * ReplicaSize(dims))
    ensures |group| == (Digit(Digit(pipeline, context, dims.context), tensor, dims.tensor) + 1) * dims.expert
  {
    group := before;
    for e := 0 to dims.expert
      invariant CountsUp(group, data * ReplicaSize(dims)) && |group| == InReplica(dims, pipeline, context, tensor, e)
    {
      RankInReplica(dims, Coord(data, pipeline, context, tensor, e));
      group := group + [RankOf(dims, Coord(data, pipeline, context, tensor, e))];
    }
  }

  method AppendTensors(dims: Dims, data: nat, pipeline: nat, context: nat, before: seq<nat>) returns (group: seq<nat>)
    requires CountsUp(before, data * ReplicaSize(dims))
    requires |before| == Digit(pipeline, context, dims.context) * dims.tensor * dims.expert
    ensures CountsUp(group, data * ReplicaSize(dims))
    ensures |group| == (Digit(pipeline, context, dims.context) + 1) * dims.tensor * dims.expert
  {
    group := before;
    for t := 0 to dims.tensor
      invariant CountsUp(group, data * ReplicaSize(dims))
      invariant |group| == Digit(Digit(pipeline, context, dims.context), t, dims.tensor) * dims.expert
    {
      group := AppendExperts(dims, data, pipeline, context, t, group);
    }
    assert Digit(Digit(pipeline, context, dims.context), dims.tensor, dims.tensor)
      == (Digit(pipeline, context, dims.context) + 1) * dims.tensor;
  }

  /** rank_info's model group, by four nested loops: all ranks of the replica, in order. */
  method ModelGroup(dims: Dims, data: nat) returns (group: seq<nat>)
    ensures |group| == ReplicaSize(dims) && CountsUp(group, data * ReplicaSize(dims))
  {
    group := [];
    for p := 0 to dims.pipeline
      invariant CountsUp(group, data * ReplicaSize(dims)) && |group| == p * dims.context * dims.tensor * dims.expert
    {
      for c := 0 to dims.context
        invariant CountsUp(group, data * ReplicaSize(dims))
        invariant |group| == Digit(p, c, dims.context) * dims.tensor * dims.expert
      {
        group := AppendTensors(dims, data, p, c, group);
        assert Digit(p, c, dims.context) + 1 == Digit(p, c + 1, dims.context);
      }
      assert Digit(p, dims.context, dims.context) == (p + 1) * dims.context;
    }
  }

  // ----- rank_info

  datatype RankInfo = RankInfo(coord: Coord, sequenceRank: nat, dataGroup: seq<nat>, tensorGroup: seq<nat>,
    pipelineGroup: seq<nat>,
                               contextGroup: seq<nat>, expertGroup: seq<nat>, sequenceGroup: seq<nat>,
                                 modelGroup: seq<nat>)

  method AxisGroup(dims: Dims, c: Coord, axis: Axis) returns (group: seq<nat>)
    requires Inside(dims, c)
    ensures group == Group(dims, c, axis)
  {
    group := [];
    for i := 0 to Size(dims, axis)
      invariant |group| == i && forall k: nat | k < i :: group[k] == RankOf(dims, Moved(c, axis, k))
    {
      var m := Moved(c, axis, i);
      var r := GlobalRank(dims, m.data, m.pipeline, m.context, m.tensor, m.expert);
      group := group + [r.value];
    }
  }

  method BlockGroup(dims: Dims, c: Coord) returns (group: seq<nat>)
    requires Usable(dims) && Inside(dims, c)
    ensures group == SequenceGroup(dims, c)
  {
    var begin := BlockBegin(dims, c.tensor);
    BlockInside(dims, c.tensor);
    group := [];
    for t := begin to begin + dims.sequence
      invariant |group| == t - begin
      invariant forall k: nat | k < t - begin :: group[k] == RankOf(dims, c.(tensor := begin + k))
    {
      var r := GlobalRank(dims, c.data, c.pipeline, c.context, t, c.expert);
      group := group + [r.value];
    }
  }

  /** The coordinates are the rank's, and every group is the one of these coordinates. */
  predicate InfoIs(dims: Dims, rank: int, info: RankInfo)
    requires Usable(dims)
  {
    && Inside(dims, info.coord) && RankOf(dims, info.coord) == rank
      && info.sequenceRank == info.coord.tensor % dims.sequence
    && info.dataGroup == Group(dims, info.coord, DataAxis) && info.tensorGroup == Group(dims, info.coord, TensorAxis)
    && info.pipelineGroup == Group(dims, info.coord, PipelineAxis)
      && info.contextGroup == Group(dims, info.coord, ContextAxis)
    && info.expertGroup == Group(dims, info.coord, ExpertAxis) && info.sequenceGroup == SequenceGroup(dims, info.coord)
    && |info.modelGroup| == ReplicaSize(dims) && CountsUp(info.modelGroup, info.coord.data * ReplicaSize(dims))
  }

  predicate InWorld(dims: Dims, rank: nat) {
    rank < dims.World()
  }

  /** Dividing the running remainder. */
  method TakeCoord(dims: Dims, rank: nat) returns (c: Coord)
    requires dims.Positive() && InWorld(dims, rank)
    ensures Inside(dims, c) && RankOf(dims, c) == rank
  {
    var expert := rank % dims.expert;
    var rem: nat := rank / dims.expert;
    var tensor := rem % dims.tensor;
    rem := rem / dims.tensor;
    var context := rem % dims.context;
    rem := rem / dims.context;
    c := Coord(rem / dims.pipeline, rem % dims.pipeline, context, tensor, expert);
    assert c == CoordOf(dims, rank);
    RankIsInside(dims, rank, c);
  }

  lemma RankIsInside(dims: Dims, rank: nat, c: Coord)
    requires dims.Positive() && InWorld(dims, rank) && c == CoordOf(dims, rank)
    ensures Inside(dims, c) && RankOf(dims, c) == rank
  {
    RankOfCoord(dims, rank);
  }

  method RankInfoOf(dims: Dims, rank: int) returns (r: Result<RankInfo>)
    requires Usable(dims)
    ensures r.Ok? <==> 0 <= rank < dims.World()
    ensures r.Ok? ==> InfoIs(dims, rank, r.value)
  {
    if rank < 0 || rank >= dims.World() { return Err("rank out of range"); }
    var c := TakeCoord(dims, rank);
    var data := AxisGroup(dims, c, DataAxis);
    var tensors := AxisGroup(dims, c, TensorAxis);
    var pipeline := AxisGroup(dims, c, PipelineAxis);
    var contexts := AxisGroup(dims, c, ContextAxis);
    var experts := AxisGroup(dims, c, ExpertAxis);
    var block := BlockGroup(dims, c);
    var model := ModelGroup(dims, c.data);
    return Ok(RankInfo(c, c.tensor % dims.sequence, data, tensors, pipeline, contexts, experts, block, model));
  }

  /** What `Validate` accepts is usable: every call of global_rank inside rank_info is in range. */
  lemma ValidIsUsable(s: ClusterSpec)
    requires Validate(s).Ok?
    ensures Usable(s.dims) && s.worldSize == s.dims.World() && 0 <= s.rank < s.dims.World()
  {
  }

  /** Validation accepts exactly the specifications whose dimensions fill the world, whose rank and local rank
      exist, whose tensor groups fit a node and divide into sequence groups, and whose pipeline has work. */
  lemma ValidExactly(s: ClusterSpec)
    ensures Validate(s).Ok? <==>
              && s.dims.data > 0 && s.dims.pipeline > 0 && s.dims.context > 0 && s.dims.tensor > 0
              && s.dims.expert > 0 && s.dims.sequence > 0 && s.dims.microBatches > 0
              && s.worldSize == s.dims.data * s.dims.pipeline * s.dims.context * s.dims.tensor * s.dims.expert
              && 0 <= s.rank < s.worldSize && 0 <= s.localRank < s.localWorldSize <= s.gpusPerNode
              && (s.dims.pipeline == 1 || s.dims.pipeline <= s.dims.microBatches)
              && s.dims.tensor <= s.gpusPerNode
              && exists k: nat :: s.dims.tensor == Digit(k, 0, s.dims.sequence)
  {
    if s.dims.sequence > 0 {
      if s.dims.tensor % s.dims.sequence == 0 {
        assert s.dims.tensor == Digit(s.dims.tensor / s.dims.sequence, 0, s.dims.sequence);
      }
      forall k: nat | s.dims.tensor == Digit(k, 0, s.dims.sequence) ensures s.dims.tensor % s.dims.sequence == 0 {
        TakeApart(k, 0, s.dims.sequence);
      }
      if s.dims.tensor > 0 && s.dims.tensor % s.dims.sequence == 0 {
        PutTogether(s.dims.tensor, s.dims.sequence);
        assert s.dims.sequence <= s.dims.tensor;
      }
    }
  }

  /** A step along an axis moves the rank by the size of everything inside it: the data axis is outermost, then
      pipeline, context, tensor and expert. */
  lemma RankIsLinear(dims: Dims, c: Coord)
    ensures RankOf(dims, c)
         == c.data * (dims.pipeline * dims.context * dims.tensor * dims.expert)
          + c.pipeline * (dims.context * dims.tensor * dims.expert)
          + c.context * (dims.tensor * dims.expert)
          + c.tensor * dims.expert
          + c.expert
  {
    RankInReplica(dims, c);
    Distribute(c.pipeline, dims.context, c.context, dims.tensor, c.tensor);
    Distribute(c.pipeline, dims.context * dims.tensor, Digit(c.context, c.tensor, dims.tensor), dims.expert, c.expert);
    Distribute(c.context, dims.tensor, c.tensor, dims.expert, c.expert);
  }

  // ----- what the documentation says about ranks

  /** Tensor-parallel groups are contiguous exactly when there is no expert axis or nothing to be contiguous. */
  lemma TensorGroupContiguous(dims: Dims, c: Coord)
    requires dims.Positive() && Inside(dims, c)
    ensures CountsUp(Group(dims, c, TensorAxis), Group(dims, c, TensorAxis)[0])
        <==> dims.expert == 1 || dims.tensor == 1
  {
    var group := Group(dims, c, TensorAxis);
    forall i: nat | i < dims.tensor ensures group[i] == group[0] + i * dims.expert {
      Stride(Digit(Digit(c.data, c.pipeline, dims.pipeline), c.context, dims.context), dims.tensor, i, dims.expert,
        c.expert);
    }
    if dims.expert > 1 && dims.tensor > 1 {
      assert group[1] == group[0] + 1 * dims.expert;
    }
  }

  lemma Stride(high: nat, tensor: nat, i: nat, expert: nat, e: nat)
    ensures Digit(Digit(high, i, tensor), e, expert) == Digit(Digit(high, 0, tensor), e, expert) + i * expert
  {
    assert (high * tensor + i) * expert == high * tensor * expert + i * expert;
  }

  function DocumentedRank(dims: Dims, c: Coord): nat {
    Digit(Digit(c.data, c.pipeline, dims.pipeline), c.tensor, dims.tensor)
  }

  /** The documented formula gives every rank exactly when there is neither a context nor an expert axis. */
  lemma DocumentedRankExact(dims: Dims)
    requires dims.Positive()
    ensures (forall c | Inside(dims, c) :: RankOf(dims, c) == DocumentedRank(dims, c))
        <==> dims.context == 1 && dims.expert == 1
  {
    if dims.expert > 1 {
      assert RankOf(dims, Coord(0, 0, 0, 0, 1)) == 1 && DocumentedRank(dims, Coord(0, 0, 0, 0, 1)) == 0;
    } else if dims.context > 1 {
      assert RankOf(dims, Coord(0, 0, 1, 0, 0)) == dims.tensor && DocumentedRank(dims, Coord(0, 0, 1, 0, 0)) == 0;
    }
  }

  // ----- pipeline layers

  datatype LayerRange = LayerRange(begin: int, end: int)

  function PipelineLayerRange(stages: nat, layers: int, stage: int): (r: Result<LayerRange>)
    requires stages > 0
    ensures r.Ok? <==> layers >= 0 && 0 <= stage < stages
  {
    if layers < 0 then Err("num_layers must be non-negative")
    else if stage < 0 || stage >= stages then Err("pipeline rank out of range")
    else
      var base, rem := layers / stages, layers % stages;
      var begin := stage * base + (if stage <= rem then stage else rem);
      Ok(LayerRange(begin, begin + base + (if stage < rem then 1 else 0)))
  }

  /** The stages' ranges start at layer 0, follow one another, end at the last layer, and hold
      a stage's even share of the layers or one more. */
  lemma LayersTile(stages: nat, layers: nat, stage: nat, range: LayerRange)
    requires stage < stages && PipelineLayerRange(stages, layers, stage) == Ok(range)
    ensures layers / stages <= range.end - range.begin <= layers / stages + 1
    ensures stage == 0 ==> range.begin == 0
    ensures stage == stages - 1 ==> range.end == layers
    ensures stage + 1 < stages ==> PipelineLayerRange(stages, layers, stage + 1).value.begin == range.end
  {
    var base, rem := layers / stages, layers % stages;
    assert layers == stages * base + rem;
    assert (stage + 1) * base == stage * base + base;
  }

  /** Every layer lies in exactly one stage. */
  lemma {:induction false} LayerHasOneStage(stages: nat, layers: nat, layer: nat, n: nat) returns (stage: nat)
    requires 0 < n <= stages && layer < PipelineLayerRange(stages, layers, n - 1).value.end
    ensures stage < n && StageHolds(stages, layers, stage, layer)
    ensures forall s: nat | s < n :: StageHolds(stages, layers, s, layer) ==> s == stage
  {
    LayersTile(stages, layers, n - 1, PipelineLayerRange(stages, layers, n - 1).value);
    if n > 1 { LayersTile(stages, layers, n - 2, PipelineLayerRange(stages, layers, n - 2).value); }
    if n == 1 || layer >= PipelineLayerRange(stages, layers, n - 1).value.begin {
      stage := n - 1;
      forall s: nat | s < n && StageHolds(stages, layers, s, layer) ensures s == stage {
        if s < n - 1 { EarlierEnds(stages, layers, s, n - 1); }
      }
    } else {
      stage := LayerHasOneStage(stages, layers, layer, n - 1);
    }
  }

  predicate StageHolds(stages: nat, layers: nat, stage: nat, layer: nat)
    requires stage < stages
  {
    var range := PipelineLayerRange(stages, layers, stage).value;
    range.begin <= layer < range.end
  }

  lemma {:induction false} EarlierEnds(stages: nat, layers: nat, s: nat, t: nat)
    requires s < t < stages
    ensures PipelineLayerRange(stages, layers, s).value.end <= PipelineLayerRange(stages, layers, t).value.begin
    decreases t - s
  {
    hide PipelineLayerRange;
    LayersTile(stages, layers, s, PipelineLayerRange(stages, layers, s).value);
    if s + 1 < t {
      LayersTile(stages, layers, s + 1, PipelineLayerRange(stages, layers, s + 1).value);
      EarlierEnds(stages, layers, s + 1, t);
    }
  }
}
