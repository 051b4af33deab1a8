/** Sending tensors in buckets between two processes, and bucketed collectives over all ranks. */
module BucketTransfer {
  import opened Buckets
  import opened Results
  import opened Vectors

  predicate Sized(metas: seq<Meta>, tensors: seq<Vec>) {
    |tensors| == |metas| && forall k | 0 <= k < |tensors| :: |tensors[k]| == metas[k].numel
  }

  function NumelOf(metas: seq<Meta>, begin: nat, end: nat): nat
    requires end <= |metas|
  {
    if begin >= end then 0 else NumelOf(metas, begin, end - 1) + metas[end - 1].numel
  }

  /** The payload of a bucket: its tensors one behind the other. */
  function FlatOf(metas: seq<Meta>, tensors: seq<Vec>, begin: nat, end: nat): (flat: Vec)
    requires Sized(metas, tensors) && end <= |metas|
    ensures |flat| == NumelOf(metas, begin, end)
  {
    if begin >= end then [] else FlatOf(metas, tensors, begin, end - 1) + tensors[end - 1]
  }

  method FlattenBucket(metas: seq<Meta>, tensors: seq<Vec>, b: Bucket) returns (flat: Vec)
    requires Sized(metas, tensors) && b.begin < b.end <= |metas|
    ensures flat == FlatOf(metas, tensors, b.begin, b.end)
  {
    var total: nat := 0;
    for k := b.begin to b.end
      invariant total == NumelOf(metas, b.begin, k)
    {
      total := total + metas[k].numel;
    }
    if b.end == b.begin + 1 {
      OneFlat(metas, tensors, b.begin);
      return tensors[b.begin];
    }
    flat := Zeros(total);
    var offset: nat := 0;
    for k := b.begin to b.end
      invariant offset == NumelOf(metas, b.begin, k) && |flat| == total
      invariant offset <= total && flat[..offset] == FlatOf(metas, tensors, b.begin, k)
    {
      NumelGrows(metas, b.begin, k + 1, b.end);
      CopyBehind(flat, offset, tensors[k]);
      flat := CopyInto(flat, offset, tensors[k]);
      offset := offset + metas[k].numel;
    }
    assert flat[..offset] == flat;
  }

  lemma OneFlat(metas: seq<Meta>, tensors: seq<Vec>, k: nat)
    requires Sized(metas, tensors) && k < |metas|
    ensures FlatOf(metas, tensors, k, k + 1) == tensors[k]
  {
    assert FlatOf(metas, tensors, k, k) + tensors[k] == tensors[k];
  }

  lemma CopyBehind(flat: Vec, offset: nat, part: Vec)
    requires offset + |part| <= |flat|
    ensures CopyInto(flat, offset, part)[..offset + |part|] == flat[..offset] + part
  {
  }

  lemma {:induction false} NumelGrows(metas: seq<Meta>, begin: nat, k: nat, end: nat)
    requires begin <= k <= end <= |metas|
    ensures NumelOf(metas, begin, k) <= NumelOf(metas, begin, end)
    decreases end
  {
    if k < end { NumelGrows(metas, begin, k, end - 1); }
  }

  /** Where tensor `k` stands in the payload of its bucket. */
  lemma {:induction false} FlatAt(metas: seq<Meta>, tensors: seq<Vec>, begin: nat, k: nat, end: nat)
    requires Sized(metas, tensors) && begin <= k < end <= |metas|
    ensures NumelOf(metas, begin, k) + metas[k].numel <= NumelOf(metas, begin, end)
    ensures FlatOf(metas, tensors, begin, end)[NumelOf(metas, begin, k)..NumelOf(metas, begin, k) + metas[k].numel]
        == tensors[k]
    decreases end
  {
    if k < end - 1 {
      FlatAt(metas, tensors, begin, k, end - 1);
      SliceOfFront(FlatOf(metas, tensors, begin, end - 1), tensors[end - 1], NumelOf(metas, begin, k), metas[k].numel);
    }
  }

  lemma SliceOfFront(a: Vec, b: Vec, from: nat, n: nat)
    requires from + n <= |a|
    ensures (a + b)[from..from + n] == a[from..from + n]
  {
  }

  /** The tensors after a bucket's payload has been copied back over them. */
  function Unflattened(metas: seq<Meta>, tensors: seq<Vec>, b: Bucket, flat: Vec): (next: seq<Vec>)
    requires Sized(metas, tensors) && b.begin <= b.end <= |metas| && |flat| == NumelOf(metas, b.begin, b.end)
    ensures Sized(metas, next)
  {
    seq(|tensors|, k requires 0 <= k < |tensors| =>
      if b.begin <= k < b.end then TensorFrom(metas, b, flat, k) else tensors[k])
  }

  function TensorFrom(metas: seq<Meta>, b: Bucket, flat: Vec, k: nat): (tensor: Vec)
    requires b.begin <= k < b.end <= |metas| && |flat| == NumelOf(metas, b.begin, b.end)
    ensures |tensor| == metas[k].numel
  {
    NumelGrows(metas, b.begin, k + 1, b.end);
    flat[NumelOf(metas, b.begin, k)..NumelOf(metas, b.begin, k) + metas[k].numel]
  }

  /** The bucket's tensors before `k` have been copied back. */
  predicate CopiedBack(metas: seq<Meta>, tensors: seq<Vec>, b: Bucket, flat: Vec, next: seq<Vec>, k: nat)
    requires Sized(metas, tensors) && b.begin <= k <= b.end <= |metas| && |flat| == NumelOf(metas, b.begin, b.end)
  {
    |next| == |tensors|
    && forall j | 0 <= j < |next| :: next[j] == if b.begin <= j < k then TensorFrom(metas, b, flat, j) else tensors[j]
  }

  lemma CopyBackNext(metas: seq<Meta>, tensors: seq<Vec>, b: Bucket, flat: Vec, next: seq<Vec>, k: nat, tensor: Vec)
    requires Sized(metas, tensors) && b.begin <= k < b.end <= |metas| && |flat| == NumelOf(metas, b.begin, b.end)
    requires CopiedBack(metas, tensors, b, flat, next, k) && tensor == TensorFrom(metas, b, flat, k)
    ensures CopiedBack(metas, tensors, b, flat, next[k := tensor], k + 1)
  {
  }

  lemma NothingCopiedBack(metas: seq<Meta>, tensors: seq<Vec>, b: Bucket, flat: Vec)
    requires Sized(metas, tensors) && b.begin <= b.end <= |metas| && |flat| == NumelOf(metas, b.begin, b.end)
    ensures CopiedBack(metas, tensors, b, flat, tensors, b.begin)
  {
  }

  lemma AllCopiedBack(metas: seq<Meta>, tensors: seq<Vec>, b: Bucket, flat: Vec, next: seq<Vec>)
    requires Sized(metas, tensors) && b.begin <= b.end <= |metas| && |flat| == NumelOf(metas, b.begin, b.end)
    requires CopiedBack(metas, tensors, b, flat, next, b.end)
    ensures next == Unflattened(metas, tensors, b, flat)
  {
  }

  method UnflattenBucket(metas: seq<Meta>, tensors: seq<Vec>, b: Bucket, flat: Vec) returns (next: seq<Vec>)
    requires Sized(metas, tensors) && b.begin <= b.end <= |metas| && |flat| == NumelOf(metas, b.begin, b.end)
    ensures next == Unflattened(metas, tensors, b, flat)
  {
    hide Unflattened, CopiedBack;
    next := tensors;
    var offset: nat := 0;
    NothingCopiedBack(metas, tensors, b, flat);
    for k := b.begin to b.end
      invariant |next| == |tensors|
      invariant offset == NumelOf(metas, b.begin, k) && CopiedBack(metas, tensors, b, flat, next, k)
    {
      NumelGrows(metas, b.begin, k + 1, b.end);
      var tensor := flat[offset..offset + metas[k].numel];
      CopyBackNext(metas, tensors, b, flat, next, k, tensor);
      next := next[k := tensor];
      offset := offset + metas[k].numel;
    }
    AllCopiedBack(metas, tensors, b, flat, next);
  }

  // ----- sending and receiving

  datatype Message = Message(dtype: int, payload: Vec)

  function MessageOf(metas: seq<Meta>, tensors: seq<Vec>, b: Bucket): Message
    requires Sized(metas, tensors) && b.begin < b.end <= |metas|
  {
    Message(metas[b.begin].dtype, FlatOf(metas, tensors, b.begin, b.end))
  }

  predicate InList(metas: seq<Meta>, buckets: seq<Bucket>) {
    forall k | 0 <= k < |buckets| :: buckets[k].begin < buckets[k].end <= |metas|
  }

  function MessagesOf(metas: seq<Meta>, tensors: seq<Vec>, buckets: seq<Bucket>): seq<Message>
    requires Sized(metas, tensors) && InList(metas, buckets)
  {
    if buckets == [] then [] else [MessageOf(metas, tensors, buckets[0])] + MessagesOf(metas, tensors, buckets[1..])
  }

  lemma {:induction false} BucketsInList(metas: seq<Meta>, begin: nat, i: nat, limit: nat)
    requires begin <= i <= |metas|
    ensures InList(metas, BucketsFrom(metas, begin, i, limit))
    decreases |metas| - i
  {
    if i < |metas| {
      if Flushes(metas, begin, i, limit) {
        BucketsInList(metas, i, i + 1, limit);
      } else {
        BucketsInList(metas, begin, i + 1, limit);
      }
    }
  }

  /** What is sent while tensors from `begin` up to `i` wait in the current bucket. */
  function Remaining(metas: seq<Meta>, tensors: seq<Vec>, begin: nat, i: nat, limit: nat): seq<Message>
    requires Sized(metas, tensors) && begin <= i <= |metas|
  {
    BucketsInList(metas, begin, i, limit);
    MessagesOf(metas, tensors, BucketsFrom(metas, begin, i, limit))
  }

  predicate Named(metas: seq<Meta>) {
    forall k | 0 <= k < |metas| :: metas[k].name != ""
  }

  lemma RemainingStep(metas: seq<Meta>, tensors: seq<Vec>, begin: nat, i: nat, limit: nat)
    requires Sized(metas, tensors) && begin <= i < |metas|
    ensures Remaining(metas, tensors, begin, i, limit)
         == if Flushes(metas, begin, i, limit)
            then [MessageOf(metas, tensors, Bucket(begin, i))] + Remaining(metas, tensors, i, i + 1, limit)
            else Remaining(metas, tensors, begin, i + 1, limit)
  {
    if Flushes(metas, begin, i, limit) {
      var rest := BucketsFrom(metas, i, i + 1, limit);
      BucketsInList(metas, i, i + 1, limit);
      assert ([Bucket(begin, i)] + rest)[1..] == rest;
    }
  }

  lemma RemainingEnd(metas: seq<Meta>, tensors: seq<Vec>, begin: nat, limit: nat)
    requires Sized(metas, tensors) && begin <= |metas|
    ensures Remaining(metas, tensors, begin, |metas|, limit)
         == if begin < |metas| then [MessageOf(metas, tensors, Bucket(begin, |metas|))] else []
  {
    if begin < |metas| {
      var last := Bucket(begin, |metas|);
      assert BucketsFrom(metas, begin, |metas|, limit) == [last];
      assert MessagesOf(metas, tensors, [last]) == [MessageOf(metas, tensors, last)] + MessagesOf(metas, tensors, []);
    }
  }

  /** send_parameter_shards: `sent` is what goes to the peer, in order. */
  method SendShards(metas: seq<Meta>, tensors: seq<Vec>, bucketBytes: int) returns (r: Result<seq<Message>>)
    requires Sized(metas, tensors)
    ensures r.Ok? <==> bucketBytes > 0 && Named(metas)
    ensures r.Ok? ==> r.value == Remaining(metas, tensors, 0, 0, bucketBytes)
  {
    hide Remaining, MessagesOf, BucketsFrom, NumelOf;
    if bucketBytes <= 0 { return Err("send_parameter_shards bucket_bytes must be positive"); }
    var sent: seq<Message> := [];
    var begin, i, currentBytes: nat, haveBucket := 0, 0, 0, false;
    while i < |metas|
      invariant 0 <= begin <= i <= |metas| && currentBytes == BytesOf(metas, begin, i) && (haveBucket <==> begin < i)
      invariant sent + Remaining(metas, tensors, begin, i, bucketBytes) == Remaining(metas, tensors, 0, 0, bucketBytes)
      invariant forall k | 0 <= k < i :: metas[k].name != ""
    {
      if metas[i].name == "" { return Err("parameter name must not be empty"); }
      var incompatible := haveBucket && !metas[i].SameKind(metas[begin]);
      var wouldOverflow := haveBucket && currentBytes + metas[i].Bytes() > bucketBytes;
      RemainingStep(metas, tensors, begin, i, bucketBytes);
      if incompatible || wouldOverflow {
        var payload := FlattenBucket(metas, tensors, Bucket(begin, i));
        sent := sent + [Message(metas[begin].dtype, payload)];
        begin, currentBytes, haveBucket := i, 0, false;
      }
      haveBucket, currentBytes, i := true, currentBytes + metas[i].Bytes(), i + 1;
    }
    RemainingEnd(metas, tensors, begin, bucketBytes);
    if haveBucket {
      var payload := FlattenBucket(metas, tensors, Bucket(begin, i));
      sent := sent + [Message(metas[begin].dtype, payload)];
    }
    return Ok(sent);
  }

  /** Copying each message over its bucket; nothing when one is missing or does not match. */
  function Received(metas: seq<Meta>, tensors: seq<Vec>, messages: seq<Message>,
                    buckets: seq<Bucket>): Option<(seq<Vec>, seq<Message>)>
    requires Sized(metas, tensors) && InList(metas, buckets)
    decreases |buckets|
  {
    if buckets == [] then Some((tensors, messages))
    else if messages == [] || !Matches(metas, messages[0], buckets[0]) then None
    else Received(metas, Unflattened(metas, tensors, buckets[0], messages[0].payload), messages[1..], buckets[1..])
  }

  predicate Matches(metas: seq<Meta>, m: Message, b: Bucket)
    requires b.begin < b.end <= |metas|
  {
    |m.payload| == NumelOf(metas, b.begin, b.end) && m.dtype == metas[b.begin].dtype
  }

  /** Receiving succeeds exactly when there is a message for every bucket, in order, with as many elements as the
      bucket's tensors have together and their dtype; what follows those messages is left. */
  lemma {:induction false} ReceivesExactly(metas: seq<Meta>, tensors: seq<Vec>, messages: seq<Message>,
                                           buckets: seq<Bucket>)
    requires Sized(metas, tensors) && InList(metas, buckets)
    ensures Received(metas, tensors, messages, buckets).Some? <==>
              && |buckets| <= |messages|
              && forall k | 0 <= k < |buckets| ::
                   && |messages[k].payload| == NumelOf(metas, buckets[k].begin, buckets[k].end)
                   && messages[k].dtype == metas[buckets[k].begin].dtype
    ensures Received(metas, tensors, messages, buckets).Some? ==>
              |buckets| <= |messages| && Received(metas, tensors, messages, buckets).value.1 == messages[|buckets|..]
    decreases |buckets|
  {
    hide NumelOf, Unflattened;
    if buckets != [] && messages != [] && Matches(metas, messages[0], buckets[0]) {
      var next := Unflattened(metas, tensors, buckets[0], messages[0].payload);
      ReceivesExactly(metas, next, messages[1..], buckets[1..]);
      forall k | 0 < k < |buckets| && k < |messages|
        ensures buckets[k] == buckets[1..][k - 1] && messages[k] == messages[1..][k - 1] {}
      assert forall k | 0 <= k < |buckets[1..]| :: buckets[1..][k] == buckets[k + 1];
      assert |messages| >= |buckets| ==> forall k | 0 <= k < |buckets[1..]| :: messages[1..][k] == messages[k + 1];
    }
  }

  function ReceivedFrom(metas: seq<Meta>, tensors: seq<Vec>, messages: seq<Message>, begin: nat, i: nat,
                        limit: nat): Option<(seq<Vec>, seq<Message>)>
    requires Sized(metas, tensors) && begin <= i <= |metas|
  {
    BucketsInList(metas, begin, i, limit);
    Received(metas, tensors, messages, BucketsFrom(metas, begin, i, limit))
  }

  lemma ReceivedFlush(metas: seq<Meta>, tensors: seq<Vec>, messages: seq<Message>, begin: nat, i: nat, limit: nat)
    requires Sized(metas, tensors) && begin <= i < |metas| && Flushes(metas, begin, i, limit)
    ensures ReceivedFrom(metas, tensors, messages, begin, i, limit)
         == if messages == [] || !Matches(metas, messages[0], Bucket(begin, i)) then None
            else ReceivedFrom(metas, Unflattened(metas, tensors, Bucket(begin, i), messages[0].payload), messages[1..],
              i, i + 1, limit)
  {
    var rest := BucketsFrom(metas, i, i + 1, limit);
    BucketsInList(metas, i, i + 1, limit);
    assert ([Bucket(begin, i)] + rest)[1..] == rest;
  }

  lemma ReceivedStay(metas: seq<Meta>, tensors: seq<Vec>, messages: seq<Message>, begin: nat, i: nat, limit: nat)
    requires Sized(metas, tensors) && begin <= i < |metas| && !Flushes(metas, begin, i, limit)
    ensures ReceivedFrom(metas, tensors, messages, begin, i, limit)
        == ReceivedFrom(metas, tensors, messages, begin, i + 1, limit)
  {
  }

  lemma ReceivedLast(metas: seq<Meta>, tensors: seq<Vec>, messages: seq<Message>, begin: nat, limit: nat)
    requires Sized(metas, tensors) && begin <= |metas|
    ensures ReceivedFrom(metas, tensors, messages, begin, |metas|, limit)
         == if begin == |metas| then Some((tensors, messages))
            else if messages == [] || !Matches(metas, messages[0], Bucket(begin, |metas|)) then None
            else Some((Unflattened(metas, tensors, Bucket(begin, |metas|), messages[0].payload), messages[1..]))
  {
    if begin < |metas| {
      var last := Bucket(begin, |metas|);
      assert BucketsFrom(metas, begin, |metas|, limit) == [last] && [last][1..] == [];
      if messages != [] && Matches(metas, messages[0], last) {
        NothingToReceive(metas, Unflattened(metas, tensors, last, messages[0].payload), messages[1..]);
      }
    }
  }

  lemma NothingToReceive(metas: seq<Meta>, tensors: seq<Vec>, messages: seq<Message>)
    requires Sized(metas, tensors)
    ensures Received(metas, tensors, messages, []) == Some((tensors, messages))
  {
  }

  /** The destination tensors, overwritten in place. */
  class Destination {
    const metas: seq<Meta>
    var tensors: seq<Vec>

    constructor (metas: seq<Meta>, tensors: seq<Vec>)
      requires Sized(metas, tensors)
      ensures Valid() && this.metas == metas && this.tensors == tensors
    {
      this.metas, this.tensors := metas, tensors;
    }

    predicate Valid()
      reads this
    {
      Sized(metas, tensors)
    }

    /** recv_parameter_shards: takes its messages off the front of `messages`. */
    method ReceiveShards(messages: seq<Message>, bucketBytes: int) returns (r: Result<seq<Message>>)
      requires Valid()
      modifies this`tensors
      ensures Valid()
      ensures r.Ok? <==>
                bucketBytes > 0 && Named(metas) && ReceivedFrom(metas, old(tensors), messages, 0, 0, bucketBytes).Some?
      ensures r.Ok? ==> ReceivedFrom(metas, old(tensors), messages, 0, 0, bucketBytes) == Some((tensors, r.value))
    {
      hide ReceivedFrom, Received, Matches, Unflattened, BucketsFrom, FlatOf, NumelOf;
      if bucketBytes <= 0 { return Err("recv_parameter_shards bucket_bytes must be positive"); }
      ghost var result := ReceivedFrom(metas, tensors, messages, 0, 0, bucketBytes);
      var queue := messages;
      var begin, i, currentBytes: nat, haveBucket := 0, 0, 0, false;
      while i < |metas|
        invariant 0 <= begin <= i <= |metas| && currentBytes == BytesOf(metas, begin, i) && (haveBucket <==> begin < i)
        invariant Valid() && ReceivedFrom(metas, tensors, queue, begin, i, bucketBytes) == result
        invariant forall k | 0 <= k < i :: metas[k].name != ""
      {
        if metas[i].name == "" { return Err("parameter name must not be empty"); }
        var incompatible := haveBucket && !metas[i].SameKind(metas[begin]);
        var wouldOverflow := haveBucket && currentBytes + metas[i].Bytes() > bucketBytes;
        if incompatible || wouldOverflow {
          ReceivedFlush(metas, tensors, queue, begin, i, bucketBytes);
          queue :- ReceiveBucket(Bucket(begin, i), queue);
          begin, currentBytes, haveBucket := i, 0, false;
        } else {
          ReceivedStay(metas, tensors, queue, begin, i, bucketBytes);
        }
        haveBucket, currentBytes, i := true, currentBytes + metas[i].Bytes(), i + 1;
      }
      ReceivedLast(metas, tensors, queue, begin, bucketBytes);
      if haveBucket {
        queue :- ReceiveBucket(Bucket(begin, i), queue);
      }
      return Ok(queue);
    }

    method ReceiveBucket(b: Bucket, queue: seq<Message>) returns (r: Result<seq<Message>>)
      requires Valid() && b.begin < b.end <= |metas|
      modifies this`tensors
      ensures Valid()
      ensures r.Ok? <==> queue != [] && Matches(metas, queue[0], b)
      ensures r.Ok? ==> r.value == queue[1..] && tensors == Unflattened(metas, old(tensors), b, queue[0].payload)
    {
      var total: nat := 0;
      for k := b.begin to b.end
        invariant total == NumelOf(metas, b.begin, k)
      {
        total := total + metas[k].numel;
      }
      if queue == [] { return Err("no message"); }
      if |queue[0].payload| != total || queue[0].dtype != metas[b.begin].dtype {
        return Err("received incompatible parameter shard bucket");
      }
      var next := UnflattenBucket(metas, tensors, b, queue[0].payload);
      tensors := next;
      return Ok(queue[1..]);
    }
  }

  // ----- the transfer is the identity

  lemma UnflattenOwn(metas: seq<Meta>, source: seq<Vec>, tensors: seq<Vec>, b: Bucket, k: nat)
    requires Sized(metas, source) && Sized(metas, tensors) && b.begin < b.end <= |metas| && k < |metas|
    ensures Unflattened(metas, tensors, b, FlatOf(metas, source, b.begin, b.end))[k]
        == if b.begin <= k < b.end then source[k] else tensors[k]
  {
    if b.begin <= k < b.end { FlatAt(metas, source, b.begin, k, b.end); }
  }

  /** Receiving what was sent from `begin` on turns the rest of the tensors into the source's. */
  lemma {:induction false} ReceiveWhatWasSent(metas: seq<Meta>, source: seq<Vec>, tensors: seq<Vec>,
                                              more: seq<Message>, buckets: seq<Bucket>, begin: nat)
    requires Sized(metas, source) && Sized(metas, tensors) && Chained(buckets, begin, |metas|) && InList(metas, buckets)
    requires forall k | 0 <= k < begin && k < |metas| :: tensors[k] == source[k]
    ensures Received(metas, tensors, MessagesOf(metas, source, buckets) + more, buckets) == Some((source, more))
    decreases |buckets|
  {
    if buckets == [] {
      assert tensors == source;
      assert MessagesOf(metas, source, buckets) + more == more;
    } else {
      var b := buckets[0];
      var flat := FlatOf(metas, source, b.begin, b.end);
      var next := Unflattened(metas, tensors, b, flat);
      forall k | 0 <= k < b.end ensures next[k] == source[k] { UnflattenOwn(metas, source, tensors, b, k); }
      var rest := MessagesOf(metas, source, buckets[1..]) + more;
      HeadMessage(MessageOf(metas, source, b), MessagesOf(metas, source, buckets[1..]), more);
      ReceiveWhatWasSent(metas, source, next, more, buckets[1..], b.end);
    }
  }

  lemma HeadMessage<T>(x: T, xs: seq<T>, more: seq<T>)
    ensures ([x] + xs + more)[0] == x && ([x] + xs + more)[1..] == xs + more
  {
  }

  /** Same metadata on both sides and any positive bucket size: all messages are consumed and the destination
      ends equal to the source. */
  lemma TransferIsIdentity(metas: seq<Meta>, source: seq<Vec>, tensors: seq<Vec>, limit: nat, messages: seq<Message>)
    requires Sized(metas, source) && Sized(metas, tensors) && messages == Remaining(metas, source, 0, 0, limit)
    ensures ReceivedFrom(metas, tensors, messages, 0, 0, limit) == Some((source, []))
  {
    var buckets := BucketsFrom(metas, 0, 0, limit);
    BucketsInList(metas, 0, 0, limit);
    BucketsAreGreedy(metas, 0, 0, limit);
    ReceiveWhatWasSent(metas, source, tensors, [], buckets, 0);
    assert messages + [] == messages;
  }

  /** A sender and a receiver with the same metadata. */
  method Transfer(metas: seq<Meta>, source: seq<Vec>, destination: Destination, bucketBytes: int)
    returns (r: Result<seq<Message>>)
    requires destination.Valid() && Sized(metas, source) && destination.metas == metas
    modifies destination`tensors
    ensures r.Ok? <==> bucketBytes > 0 && Named(metas)
    ensures r.Ok? ==> destination.tensors == source && r.value == []
  {
    var messages :- SendShards(metas, source, bucketBytes);
    TransferIsIdentity(metas, source, destination.tensors, bucketBytes, messages);
    r := destination.ReceiveShards(messages, bucketBytes);
  }
}
