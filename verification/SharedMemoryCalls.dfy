/** Which id every call gets, what the handler sees of it, and what it returns. */
module SharedMemoryCalls {
  import opened LittleEndian
  import opened Results
  import opened RolloutMessages
  import opened SharedMemory

  /** A call that has begun: its request and the id it goes by. */
  datatype Begun = Begun(q: Request, id: U64)

  function Current(client: Client): seq<Begun> {
    match client
    case Idle => []
    case Numbered(q, id) => [Begun(q, id)]
    case Written(q, id, _) => [Begun(q, id)]
    case Ready(q, id) => [Begun(q, id)]
    case Waiting(q, id) => [Begun(q, id)]
    case Woken(q, id) => [Begun(q, id)]
    case Reading(q, id) => [Begun(q, id)]
  }

  function Finished(calls: seq<Call>): (begun: seq<Begun>)
    ensures |begun| == |calls| && forall i | 0 <= i < |calls| :: begun[i] == Begun(calls[i].q, calls[i].id)
  {
    seq(|calls|, i requires 0 <= i < |calls| => Begun(calls[i].q, calls[i].id))
  }

  /** All calls so far in the order they began. */
  function AllBegun(st: State): seq<Begun> {
    Finished(st.calls) + Current(st.client)
  }

  /** How many of the calls came without an id. */
  function Unnumbered(begun: seq<Begun>): nat {
    if begun == [] then 0
    else Unnumbered(begun[..|begun| - 1]) + if begun[|begun| - 1].q.header.requestId == 0 then 1 else 0
  }

  /** A caller's id is kept; the calls without one are numbered from 1 on, in 64 bits. */
  predicate NumberedAt(begun: seq<Begun>, i: nat)
    requires i < |begun|
  {
    begun[i].id == if begun[i].q.header.requestId != 0 then begun[i].q.header.requestId
      else (1 + Unnumbered(begun[..i])) % 0x1_0000_0000_0000_0000
  }

  predicate InOrder(st: State) {
    && (forall i: nat | i < |AllBegun(st)| :: NumberedAt(AllBegun(st), i))
    && st.nextId == (1 + Unnumbered(AllBegun(st))) % 0x1_0000_0000_0000_0000
  }

  function StartedBy(e: Event): seq<Request> {
    match e
    case StartCall(q) => [q]
    case ClientStep(_) => []
    case ServerStep(_) => []
  }

  function Started(events: seq<Event>): seq<Request> {
    if events == [] then [] else StartedBy(events[0]) + Started(events[1..])
  }

  function Requests(begun: seq<Begun>): (requests: seq<Request>)
    ensures |requests| == |begun| && forall i | 0 <= i < |begun| :: requests[i] == begun[i].q
  {
    seq(|begun|, i requires 0 <= i < |begun| => begun[i].q)
  }

  // ----- one step

  lemma UnnumberedAppend(begun: seq<Begun>, call: Begun)
    ensures Unnumbered(begun + [call]) == Unnumbered(begun) + if call.q.header.requestId == 0 then 1 else 0
  {
    assert (begun + [call])[..|begun|] == begun;
  }

  lemma OneMore(begun: seq<Begun>, call: Begun)
    requires forall i: nat | i < |begun| :: NumberedAt(begun, i)
    requires call.id == if call.q.header.requestId != 0 then call.q.header.requestId
      else (1 + Unnumbered(begun)) % 0x1_0000_0000_0000_0000
    ensures forall i: nat | i < |begun| + 1 :: NumberedAt(begun + [call], i)
  {
    hide Unnumbered;
    var all := begun + [call];
    assert all[..|begun|] == begun;
    forall i: nat | i < |all| ensures NumberedAt(all, i) {
      if i < |begun| {
        assert NumberedAt(begun, i);
        assert all[..i] == begun[..i];
      }
    }
  }

  lemma BeginNumbers(st: State, q: Request)
    requires st.client.Idle? && InOrder(st)
    ensures InOrder(Begin(st, q)) && AllBegun(Begin(st, q)) == AllBegun(st) + [Begun(q, Begin(st, q).client.id)]
  {
    hide NumberedAt, Unnumbered;
    var next := Begin(st, q);
    assert AllBegun(next) == AllBegun(st) + [Begun(q, next.client.id)];
    OneMore(AllBegun(st), Begun(q, next.client.id));
    UnnumberedAppend(AllBegun(st), Begun(q, next.client.id));
  }

  /** Steps inside a call, its return included, leave the list of begun calls as it is. */
  lemma ClientStepKeepsCalls(c: Config, st: State, junk: Bytes)
    requires |st.shared.request| == |st.shared.response| == c.capacity == |junk| && StepClient(c, st, junk).Some?
    ensures AllBegun(StepClient(c, st, junk).value) == AllBegun(st)
    ensures StepClient(c, st, junk).value.nextId == st.nextId
  {
    hide RequestBytes, ParseResponse;
    var next := StepClient(c, st, junk).value;
    if next.client.Idle? {
      var call := next.calls[|st.calls|];
      assert Current(st.client) == [Begun(call.q, call.id)];
      assert Finished(next.calls) == Finished(st.calls) + [Begun(call.q, call.id)];
    }
  }

  lemma StepKeepsOrder(c: Config, st: State, e: Event)
    requires |st.shared.request| == |st.shared.response| == c.capacity && EventOk(c, e) && Step(c, st, e).Some?
    requires InOrder(st)
    ensures InOrder(Step(c, st, e).value)
    ensures Requests(AllBegun(Step(c, st, e).value)) == Requests(AllBegun(st)) + StartedBy(e)
  {
    match e
    case StartCall(q) => BeginNumbers(st, q);
    case ClientStep(junk) => ClientStepKeepsCalls(c, st, junk);
    case ServerStep(junk) =>
  }

  // ----- runs

  lemma {:induction false} RunKeepsOrder(c: Config, from: State, events: seq<Event>, to: State)
    requires InOrder(from) && Run(c, from, events, to)
    ensures InOrder(to) && Requests(AllBegun(to)) == Requests(AllBegun(from)) + Started(events)
    decreases |events|
  {
    hide InOrder, AllBegun, Step, StartedBy, Requests, EventOk;
    if events != [] {
      StepKeepsOrder(c, from, events[0]);
      RunKeepsOrder(c, Step(c, from, events[0]).value, events[1..], to);
    }
  }

  lemma InitialInOrder(c: Config)
    ensures InOrder(Initial(c)) && Requests(AllBegun(Initial(c))) == []
  {
  }

  /** In every run the calls begun are the calls started, in order, each finished but perhaps the last;
      a caller's own id is kept, and the others count up from 1. */
  lemma CallsAreNumbered(c: Config, events: seq<Event>, st: State)
    requires Run(c, Initial(c), events, st)
    ensures Requests(AllBegun(st)) == Started(events)
    ensures forall i: nat | i < |AllBegun(st)| :: NumberedAt(AllBegun(st), i)
  {
    hide Run, Unnumbered, Started;
    InitialInOrder(c);
    RunKeepsOrder(c, Initial(c), events, st);
  }

  /** What every finished call returned. The handler saw the caller's request with a zero id replaced by
      the call's id. Its response comes back unchanged but for a zero id, which becomes the call's id. */
  lemma CallsAreAnswered(c: Config, events: seq<Event>, st: State, i: nat)
    requires ConfigOk(c) && Run(c, Initial(c), events, st) && i < |st.calls|
    ensures var call := st.calls[i];
            var seen := call.q.(header := call.q.header.(requestId := call.id));
            if |RequestBytes(call.q)| > c.capacity then call.result == Err("payload exceeds capacity")
            else
              match c.handler(seen)
              case Err(_) => call.result == Err("server reported error status 1")
              case Ok(p) =>
                var sent := Response(if p.requestId == 0 then call.id else p.requestId, p.sequences, p.metrics);
                call.result
                  == if |ResponseBytes(sent)| > c.capacity then Err("server reported error status 2") else Ok(sent)
  {
    hide Run, Initial, Unnumbered, RequestBytes, ResponseBytes, ConfigOk, Started, Requests;
    ProtocolIsSafe(c, events, st);
    CallsAreNumbered(c, events, st);
    assert AllBegun(st)[i] == Begun(st.calls[i].q, st.calls[i].id) && NumberedAt(AllBegun(st), i);
  }
}
