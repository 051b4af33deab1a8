/** The shared-memory transport as a protocol: one client, one server, one request and one response
    buffer, two semaphores. Every step touches shared state once; steps of the two sides interleave. */
module SharedMemory {
  import opened LittleEndian
  import opened Results
  import opened RolloutMessages

  /** The header fields and buffers both sides map, and the two semaphores. */
  datatype Shared = Shared(
    requestId: U64, request: Bytes, requestSize: nat,
    response: Bytes, responseSize: nat, responseStatus: U32,
    requestSem: nat, responseSem: nat)

  /** Where the client is in `generate`; `q` is its request and `id` the id it was given. */
  datatype Client =
    | Idle
    | Numbered(q: Request, id: U64)
    | Written(q: Request, id: U64, size: nat)
    | Ready(q: Request, id: U64)
    | Waiting(q: Request, id: U64)
    | Woken(q: Request, id: U64)
    | Reading(q: Request, id: U64)

  /** Where the server is in `serve_one`. */
  datatype Server =
    | Listening
    | Accepted
    | Handled(outcome: Result<Response>)
    | Sized(size: nat, status: U32)
    | Stored(status: U32)
    | Posting

  /** A finished call and what it returned or threw. */
  datatype Call = Call(q: Request, id: U64, result: Result<Response>)

  datatype State = State(shared: Shared, client: Client, server: Server, nextId: U64, calls: seq<Call>)

  datatype Config = Config(capacity: nat, handler: Request -> Result<Response>)

  /** std::map keeps its keys in order, so every message a caller or handler builds is well formed. */
  predicate RequestOk(q: Request) {
    Ascending(q.extraParams)
  }

  predicate HandlerOkAt(handler: Request -> Result<Response>, q: Request) {
    handler(q).Ok? ==> Ascending(handler(q).value.metrics)
  }

  ghost predicate ConfigOk(c: Config) {
    c.capacity < 0x1_0000_0000 && forall q: Request :: HandlerOkAt(c.handler, q)
  }

  function Initial(c: Config): State {
    State(Shared(0, seq(c.capacity, _ => 0), 0, seq(c.capacity, _ => 0), 0, 0, 0, 0), Idle, Listening, 1, [])
  }

  // ----- steps

  /** A serializer's effect on a buffer: the layout at the front, the rest as it was. */
  function Overlay(buffer: Bytes, b: Bytes): (r: Bytes)
    requires |b| <= |buffer|
    ensures |r| == |buffer| && r[..|b|] == b
  {
    b + buffer[|b|..]
  }

  /** `junk` is what a failed serialization leaves behind in a buffer. */
  datatype Event = StartCall(q: Request) | ClientStep(junk: Bytes) | ServerStep(junk: Bytes)

  predicate EventOk(c: Config, e: Event) {
    match e
    case StartCall(q) => RequestOk(q)
    case ClientStep(junk) => |junk| == c.capacity
    case ServerStep(junk) => |junk| == c.capacity
  }

  function Step(c: Config, st: State, e: Event): Option<State>
    requires |st.shared.request| == |st.shared.response| == c.capacity && EventOk(c, e)
  {
    match e
    case StartCall(q) => if st.client.Idle? then Some(Begin(st, q)) else None
    case ClientStep(junk) => StepClient(c, st, junk)
    case ServerStep(junk) => StepServer(c, st, junk)
  }

  /** The caller's id if it gave one, else the next of the client's own. */
  function Begin(st: State, q: Request): State {
    var id := if q.header.requestId != 0 then q.header.requestId else st.nextId;
    var nextId: U64 := if q.header.requestId != 0 then st.nextId else (st.nextId + 1) % 0x1_0000_0000_0000_0000;
    st.(shared := st.shared.(requestId := id), client := Numbered(q, id), nextId := nextId)
  }

  function Finish(st: State, q: Request, id: U64, result: Result<Response>): State {
    st.(client := Idle, calls := st.calls + [Call(q, id, result)])
  }

  function StepClient(c: Config, st: State, junk: Bytes): Option<State>
    requires |st.shared.request| == |st.shared.response| == c.capacity == |junk|
  {
    match st.client
    case Idle => None
    case Numbered(q, id) =>
      var b := RequestBytes(q);
      if |b| > c.capacity then Some(Finish(st.(shared := st.shared.(request := junk)), q, id,
          Err("payload exceeds capacity")))
      else Some(st.(shared := st.shared.(request := Overlay(st.shared.request, b)), client := Written(q, id, |b|)))
    case Written(q, id, size) => Some(st.(shared := st.shared.(requestSize := size), client := Ready(q, id)))
    case Ready(q, id) => Some(st.(shared := st.shared.(requestSem := st.shared.requestSem + 1), client :=
      Waiting(q, id)))
    case Waiting(q, id) =>
      if st.shared.responseSem == 0 then None
      else Some(st.(shared := st.shared.(responseSem := st.shared.responseSem - 1), client := Woken(q, id)))
    case Woken(q, id) =>
      if st.shared.responseStatus != 0 then Some(Finish(st, q, id, Err(StatusMessage(st.shared.responseStatus))))
      else Some(st.(client := Reading(q, id)))
    case Reading(q, id) => Some(Finish(st, q, id, Received(st.shared.response, st.shared.responseSize)))
  }

  function StatusMessage(status: U32): string {
    if status == 1 then "server reported error status 1" else if status == 2 then "server reported error status 2"
        else "server reported error status"
  }

  /** deserialize_response on the announced bytes */
  function Received(buffer: Bytes, size: nat): Result<Response> {
    if size > |buffer| then Err("short read")
    else match ParseResponse(buffer[..size]) case None => Err("short read") case Some(p) => Ok(p)
  }

  /** Deserialize, fill in the request id, run the handler, fill in the response id. */
  function Handle(c: Config, s: Shared): Result<Response> {
    if s.requestSize > |s.request| then Err("short read")
    else
      match ParseRequest(s.request[..s.requestSize])
      case None => Err("short read")
      case Some(q) => HandleRequest(c, q, s.requestId)
  }

  function HandleRequest(c: Config, q: Request, id: U64): Result<Response> {
    var q' := if q.header.requestId == 0 then q.(header := q.header.(requestId := id)) else q;
    match c.handler(q')
    case Err(message) => Err(message)
    case Ok(p) => Ok(if p.requestId == 0 then p.(requestId := q'.header.requestId) else p)
  }

  function StepServer(c: Config, st: State, junk: Bytes): Option<State>
    requires |st.shared.request| == |st.shared.response| == c.capacity == |junk|
  {
    match ServerNext(c, st.shared, st.server, junk)
    case None => None
    case Some(next) => Some(st.(shared := next.0, server := next.1))
  }

  function ServerNext(c: Config, s: Shared, server: Server, junk: Bytes): Option<(Shared, Server)>
    requires |s.request| == |s.response| == c.capacity == |junk|
  {
    match server
    case Listening => if s.requestSem == 0 then None else Some((s.(requestSem := s.requestSem - 1), Accepted))
    case Accepted => Some((s, Handled(Handle(c, s))))
    case Handled(outcome) => Some(Respond(c, s, outcome, junk))
    case Sized(size, status) => Some((s.(responseSize := size), Stored(status)))
    case Stored(status) => Some((s.(responseStatus := status), Posting))
    case Posting => Some((s.(responseSem := s.responseSem + 1), Listening))
  }

  /** Serialize the response, unless the handler failed; a response that does not fit leaves junk behind. */
  function Respond(c: Config, s: Shared, outcome: Result<Response>, junk: Bytes): (next: (Shared, Server))
    requires |s.response| == c.capacity
  {
    if outcome.Err? then (s, Sized(0, 1))
    else
      var b := ResponseBytes(outcome.value);
      if |b| > c.capacity then (s.(response := junk), Sized(0, 2))
      else (s.(response := Overlay(s.response, b)), Sized(|b|, 0))
  }

  // ----- what a call should return

  function Expected(c: Config, q: Request, id: U64): Result<Response> {
    if |RequestBytes(q)| > c.capacity then Err("payload exceeds capacity")
    else Answer(c, HandleRequest(c, q, id))
  }

  function Answer(c: Config, outcome: Result<Response>): Result<Response> {
    if outcome.Err? then Err(StatusMessage(1))
    else if |ResponseBytes(outcome.value)| > c.capacity then Err(StatusMessage(2))
    else outcome
  }

  // ----- the invariant

  /** The request buffer announces exactly this request. */
  predicate Announces(s: Shared, q: Request, id: U64) {
    && s.requestId == id && s.requestSize == |RequestBytes(q)| <= |s.request|
    && s.request[..s.requestSize] == RequestBytes(q)
  }

  /** The response buffer, size and status carry the answer to an outcome. */
  predicate Carries(c: Config, s: Shared, status: U32, size: nat, outcome: Result<Response>) {
    if outcome.Err? then status == 1
    else if |ResponseBytes(outcome.value)| > c.capacity then status == 2
    else
      && status == 0 && size == |ResponseBytes(outcome.value)| <= |s.response|
      && s.response[..size] == ResponseBytes(outcome.value)
  }

  /** What the server has done so far for the waiting client's request. */
  predicate Serving(c: Config, s: Shared, server: Server, q: Request, id: U64) {
    var outcome := HandleRequest(c, q, id);
    match server
    case Listening => Carries(c, s, s.responseStatus, s.responseSize, outcome)
    case Accepted => Announces(s, q, id)
    case Handled(o) => o == outcome
    case Sized(size, status) => Carries(c, s, status, size, outcome)
    case Stored(status) => Carries(c, s, status, s.responseSize, outcome)
    case Posting => Carries(c, s, s.responseStatus, s.responseSize, outcome)
  }

  /** Exactly one side has the turn, or it is on its way in one semaphore. */
  predicate Turn(c: Config, st: State) {
    var s := st.shared;
    match st.client
    case Idle => s.requestSem == 0 && s.responseSem == 0 && st.server == Listening
    case Numbered(q, id) => s.requestSem == 0 && s.responseSem == 0 && st.server == Listening && s.requestId == id
    case Written(q, id, size) =>
      && s.requestSem == 0 && s.responseSem == 0 && st.server == Listening
      && Announces(s.(requestSize := size), q, id)
    case Ready(q, id) => s.requestSem == 0 && s.responseSem == 0 && st.server == Listening && Announces(s, q, id)
    case Waiting(q, id) =>
      || (s.requestSem == 1 && s.responseSem == 0 && st.server == Listening && Announces(s, q, id))
      || (s.requestSem == 0 && s.responseSem == 0 && st.server != Listening && Serving(c, s, st.server, q, id))
      || (s.requestSem == 0 && s.responseSem == 1 && st.server == Listening && Serving(c, s, st.server, q, id))
    case Woken(q, id) => s.requestSem == 0 && s.responseSem == 0 && st.server == Listening
      && Serving(c, s, st.server, q, id)
    case Reading(q, id) =>
      s.requestSem == 0 && s.responseSem == 0 && st.server == Listening && Serving(c, s, st.server, q, id)
        && s.responseStatus == 0
  }

  predicate Answered(c: Config, call: Call) {
    call.result == Expected(c, call.q, call.id)
  }

  predicate RequestFits(c: Config, client: Client) {
    match client
    case Idle => true
    case Numbered(q, _) => RequestOk(q)
    case Written(q, _, _) => RequestOk(q) && |RequestBytes(q)| <= c.capacity
    case Ready(q, _) => RequestOk(q) && |RequestBytes(q)| <= c.capacity
    case Waiting(q, _) => RequestOk(q) && |RequestBytes(q)| <= c.capacity
    case Woken(q, _) => RequestOk(q) && |RequestBytes(q)| <= c.capacity
    case Reading(q, _) => RequestOk(q) && |RequestBytes(q)| <= c.capacity
  }

  ghost predicate Invariant(c: Config, st: State) {
    && |st.shared.request| == |st.shared.response| == c.capacity
    && RequestFits(c, st.client) && Turn(c, st)
    && forall i | 0 <= i < |st.calls| :: Answered(c, st.calls[i])
  }

  lemma InitialInvariant(c: Config)
    ensures Invariant(c, Initial(c))
  {
  }

  /** The server reads back the request that the client laid out. */
  lemma ServerReadsRequest(c: Config, s: Shared, q: Request, id: U64)
    requires ConfigOk(c) && RequestOk(q) && |RequestBytes(q)| <= c.capacity && Announces(s, q, id)
    ensures Handle(c, s) == HandleRequest(c, q, id)
  {
    RequestRoundTrip(q);
  }

  lemma OutcomeOk(c: Config, q: Request, id: U64)
    requires ConfigOk(c)
    ensures HandleRequest(c, q, id).Ok? ==> Ascending(HandleRequest(c, q, id).value.metrics)
  {
    assert HandlerOkAt(c.handler, if q.header.requestId == 0 then q.(header := q.header.(requestId := id)) else q);
  }

  /** The client reads back the response that the server laid out. */
  lemma ClientReadsResponse(c: Config, s: Shared, q: Request, id: U64)
    requires ConfigOk(c) && |s.response| == c.capacity
    requires Carries(c, s, s.responseStatus, s.responseSize, HandleRequest(c, q, id))
    ensures s.responseStatus == 0 ==> Received(s.response, s.responseSize) == Answer(c, HandleRequest(c, q, id))
    ensures s.responseStatus != 0 ==> Err(StatusMessage(s.responseStatus)) == Answer(c, HandleRequest(c, q, id))
  {
    OutcomeOk(c, q, id);
    if s.responseStatus == 0 { ResponseRoundTrip(HandleRequest(c, q, id).value); }
  }

  lemma RespondCarries(c: Config, s: Shared, outcome: Result<Response>, junk: Bytes)
    requires |s.response| == c.capacity == |junk|
    ensures |Respond(c, s, outcome, junk).0.response| == c.capacity && Respond(c, s, outcome, junk).1.Sized?
    ensures Carries(c, Respond(c, s, outcome, junk).0, Respond(c, s, outcome, junk).1.status,
        Respond(c, s, outcome, junk).1.size, outcome)
  {
  }

  /** The server works on the waiting client's request, one step further. */
  lemma ServerServes(c: Config, s: Shared, server: Server, q: Request, id: U64, junk: Bytes)
    requires ConfigOk(c) && RequestOk(q) && |RequestBytes(q)| <= c.capacity
    requires |s.request| == |s.response| == c.capacity == |junk|
    requires server != Listening && Serving(c, s, server, q, id)
    ensures ServerNext(c, s, server, junk).Some?
    ensures Serving(c, ServerNext(c, s, server, junk).value.0, ServerNext(c, s, server, junk).value.1, q, id)
    ensures |ServerNext(c, s, server, junk).value.0.response| == c.capacity
  {
    match server
    case Accepted => ServerReadsRequest(c, s, q, id);
    case Handled(outcome) => RespondCarries(c, s, outcome, junk);
    case Sized(_, _) =>
    case Stored(_) =>
    case Posting =>
  }

  lemma ServerStepKeeps(c: Config, st: State, junk: Bytes)
    requires ConfigOk(c) && Invariant(c, st) && |junk| == c.capacity && StepServer(c, st, junk).Some?
    ensures Invariant(c, StepServer(c, st, junk).value)
  {
    assert st.client.Waiting?;
    if !st.server.Listening? { ServerServes(c, st.shared, st.server, st.client.q, st.client.id, junk); }
  }

  lemma SerializeAnnounces(c: Config, s: Shared, q: Request, id: U64, size: nat)
    requires |s.request| == c.capacity && size == |RequestBytes(q)| <= c.capacity && s.requestId == id
    ensures Announces(s.(request := Overlay(s.request, RequestBytes(q)), requestSize := size), q, id)
  {
  }

  lemma NumberedStepKeeps(c: Config, st: State, junk: Bytes)
    requires ConfigOk(c) && Invariant(c, st) && |junk| == c.capacity && st.client.Numbered?
    ensures Invariant(c, StepClient(c, st, junk).value)
  {
    var q, id := st.client.q, st.client.id;
    if |RequestBytes(q)| <= c.capacity { SerializeAnnounces(c, st.shared, q, id, |RequestBytes(q)|); }
  }

  lemma ReadingStepKeeps(c: Config, st: State, junk: Bytes)
    requires ConfigOk(c) && Invariant(c, st) && |junk| == c.capacity && (st.client.Woken? || st.client.Reading?)
    ensures Invariant(c, StepClient(c, st, junk).value)
  {
    ClientReadsResponse(c, st.shared, st.client.q, st.client.id);
  }

  lemma ClientStepKeeps(c: Config, st: State, junk: Bytes)
    requires ConfigOk(c) && Invariant(c, st) && |junk| == c.capacity && StepClient(c, st, junk).Some?
    ensures Invariant(c, StepClient(c, st, junk).value)
  {
    match st.client
    case Numbered(_, _) => NumberedStepKeeps(c, st, junk);
    case Written(_, _, _) =>
    case Ready(_, _) =>
    case Waiting(_, _) =>
    case Woken(_, _) => ReadingStepKeeps(c, st, junk);
    case Reading(_, _) => ReadingStepKeeps(c, st, junk);
  }

  lemma StepKeepsInvariant(c: Config, st: State, e: Event)
    requires ConfigOk(c) && Invariant(c, st) && EventOk(c, e) && Step(c, st, e).Some?
    ensures Invariant(c, Step(c, st, e).value)
  {
    match e
    case StartCall(q) =>
    case ClientStep(junk) => ClientStepKeeps(c, st, junk);
    case ServerStep(junk) => ServerStepKeeps(c, st, junk);
  }

  // ----- runs

  ghost predicate Run(c: Config, from: State, events: seq<Event>, to: State)
    decreases |events|
  {
    if events == [] then from == to
    else
      && |from.shared.request| == |from.shared.response| == c.capacity && EventOk(c, events[0])
      && Step(c, from, events[0]).Some? && Run(c, Step(c, from, events[0]).value, events[1..], to)
  }

  lemma {:induction false} RunKeepsInvariant(c: Config, from: State, events: seq<Event>, to: State)
    requires ConfigOk(c) && Invariant(c, from) && Run(c, from, events, to)
    ensures Invariant(c, to)
    decreases |events|
  {
    if events != [] {
      StepKeepsInvariant(c, from, events[0]);
      RunKeepsInvariant(c, Step(c, from, events[0]).value, events[1..], to);
    }
  }

  /** The client may touch a buffer. */
  predicate ClientActive(st: State) {
    st.client.Numbered? || st.client.Written? || st.client.Ready? || st.client.Woken? || st.client.Reading?
  }

  predicate ServerActive(st: State) {
    !st.server.Listening?
  }

  /** In every interleaving: at most one token is out, the two sides are never in the buffers together,
      and every finished call returned the answer to its own request. */
  lemma ProtocolIsSafe(c: Config, events: seq<Event>, st: State)
    requires ConfigOk(c) && Run(c, Initial(c), events, st)
    ensures st.shared.requestSem + st.shared.responseSem <= 1
    ensures !(ClientActive(st) && ServerActive(st))
    ensures forall i | 0 <= i < |st.calls| :: st.calls[i].result == Expected(c, st.calls[i].q, st.calls[i].id)
  {
    InitialInvariant(c);
    RunKeepsInvariant(c, Initial(c), events, st);
    forall i | 0 <= i < |st.calls| ensures st.calls[i].result == Expected(c, st.calls[i].q, st.calls[i].id) {
      assert Answered(c, st.calls[i]);
    }
  }

  // ----- every call finishes

  /** Steps left until the client's call returns. */
  function StepsLeft(c: Config, st: State): nat {
    match st.client
    case Idle => 0
    case Numbered(q, _) => if |RequestBytes(q)| > c.capacity then 1 else 13
    case Written(_, _, _) => 12
    case Ready(_, _) => 11
    case Waiting(_, _) =>
      if st.shared.responseSem > 0 then 3
      else
        (match st.server
         case Listening => 10
         case Accepted => 9
         case Handled(_) => 8
         case Sized(_, _) => 7
         case Stored(_) => 6
         case Posting => 5)
    case Woken(_, _) => 2
    case Reading(_, _) => 1
  }

  predicate Moves(c: Config, st: State, e: Event)
    requires |st.shared.request| == |st.shared.response| == c.capacity && EventOk(c, e)
  {
    Step(c, st, e).Some?
  }

  /** No call can be stuck: while one is under way, one of the two sides can move. */
  lemma SomeoneMoves(c: Config, st: State, junk: Bytes)
    requires ConfigOk(c) && Invariant(c, st) && !st.client.Idle? && |junk| == c.capacity
    ensures Moves(c, st, ClientStep(junk)) || Moves(c, st, ServerStep(junk))
  {
  }

  /** And whoever moves brings the call closer to its return: it returns within 13 steps. */
  lemma StepsBringReturn(c: Config, st: State, e: Event)
    requires ConfigOk(c) && Invariant(c, st) && !st.client.Idle? && EventOk(c, e) && Moves(c, st, e)
    ensures StepsLeft(c, Step(c, st, e).value) < StepsLeft(c, st) <= 13
  {
    match e
    case StartCall(_) =>
    case ClientStep(junk) => ClientBringsReturn(c, st, junk);
    case ServerStep(junk) => ServerBringsReturn(c, st, junk);
  }

  lemma ClientBringsReturn(c: Config, st: State, junk: Bytes)
    requires ConfigOk(c) && Invariant(c, st) && |junk| == c.capacity && StepClient(c, st, junk).Some?
    ensures StepsLeft(c, StepClient(c, st, junk).value) < StepsLeft(c, st) <= 13
  {
    hide RequestBytes, ResponseBytes;
  }

  lemma ServerBringsReturn(c: Config, st: State, junk: Bytes)
    requires ConfigOk(c) && Invariant(c, st) && |junk| == c.capacity && StepServer(c, st, junk).Some?
    ensures StepsLeft(c, StepServer(c, st, junk).value) < StepsLeft(c, st) <= 13
  {
    hide RequestBytes, ResponseBytes;
    assert st.client.Waiting?;
  }

  /** Any run that starts inside a call and outlasts its bound has seen it return. */
  lemma {:induction false} CallReturns(c: Config, from: State, events: seq<Event>, to: State)
    requires ConfigOk(c) && Invariant(c, from) && Run(c, from, events, to) && |events| >= StepsLeft(c, from)
    ensures exists n :: 0 <= n <= |events| && ReachesIdle(c, from, events[..n])
    decreases |events|
  {
    hide Invariant, StepClient, StepServer;
    if from.client.Idle? {
      assert ReachesIdle(c, from, events[..0]);
    } else {
      var next := Step(c, from, events[0]).value;
      StepsBringReturn(c, from, events[0]);
      StepKeepsInvariant(c, from, events[0]);
      CallReturns(c, next, events[1..], to);
      var n :| 0 <= n <= |events[1..]| && ReachesIdle(c, next, events[1..][..n]);
      assert events[..n + 1][1..] == events[1..][..n];
      assert ReachesIdle(c, from, events[..n + 1]);
    }
  }

  /** These events, run from here, end with the client idle again. */
  ghost predicate ReachesIdle(c: Config, from: State, events: seq<Event>)
    decreases |events|
  {
    if events == [] then from.client.Idle?
    else
      && |from.shared.request| == |from.shared.response| == c.capacity && EventOk(c, events[0])
      && Step(c, from, events[0]).Some? && ReachesIdle(c, Step(c, from, events[0]).value, events[1..])
  }
}
