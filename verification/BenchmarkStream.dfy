// The extra stream that a benchmark keeps running: each call advances it by one action,
// round and round from creation to destruction.
module BenchmarkStream {
  import opened Sequences
  import opened Wrappers

  type Headers = map<string, string>

  // What the stream was built with; null is None.
  datatype Config = Config(
    requestHeaders: Option<Headers>, responseHeaders: Option<Headers>,
    requestChunks: Option<seq<string>>, responseChunks: Option<seq<string>>)

  datatype NextAction =
    | Create | SendRequestHeaders | SendRequestBody | SendResponseHeaders | SendResponseBody | Destroy

  // One action on the stream context, as the plugin under test sees it.
  datatype Performed =
    | Created
    | RequestHeaders(headers: Headers)
    | RequestBody(chunk: string, endOfStream: bool)
    | ResponseHeaders(headers: Headers)
    | ResponseBody(chunk: string, endOfStream: bool)
    | Destroyed

  datatype Status = Ok | InternalError

  // live: the context exists.
  datatype State = State(next: NextAction, request: seq<string>, response: seq<string>, live: bool)

  const INITIAL := State(Create, [], [], false)

  function Chunks(chunks: Option<seq<string>>): seq<string> {
    if chunks.Some? then chunks.value else []
  }

  function RequestBodies(chunks: seq<string>): seq<Performed> {
    seq(|chunks|, i requires 0 <= i < |chunks| => RequestBody(chunks[i], i == |chunks| - 1))
  }

  function ResponseBodies(chunks: seq<string>): seq<Performed> {
    seq(|chunks|, i requires 0 <= i < |chunks| => ResponseBody(chunks[i], i == |chunks| - 1))
  }

  // ---- What one round should be ----

  function Response(c: Config, chunks: seq<string>): seq<Performed> {
    (if c.responseHeaders.Some? then [ResponseHeaders(c.responseHeaders.value)] else []) +
    (ResponseBodies(chunks) + [Destroyed])
  }

  function Request(c: Config, chunks: seq<string>, response: seq<string>): seq<Performed> {
    (if c.requestHeaders.Some? then [RequestHeaders(c.requestHeaders.value)] else []) +
    (RequestBodies(chunks) + Response(c, response))
  }

  function Cycle(c: Config): (r: seq<Performed>)
    ensures |r| >= 2
  {
    [Created] + Request(c, Chunks(c.requestChunks), Chunks(c.responseChunks))
  }

  predicate RequestShape(c: Config, request: seq<Performed>) {
    var q, n := Chunks(c.requestChunks), if c.requestHeaders.Some? then 1 else 0;
    && |request| == n + |q|
    && (c.requestHeaders.Some? ==> request[0] == RequestHeaders(c.requestHeaders.value))
    && (forall i | 0 <= i < |q| :: request[n + i] == RequestBody(q[i], i + 1 == |q|))
  }

  predicate ResponseShape(c: Config, response: seq<Performed>) {
    var a, n := Chunks(c.responseChunks), if c.responseHeaders.Some? then 1 else 0;
    && |response| == n + |a|
    && (c.responseHeaders.Some? ==> response[0] == ResponseHeaders(c.responseHeaders.value))
    && (forall i | 0 <= i < |a| :: response[n + i] == ResponseBody(a[i], i + 1 == |a|))
  }

  // Creation, the request, the response and destruction; the end is flagged on the last
  // chunk of either body and on no other.
  lemma CycleShape(c: Config) returns (request: seq<Performed>, response: seq<Performed>)
    ensures Cycle(c) == [Created] + request + response + [Destroyed]
    ensures RequestShape(c, request) && ResponseShape(c, response)
  {
    hide RequestShape, ResponseShape, RequestBodies, ResponseBodies, Chunks;
    var h, q := RequestParts(c);
    var k, a := ResponseParts(c);
    request, response := h + q, k + a;
    FiveParts([Created], h, q, k, a, [Destroyed]);
  }

  lemma RequestParts(c: Config) returns (h: seq<Performed>, q: seq<Performed>)
    ensures h == if c.requestHeaders.Some? then [RequestHeaders(c.requestHeaders.value)] else []
    ensures q == RequestBodies(Chunks(c.requestChunks)) && RequestShape(c, h + q)
  {
    h := if c.requestHeaders.Some? then [RequestHeaders(c.requestHeaders.value)] else [];
    q := RequestBodies(Chunks(c.requestChunks));
  }

  lemma ResponseParts(c: Config) returns (k: seq<Performed>, a: seq<Performed>)
    ensures k == if c.responseHeaders.Some? then [ResponseHeaders(c.responseHeaders.value)] else []
    ensures a == ResponseBodies(Chunks(c.responseChunks)) && ResponseShape(c, k + a)
  {
    k := if c.responseHeaders.Some? then [ResponseHeaders(c.responseHeaders.value)] else [];
    a := ResponseBodies(Chunks(c.responseChunks));
  }

  lemma FiveParts<T>(a: seq<T>, b: seq<T>, c: seq<T>, d: seq<T>, e: seq<T>, f: seq<T>)
    ensures a + (b + (c + (d + (e + f)))) == a + (b + c) + (d + e) + f
  {
    Associate(d, e, f);
    Associate(b, c, (d + e) + f);
    Associate(a, b + c, (d + e) + f);
    Associate(a + (b + c), d + e, f);
  }

  // ---- One turn of the loop ----

  function Turn(c: Config, s: State): (State, Option<Performed>) {
    match s.next
    case Create =>
      (State(SendRequestHeaders,
             if c.requestChunks.Some? then c.requestChunks.value else s.request,
             if c.responseChunks.Some? then c.responseChunks.value else s.response,
             true),
       Some(Created))
    case SendRequestHeaders =>
      (s.(next := SendRequestBody),
       if c.requestHeaders.Some? then Some(RequestHeaders(c.requestHeaders.value)) else None)
    case SendRequestBody =>
      if s.request != [] then
        (s.(request := s.request[1..]), Some(RequestBody(s.request[0], |s.request| == 1)))
      else (s.(next := SendResponseHeaders), None)
    case SendResponseHeaders =>
      (s.(next := SendResponseBody),
       if c.responseHeaders.Some? then Some(ResponseHeaders(c.responseHeaders.value)) else None)
    case SendResponseBody =>
      if s.response != [] then
        (s.(response := s.response[1..]), Some(ResponseBody(s.response[0], |s.response| == 1)))
      else (s.(next := Destroy), None)
    case Destroy => (s.(next := Create, live := false), Some(Destroyed))
  }

  // How many turns may pass without an action.
  function Skips(n: NextAction): nat {
    match n
    case Create => 0
    case SendRequestHeaders => 4
    case SendRequestBody => 3
    case SendResponseHeaders => 2
    case SendResponseBody => 1
    case Destroy => 0
  }

  function Advanced(c: Config, s: State): (State, Performed)
    decreases Skips(s.next)
  {
    var (t, done) := Turn(c, s);
    if done.Some? then (t, done.value) else Advanced(c, t)
  }

  function Turns(c: Config, s: State): (n: nat)
    ensures 1 <= n <= 1 + Skips(s.next) <= 5
    decreases Skips(s.next)
  {
    var (t, done) := Turn(c, s);
    if done.Some? then 1 else 1 + Turns(c, t)
  }

  // ---- The invariant, and the actions left in the round ----

  predicate Valid(c: Config, s: State) {
    && (s.live <==> !s.next.Create?)
    && (s.next in {Create, SendResponseHeaders, SendResponseBody, Destroy} ==> s.request == [])
    && (s.next in {Create, Destroy} ==> s.response == [])
  }

  // Nothing is left when the next action is to create.
  function Left(c: Config, s: State): seq<Performed> {
    match s.next
    case Create => []
    case SendRequestHeaders => Request(c, s.request, s.response)
    case SendRequestBody => RequestBodies(s.request) + Response(c, s.response)
    case SendResponseHeaders => Response(c, s.response)
    case SendResponseBody => ResponseBodies(s.response) + [Destroyed]
    case Destroy => [Destroyed]
  }

  lemma FirstRequestBody(chunks: seq<string>)
    requires chunks != []
    ensures RequestBodies(chunks) == [RequestBody(chunks[0], |chunks| == 1)] + RequestBodies(chunks[1..])
  {
  }

  lemma FirstResponseBody(chunks: seq<string>)
    requires chunks != []
    ensures ResponseBodies(chunks) == [ResponseBody(chunks[0], |chunks| == 1)] + ResponseBodies(chunks[1..])
  {
  }

  lemma NoBodies()
    ensures RequestBodies([]) == [] && ResponseBodies([]) == []
  {
  }

  lemma HeadAndTail<T>(first: T, middle: seq<T>, last: seq<T>)
    ensures [first] + middle + last == [first] + (middle + last)
  {
  }

  // A turn takes the next action off the round, or none.
  lemma TurnTakesNext(c: Config, s: State)
    requires Valid(c, s)
    ensures var (t, done) := Turn(c, s);
            && Valid(c, t)
            && (s.next.Create? ==> done == Some(Created) && [Created] + Left(c, t) == Cycle(c))
            && (!s.next.Create? ==>
                  if done.Some? then Left(c, s) != [] && Left(c, s)[0] == done.value && Left(c, t) == Left(c, s)[1..]
                  else !t.next.Create? && Left(c, t) == Left(c, s))
  {
    hide RequestBodies, ResponseBodies;
    var all, rest := RequestBodies(s.request) + Response(c, s.response), ResponseBodies(s.response) + [Destroyed];
    NoBodies();
    match s.next {
      case Create =>
      case SendRequestHeaders =>
        if c.requestHeaders.Some? {
          TailOfCons(RequestHeaders(c.requestHeaders.value), all);
        } else {
          WithEmpty(all);
        }
      case SendRequestBody =>
        if s.request != [] {
          var first, more := RequestBody(s.request[0], |s.request| == 1), RequestBodies(s.request[1..]);
          FirstRequestBody(s.request);
          HeadAndTail(first, more, Response(c, s.response));
          TailOfCons(first, more + Response(c, s.response));
        } else {
          WithEmpty(Response(c, s.response));
        }
      case SendResponseHeaders =>
        if c.responseHeaders.Some? {
          TailOfCons(ResponseHeaders(c.responseHeaders.value), rest);
        } else {
          WithEmpty(rest);
        }
      case SendResponseBody =>
        if s.response != [] {
          var first, more := ResponseBody(s.response[0], |s.response| == 1), ResponseBodies(s.response[1..]);
          FirstResponseBody(s.response);
          HeadAndTail(first, more, [Destroyed]);
          TailOfCons(first, more + [Destroyed]);
        } else {
          WithEmpty([Destroyed]);
        }
      case Destroy =>
    }
  }

  lemma {:induction false} AdvanceTakesNext(c: Config, s: State)
    requires Valid(c, s)
    ensures var (t, done) := Advanced(c, s);
            && Valid(c, t)
            && (s.next.Create? ==> done == Created && [Created] + Left(c, t) == Cycle(c))
            && (!s.next.Create? ==> Left(c, s) != [] && Left(c, s)[0] == done && Left(c, t) == Left(c, s)[1..])
    decreases Skips(s.next)
  {
    hide Left, Cycle, Valid;
    TurnTakesNext(c, s);
    var (t, done) := Turn(c, s);
    if done.None? {
      AdvanceTakesNext(c, t);
    }
  }

  // ---- Whole runs ----

  function After(c: Config, n: nat): State {
    if n == 0 then INITIAL else Advanced(c, After(c, n - 1)).0
  }

  // The n-th action, counted from zero.
  function Nth(c: Config, n: nat): Performed {
    Advanced(c, After(c, n)).1
  }

  // Where in the round a run is after n actions.
  function Position(n: nat, length: nat): (k: nat)
    requires length > 0
    ensures k < length
  {
    if n == 0 || Position(n - 1, length) + 1 == length then 0 else Position(n - 1, length) + 1
  }

  lemma {:induction false} LeftAfter(c: Config, n: nat)
    ensures var k := Position(n, |Cycle(c)|);
            && Valid(c, After(c, n))
            && (After(c, n).next.Create? <==> k == 0)
            && (k != 0 ==> Left(c, After(c, n)) == Cycle(c)[k..])
  {
    hide Cycle, Advanced, Left, Valid;
    LeftIsEmptyAtCreate(c, After(c, n));
    if n == 0 {
      InitialIsValid(c);
    } else {
      LeftAfter(c, n - 1);
      AdvanceTakesNext(c, After(c, n - 1));
      var cycle, k := Cycle(c), Position(n - 1, |Cycle(c)|);
      TailOfCons(Created, Left(c, After(c, n)));
      assert k > 0 ==> cycle[k..][1..] == cycle[k + 1..];
    }
  }

  lemma InitialIsValid(c: Config)
    ensures Valid(c, INITIAL)
  {
  }

  // The number of actions in q rounds.
  function Rounds(q: nat, length: nat): nat {
    if q == 0 then 0 else Rounds(q - 1, length) + length
  }

  // After q rounds and k actions more, a run is at place k of the round.
  lemma {:induction false} PositionInRound(q: nat, k: nat, length: nat)
    requires k < length
    ensures Position(Rounds(q, length) + k, length) == k
    decreases q, k
  {
    if k > 0 {
      PositionInRound(q, k - 1, length);
    } else if q > 0 {
      PositionInRound(q - 1, length - 1, length);
    }
  }

  lemma LeftIsEmptyAtCreate(c: Config, s: State)
    ensures Left(c, s) == [] <==> s.next.Create?
  {
  }

  lemma NthAction(c: Config, n: nat)
    ensures Nth(c, n) == Cycle(c)[Position(n, |Cycle(c)|)]
  {
    hide Cycle, Advanced, Left;
    LeftAfter(c, n);
    AdvanceTakesNext(c, After(c, n));
    var cycle, k := Cycle(c), Position(n, |Cycle(c)|);
    TailOfCons(Created, Left(c, Advanced(c, After(c, n)).0));
    assert k > 0 ==> cycle[k..][0] == cycle[k];
  }

  // A run repeats the round for ever.
  lemma RunRepeatsTheCycle(c: Config, q: nat, k: nat)
    requires k < |Cycle(c)|
    ensures Nth(c, Rounds(q, |Cycle(c)|) + k) == Cycle(c)[k]
  {
    hide Cycle, Nth;
    NthAction(c, Rounds(q, |Cycle(c)|) + k);
    PositionInRound(q, k, |Cycle(c)|);
  }

  // No call uses a context that does not exist, and each does its one action within
  // five turns of the loop.
  lemma ContextIsLive(c: Config, n: nat)
    ensures Nth(c, n) == Created <==> !After(c, n).live
    ensures Turns(c, After(c, n)) <= 5
  {
    LeftAfter(c, n);
    var s := After(c, n);
    AdvanceTakesNext(c, s);
    if !s.next.Create? {
      CreatedComesFirst(c, s);
    }
  }

  lemma CreatedComesFirst(c: Config, s: State)
    ensures Created !in Left(c, s)
  {
    NoCreation(s.request, s.response);
  }

  lemma NoCreation(request: seq<string>, response: seq<string>)
    ensures Created !in RequestBodies(request) && Created !in ResponseBodies(response)
  {
  }

  // ---- The class ----

  class AdditionalStream {
    const config: Config
    var nextAction: NextAction
    var remainingRequestBodyChunks: seq<string>
    var remainingResponseBodyChunks: seq<string>
    var stream: bool

    ghost function View(): State
      reads this
    {
      State(nextAction, remainingRequestBodyChunks, remainingResponseBodyChunks, stream)
    }

    constructor (config: Config)
      ensures View() == INITIAL && this.config == config
      ensures Valid(config, View())
    {
      this.config := config;
      nextAction := Create;
      remainingRequestBodyChunks, remainingResponseBodyChunks := [], [];
      stream := false;
    }

    // done is the action handed to the context; vmFailed is the state of the VM after it.
    method Advance(vmFailed: bool) returns (done: Performed, status: Status)
      requires Valid(config, View())
      modifies this
      ensures (View(), done) == Advanced(config, old(View()))
      ensures Valid(config, View())
      ensures status == if vmFailed && done != Created then InternalError else Ok
    {
      ghost var before := View();
      AdvanceTakesNext(config, before);
      status := if vmFailed then InternalError else Ok;
      while true
        invariant Advanced(config, View()) == Advanced(config, before)
        invariant status == if vmFailed then InternalError else Ok
        invariant stream <==> !nextAction.Create?
        decreases Skips(nextAction)
      {
        match nextAction {
          case Create =>
            stream := true;
            if config.requestChunks.Some? {
              remainingRequestBodyChunks := config.requestChunks.value;
            }
            if config.responseChunks.Some? {
              remainingResponseBodyChunks := config.responseChunks.value;
            }
            nextAction := SendRequestHeaders;
            return Created, Ok;
          case SendRequestHeaders =>
            nextAction := SendRequestBody;
            if config.requestHeaders.Some? {
              assert stream;
              return RequestHeaders(config.requestHeaders.value), status;
            }
          case SendRequestBody =>
            if remainingRequestBodyChunks != [] {
              var chunk := remainingRequestBodyChunks[0];
              remainingRequestBodyChunks := remainingRequestBodyChunks[1..];
              assert stream;
              return RequestBody(chunk, remainingRequestBodyChunks == []), status;
            }
            nextAction := SendResponseHeaders;
          case SendResponseHeaders =>
            nextAction := SendResponseBody;
            if config.responseHeaders.Some? {
              assert stream;
              return ResponseHeaders(config.responseHeaders.value), status;
            }
          case SendResponseBody =>
            if remainingResponseBodyChunks != [] {
              var chunk := remainingResponseBodyChunks[0];
              remainingResponseBodyChunks := remainingResponseBodyChunks[1..];
              assert stream;
              return ResponseBody(chunk, remainingResponseBodyChunks == []), status;
            }
            nextAction := Destroy;
          case Destroy =>
            stream := false;
            nextAction := Create;
            return Destroyed, status;
        }
      }
    }
  }

  // ---- Cutting a body into chunks ----

  // The pieces of at most size characters, after at most limit cuts if a limit is given.
  function Cut(body: string, size: nat, limit: Option<nat>): (r: seq<string>)
    requires size > 0
    ensures r != []
    decreases |body|
  {
    if |body| <= size || limit == Some(0) then [body]
    else [body[..size]] + Cut(body[size..], size, if limit.Some? then Some(limit.value - 1) else None)
  }

  datatype ChunkingPlan = NumChunks(count: nat) | ChunkSize(size: nat)

  // None where the library stops the program: a cut length of zero.
  function ChunkBody(body: string, plan: ChunkingPlan): Option<seq<string>>
    requires plan.NumChunks? ==> plan.count > 0
  {
    match plan
    case NumChunks(count) =>
      if |body| / count == 0 then None else Some(Cut(body, |body| / count, Some(count - 1)))
    case ChunkSize(size) =>
      if size == 0 then None else Some(Cut(body, size, None))
  }

  lemma {:induction false} CutLosesNothing(body: string, size: nat, limit: Option<nat>)
    requires size > 0
    ensures Flatten(Cut(body, size, limit)) == body
    decreases |body|
  {
    if |body| <= size || limit == Some(0) {
      assert [body][1..] == [] && body + "" == body;
    } else {
      var fewer := if limit.Some? then Some(limit.value - 1) else None;
      CutLosesNothing(body[size..], size, fewer);
      var rest := Cut(body[size..], size, fewer);
      assert ([body[..size]] + rest)[1..] == rest;
      assert body[..size] + body[size..] == body;
    }
  }

  // With room for every cut there are limit + 1 pieces, equal but for the last.
  lemma {:induction false} CutCount(body: string, size: nat, limit: nat)
    requires size > 0 && |body| >= (limit + 1) * size
    ensures |Cut(body, size, Some(limit))| == limit + 1
    ensures forall i | 0 <= i < limit :: |Cut(body, size, Some(limit))[i]| == size
    decreases limit
  {
    if limit > 0 {
      assert (limit + 1) * size == limit * size + size && limit * size >= size;
      CutCount(body[size..], size, limit - 1);
      var rest := Cut(body[size..], size, Some(limit - 1));
      forall i | 0 <= i < limit
        ensures |Cut(body, size, Some(limit))[i]| == size
      {
        assert i > 0 ==> Cut(body, size, Some(limit))[i] == rest[i - 1];
      }
    }
  }

  lemma {:induction false} CutSizes(body: string, size: nat)
    requires size > 0
    ensures forall i | 0 <= i < |Cut(body, size, None)| :: |Cut(body, size, None)[i]| <= size
    ensures forall i | 0 <= i < |Cut(body, size, None)| - 1 :: |Cut(body, size, None)[i]| == size
    decreases |body|
  {
    if |body| > size {
      CutSizes(body[size..], size);
      var rest := Cut(body[size..], size, None);
      forall i | 0 < i < |Cut(body, size, None)|
        ensures Cut(body, size, None)[i] == rest[i - 1]
      {
      }
    }
  }

  // A plan by number is met exactly, for the bodies that have that many characters; a
  // plan by size is met by every chunk but the last. Either way the chunks are the body.
  lemma ChunksAreTheBody(body: string, plan: ChunkingPlan)
    requires plan.NumChunks? ==> plan.count > 0
    ensures ChunkBody(body, plan).None? <==>
            (match plan case NumChunks(count) => |body| < count case ChunkSize(size) => size == 0)
    ensures ChunkBody(body, plan).Some? ==>
              var chunks := ChunkBody(body, plan).value;
              && Flatten(chunks) == body
              && (plan.NumChunks? ==> |chunks| == plan.count)
              && (plan.ChunkSize? ==> forall i | 0 <= i < |chunks| - 1 :: |chunks[i]| == plan.size)
  {
    hide Cut, Flatten;
    match plan {
      case NumChunks(count) =>
        DivideByCount(|body|, count);
        if |body| >= count {
          CutLosesNothing(body, |body| / count, Some(count - 1));
          CutCount(body, |body| / count, count - 1);
        }
      case ChunkSize(size) =>
        if size > 0 {
          CutLosesNothing(body, size, None);
          CutSizes(body, size);
        }
    }
  }

  lemma DivideByCount(n: nat, count: nat)
    requires count > 0
    ensures n / count == 0 <==> n < count
    ensures count * (n / count) <= n
  {
  }
}
