// The filter callbacks over the coroutine, the proxy that feeds them one direction of
// an HTTP stream, and what holds over whole runs.
module LuaRuns {
  import opened LuaDriver
  import opened LuaLedger
  import opened LuaScript
  import opened LuaStream
  import opened Sequences
  import opened Wrappers

  datatype Event = HeadersEvent(end: bool) | BodyEvent(chunk: seq<byte>, end: bool) | TrailersEvent

  datatype FilterStatus =
    | Continue
    | StopIteration
    | StopIterationAndBuffer
    | StopIterationNoBuffer
    | StopIterationAndWatermark

  // localReply: the HTTP status of the reply that is sent instead, if any.
  datatype Reply = Reply(status: FilterStatus, localReply: Option<nat>, outcome: Outcome)

  function HttpStatus(f: Failure): nat {
    match f
    case ScriptError => 500
    case NoCoroutine => 500
    case EntryPointMissing => 404
    case _ => 400
  }

  function PassOn(s: Stream): Stream {
    s.(flow := s.flow.(passedOn := true))
  }

  function HeadersReply(r: Stream, out: Outcome): (Stream, Reply) {
    match out
    case Error(f) => (r, Reply(StopIteration, Some(HttpStatus(f)), out))
    case Ok(_) =>
      match r.reason
      case WaitForHttp => (r, Reply(StopIteration, None, out))
      case WaitForBody => (r, Reply(StopIteration, None, out))
      case Responded => (r, Reply(StopIteration, None, out))
      case _ => (PassOn(r), Reply(Continue, None, out))
  }

  function BodyReply(r: Stream, out: Outcome): (Stream, Reply) {
    match out
    case Error(f) => (r, Reply(StopIterationNoBuffer, Some(HttpStatus(f)), out))
    case Ok(_) =>
      match r.reason
      case WaitForHttp => (r, Reply(StopIterationAndWatermark, None, out))
      case WaitForBody => (r, Reply(StopIterationAndBuffer, None, out))
      case Responded => (r, Reply(StopIterationNoBuffer, None, out))
      case _ => (PassOn(r), Reply(Continue, None, out))
  }

  function TrailersReply(r: Stream, out: Outcome): (Stream, Reply) {
    match out
    case Error(f) => (r, Reply(StopIteration, Some(HttpStatus(f)), out))
    case Ok(_) =>
      match r.reason
      case WaitForHttp => (r, Reply(StopIteration, None, out))
      case Responded => (r, Reply(StopIteration, None, out))
      case _ => (PassOn(r), Reply(Continue, None, out))
  }

  // The script starts on the headers event. If that fails, no reply is sent.
  function OnHeaders(s: Stream, end: bool): (Stream, Reply)
    requires Inv(s)
  {
    StartKeepsInv(s);
    var (s1, started) := Start(s);
    if started.Error? then (s1, Reply(StopIteration, None, started))
    else
      var (r, out) := HandleHeaders(s1, end);
      HeadersReply(r, out)
  }

  function OnBody(s: Stream, length: nat, end: bool): (Stream, Reply)
    requires Inv(s)
  {
    var (r, out) := HandleBody(s, length, end);
    BodyReply(r, out)
  }

  function OnTrailers(s: Stream): (Stream, Reply)
    requires Inv(s)
  {
    var (r, out) := HandleTrailers(s);
    TrailersReply(r, out)
  }

  // The proxy appends a chunk to what it holds, shows the whole to the filter, and
  // sends it on when the filter says Continue.
  function Deliver(s: Stream, ev: Event): (Stream, Reply)
    requires Inv(s)
  {
    match ev
    case HeadersEvent(end) => OnHeaders(s, end)
    case BodyEvent(chunk, end) => Forward(OnBody(Show(s, chunk), |s.flow.body + chunk|, end))
    case TrailersEvent => Forward(OnTrailers(s))
  }

  function Show(s: Stream, chunk: seq<byte>): Stream {
    s.(flow := s.flow.(body := s.flow.body + chunk))
  }

  function Forward(p: (Stream, Reply)): (Stream, Reply) {
    if p.1.status.Continue? then (Drain(p.0), p.1) else p
  }

  function Drain(s: Stream): Stream {
    s.(flow := s.flow.(body := []))
  }

  function Run(s: Stream, evs: seq<Event>): (Stream, seq<Reply>)
    requires Inv(s)
    decreases |evs|
  {
    if evs == [] then (s, [])
    else
      var (s1, reply) := Deliver(s, evs[0]);
      DeliverKeepsInv(s, evs[0]);
      var (r, replies) := Run(s1, evs[1..]);
      (r, [reply] + replies)
  }

  // Headers first, trailers last, nothing after the end.
  predicate WellOrdered(evs: seq<Event>) {
    evs != [] && evs[0].HeadersEvent? && Continues(evs[1..], evs[0].end)
  }

  predicate Continues(evs: seq<Event>, ended: bool) {
    evs == [] ||
    (!ended &&
     match evs[0]
     case HeadersEvent(_) => false
     case BodyEvent(_, end) => Continues(evs[1..], end)
     case TrailersEvent => |evs| == 1)
  }

  predicate Ends(ev: Event) {
    match ev
    case HeadersEvent(end) => end
    case BodyEvent(_, end) => end
    case TrailersEvent => true
  }

  predicate Complete(evs: seq<Event>) {
    evs != [] && Ends(evs[|evs| - 1])
  }

  // The bytes that come with an event.
  function BytesOf(ev: Event): seq<byte> {
    if ev.BodyEvent? then ev.chunk else []
  }

  function BodyEvents(evs: seq<Event>): nat {
    if evs == [] then 0
    else (if evs[0].BodyEvent? then 1 else 0) + BodyEvents(evs[1..])
  }

  // r is s but for the guard and the proxy's buffer.
  ghost predicate SameButBuffer(s: Stream, r: Stream) {
    r == s.(flow := s.flow.(body := r.flow.body, passedOn := r.flow.passedOn))
  }

  lemma BufferKeepsInv(s: Stream, r: Stream)
    requires Inv(s) && SameButBuffer(s, r)
    ensures Inv(r)
  {
  }

  lemma OnHeadersKeepsInv(s: Stream, end: bool)
    requires Inv(s)
    ensures var (r, reply) := OnHeaders(s, end);
            && Inv(r) && Sound(s, r, reply.outcome) && Onward(s, r, reply.outcome) && Started(r)
  {
    hide Inv, Start, HandleHeaders;
    StartKeepsInv(s);
    var (s1, started) := Start(s);
    if started.Ok? {
      HandleHeadersKeepsInv(s1, end);
      var (r, out) := HandleHeaders(s1, end);
      BufferKeepsInv(r, PassOn(r));
    }
  }

  lemma BufferKeepsFacts(s: Stream, s0: Stream, r: Stream, q: Stream, out: Outcome)
    requires SameButBuffer(s, s0) && SameButBuffer(r, q)
    requires Inv(r) && Sound(s0, r, out) && Onward(s0, r, out)
    ensures Inv(q) && Sound(s, q, out) && Onward(s, q, out)
  {
  }

  lemma BufferChanges(r: Stream, chunk: seq<byte>)
    ensures SameButBuffer(r, r) && SameButBuffer(r, PassOn(r))
    ensures SameButBuffer(r, Drain(PassOn(r))) && SameButBuffer(r, Show(r, chunk))
  {
  }

  lemma RepliesTouchTheBufferOnly(r: Stream, out: Outcome)
    ensures SameButBuffer(r, Forward(BodyReply(r, out)).0)
    ensures SameButBuffer(r, Forward(TrailersReply(r, out)).0)
  {
    hide SameButBuffer, Drain, PassOn;
    BufferChanges(r, []);
  }

  lemma DeliverBodyKeepsInv(s: Stream, chunk: seq<byte>, end: bool)
    requires Inv(s)
    ensures var (r, reply) := Deliver(s, BodyEvent(chunk, end));
            Inv(r) && Sound(s, r, reply.outcome) && Onward(s, r, reply.outcome)
  {
    hide Inv, HandleBody, SameButBuffer, Sound, Onward;
    var s0 := Show(s, chunk);
    BufferChanges(s, chunk);
    BufferKeepsInv(s, s0);
    HandleBodyKeepsInv(s0, |s.flow.body + chunk|, end);
    var (r, out) := HandleBody(s0, |s.flow.body + chunk|, end);
    RepliesTouchTheBufferOnly(r, out);
    BufferKeepsFacts(s, s0, r, Forward(BodyReply(r, out)).0, out);
  }

  lemma DeliverTrailersKeepsInv(s: Stream)
    requires Inv(s)
    ensures var (r, reply) := Deliver(s, TrailersEvent);
            Inv(r) && Sound(s, r, reply.outcome) && Onward(s, r, reply.outcome)
  {
    hide Inv, HandleTrailers, SameButBuffer, Sound, Onward;
    HandleTrailersKeepsInv(s);
    var (r, out) := HandleTrailers(s);
    RepliesTouchTheBufferOnly(r, out);
    BufferChanges(s, []);
    BufferKeepsFacts(s, s, r, Forward(TrailersReply(r, out)).0, out);
  }

  lemma DeliverKeepsInv(s: Stream, ev: Event)
    requires Inv(s)
    ensures var (r, reply) := Deliver(s, ev);
            && Inv(r) && Sound(s, r, reply.outcome) && Onward(s, r, reply.outcome)
            && (ev.HeadersEvent? ==> Started(r))
  {
    hide Inv, OnHeaders, OnBody, OnTrailers, Sound, Onward;
    match ev
    case HeadersEvent(end) => OnHeadersKeepsInv(s, end);
    case BodyEvent(chunk, end) => DeliverBodyKeepsInv(s, chunk, end);
    case TrailersEvent => DeliverTrailersKeepsInv(s);
  }

  lemma BufferKeepsLedger(s: Stream, r: Stream, n: nat, orderly: bool)
    requires Ledger(s, n, orderly) && SameButBuffer(s, r)
    ensures Ledger(r, n, orderly) && s.thread.history == r.thread.history
  {
    TimelyGrows(s.flow, r.flow, s.thread.history);
  }

  // A trailers event overtakes a chunk that no accessor was answered with.
  predicate Overtakes(s: Stream, ev: Event) {
    ev.TrailersEvent? && ChunkPending(s.flow)
  }

  lemma DeliverKeepsLedger(s: Stream, ev: Event, n: nat, orderly: bool)
    requires Inv(s) && Ledger(s, n, orderly)
    requires ev.HeadersEvent? ==> !s.flow.ended && !Started(s)
    ensures var r := Deliver(s, ev).0;
            && Ledger(r, if ev.BodyEvent? then n + 1 else n, orderly && !Overtakes(s, ev))
            && s.thread.history <= r.thread.history
  {
    hide Inv, Ledger, Start, HandleHeaders, HandleBody, HandleTrailers, SameButBuffer;
    match ev
    case HeadersEvent(end) =>
      StartKeepsInv(s);
      StartKeeps(s, n, orderly);
      StartKeepsOpen(s);
      var (s1, started) := Start(s);
      if started.Ok? {
        HandleHeadersKeeps(s1, end, n, orderly);
        var (r, out) := HandleHeaders(s1, end);
        BufferChanges(r, []);
        BufferKeepsLedger(r, PassOn(r), n, orderly);
      }
    case BodyEvent(chunk, end) =>
      var s0 := Show(s, chunk);
      BufferChanges(s, chunk);
      BufferKeepsInv(s, s0);
      BufferKeepsLedger(s, s0, n, orderly);
      HandleBodyKeeps(s0, |s.flow.body + chunk|, end, n, orderly);
      var (r, out) := HandleBody(s0, |s.flow.body + chunk|, end);
      RepliesTouchTheBufferOnly(r, out);
      BufferKeepsLedger(r, Forward(BodyReply(r, out)).0, n + 1, orderly);
    case TrailersEvent =>
      HandleTrailersKeeps(s, n, orderly);
      var (r, out) := HandleTrailers(s);
      RepliesTouchTheBufferOnly(r, out);
      BufferKeepsLedger(r, Forward(TrailersReply(r, out)).0, n, orderly && !ChunkPending(s.flow));
  }

  lemma StartKeepsOpen(s: Stream)
    requires Inv(s) && !s.flow.ended
    ensures Start(s).0.flow == s.flow
  {
    if s.state.Yielded? && s.reason.WaitToStart? {
      StartRunsOn(s);
    }
  }

  predicate EverOvertaken(s: Stream, evs: seq<Event>)
    requires Inv(s)
    decreases |evs|
  {
    evs != [] &&
    (Overtakes(s, evs[0]) || (DeliverKeepsInv(s, evs[0]); EverOvertaken(Deliver(s, evs[0]).0, evs[1..])))
  }

  predicate NoHeaders(evs: seq<Event>) {
    forall ev | ev in evs :: !ev.HeadersEvent?
  }

  lemma {:induction false} ContinuesWithoutHeaders(evs: seq<Event>, ended: bool)
    requires Continues(evs, ended)
    ensures NoHeaders(evs)
  {
    if evs != [] && evs[0].BodyEvent? {
      ContinuesWithoutHeaders(evs[1..], evs[0].end);
    }
  }

  lemma {:induction false} RunKeeps(s: Stream, evs: seq<Event>, n: nat, orderly: bool)
    requires Inv(s) && Ledger(s, n, orderly)
    requires evs != [] ==> evs[0].HeadersEvent? ==> !s.flow.ended && !Started(s)
    requires evs != [] ==> NoHeaders(evs[1..])
    ensures var (r, replies) := Run(s, evs);
            && Inv(r)
            && Ledger(r, n + BodyEvents(evs), orderly && !EverOvertaken(s, evs))
            && |replies| == |evs|
            && r.flow.script == s.flow.script && r.flow.mode == s.flow.mode
    decreases |evs|
  {
    hide Ledger, Deliver, Inv;
    if evs != [] {
      DeliverKeepsInv(s, evs[0]);
      DeliverKeepsLedger(s, evs[0], n, orderly);
      RunKeeps(Deliver(s, evs[0]).0, evs[1..], if evs[0].BodyEvent? then n + 1 else n,
               orderly && !Overtakes(s, evs[0]));
    }
  }

  lemma NewIsInOrder(mode: Mode, script: Script)
    requires Ranked(script, mode)
    ensures var s := New(mode, script); Inv(s) && Ledger(s, 0, true) && !Started(s)
  {
  }

  // A run from the creation of the stream.
  function FreshRun(mode: Mode, script: Script, evs: seq<Event>): (Stream, seq<Reply>)
    requires Ranked(script, mode)
  {
    NewIsInOrder(mode, script);
    Run(New(mode, script), evs)
  }

  ghost predicate OvertakenInRun(mode: Mode, script: Script, evs: seq<Event>)
    requires Ranked(script, mode)
  {
    NewIsInOrder(mode, script);
    EverOvertaken(New(mode, script), evs)
  }

  lemma RunOne(s: Stream, ev: Event)
    requires Inv(s)
    ensures var (r, reply) := Deliver(s, ev); Run(s, [ev]) == (r, [reply])
  {
    hide Deliver, Inv;
    DeliverKeepsInv(s, ev);
    assert [ev][1..] == [];
    WithEmpty([Deliver(s, ev).1]);
  }

  lemma RunFirst(s: Stream, ev: Event, rest: seq<Event>)
    requires Inv(s)
    ensures var (r, reply) := Deliver(s, ev);
            Inv(r) && Run(s, [ev] + rest) == (Run(r, rest).0, [reply] + Run(r, rest).1)
  {
    hide Deliver, Inv;
    DeliverKeepsInv(s, ev);
    TailOfCons(ev, rest);
  }

  // The state of a run after its first i events.
  function After(mode: Mode, script: Script, evs: seq<Event>, i: nat): Stream
    requires Ranked(script, mode) && i <= |evs|
  {
    FreshRun(mode, script, evs[..i]).0
  }

  function HistoryAfter(mode: Mode, script: Script, evs: seq<Event>, i: nat): seq<Value>
    requires Ranked(script, mode) && i <= |evs|
  {
    After(mode, script, evs, i).thread.history
  }

  // A run goes from event to event.
  lemma {:induction false} RunAt(s: Stream, evs: seq<Event>, i: nat)
    requires Inv(s) && i < |evs|
    ensures |Run(s, evs).1| == |evs|
    ensures Inv(Run(s, evs[..i]).0)
    ensures Deliver(Run(s, evs[..i]).0, evs[i]) == (Run(s, evs[..i + 1]).0, Run(s, evs).1[i])
    decreases |evs|
  {
    hide Deliver, Inv;
    DeliverKeepsInv(s, evs[0]);
    var s1 := Deliver(s, evs[0]).0;
    if |evs| > 1 {
      RunAt(s1, evs[1..], if i == 0 then 0 else i - 1);
    }
    if i == 0 {
      assert evs[..1] == [evs[0]];
      RunOne(s, evs[0]);
    } else {
      assert evs[..i] == [evs[0]] + evs[1..][..i - 1] && evs[..i + 1] == [evs[0]] + evs[1..][..i];
      RunFirst(s, evs[0], evs[1..][..i - 1]);
      RunFirst(s, evs[0], evs[1..][..i]);
    }
  }

  lemma FreshRunAt(mode: Mode, script: Script, evs: seq<Event>, i: nat)
    requires Ranked(script, mode) && i < |evs|
    ensures After(mode, script, evs, 0) == New(mode, script)
    ensures |FreshRun(mode, script, evs).1| == |evs|
    ensures Inv(After(mode, script, evs, i)) && Inv(After(mode, script, evs, i + 1))
    ensures Deliver(After(mode, script, evs, i), evs[i]) ==
            (After(mode, script, evs, i + 1), FreshRun(mode, script, evs).1[i])
  {
    hide Deliver, Inv;
    NewIsInOrder(mode, script);
    RunAt(New(mode, script), evs, i);
    assert evs[..0] == [];
    DeliverKeepsInv(After(mode, script, evs, i), evs[i]);
  }

  lemma {:induction false} ContinuesAt(evs: seq<Event>, ended: bool, i: nat)
    requires Continues(evs, ended) && i < |evs|
    ensures !evs[i].HeadersEvent? && !(if i == 0 then ended else Ends(evs[i - 1]))
  {
    if i > 0 {
      ContinuesAt(evs[1..], evs[0].end, i - 1);
    }
  }

  lemma WellOrderedAt(evs: seq<Event>, i: nat)
    requires WellOrdered(evs) && i < |evs|
    ensures evs[i].HeadersEvent? <==> i == 0
    ensures i > 0 ==> !Ends(evs[i - 1])
  {
    if i > 0 {
      ContinuesAt(evs[1..], evs[0].end, i - 1);
    }
  }

  // In every state that well-ordered events lead to, every answer the script has had
  // fits its call and did not come too early.
  lemma AnswersFitAndAreTimely(mode: Mode, script: Script, evs: seq<Event>, i: nat)
    requires Ranked(script, mode) && WellOrdered(evs)
    requires i < |FreshRun(mode, script, evs).0.thread.history|
    ensures var f, h := FreshRun(mode, script, evs).0.flow, FreshRun(mode, script, evs).0.thread.history;
            var a := script.next(h[..i]);
            && a.Call? && Answers(a.accessor, mode, h[i])
            && (a == Call(Headers) ==> f.gotHeaders)
            && (a == Call(Body) || a == Call(Trailers) || h[i].Nil? ==> f.ended)
            && !(f.gotBody && f.gotTrailers)
  {
    NewIsInOrder(mode, script);
    ContinuesWithoutHeaders(evs[1..], evs[0].end);
    RunKeeps(New(mode, script), evs, 0, true);
    var r := FreshRun(mode, script, evs).0;
    WellAnsweredAt(script, mode, r.thread.history, i);
    TimelyAt(r.flow, r.thread.history, i);
  }
}
