// The event handlers of the stream coroutine, as functions on its state, and what
// every call keeps, whatever the order of the calls.
module LuaDriver {
  import opened LuaScript
  import opened LuaStream

  // Answer the pending call if it is the one awaited.
  function ServeIf(s: Stream, reason: YieldReason, v: Value): (Stream, Outcome)
    requires Ranked(s.flow.script, s.flow.mode)
  {
    if s.reason == reason then Answer(s, v) else (s, Ok(s.state))
  }

  function BodyHandle(f: Flow): Value {
    Buffer(f.mode, f.body)
  }

  function ConsumeChunk(s: Stream): Stream {
    s.(flow := s.flow.(chunkConsumed := true))
  }

  // Runs a coroutine whose stream has ended: nothing is left to wait for.
  function RunToCompletion(s: Stream): (Stream, Outcome)
    requires Consistent(s)
    decreases if ChunkPending(s.flow) then 1 else 0, s.flow.script.rank(s.thread.history)
  {
    if s.state.Exited? || !DataWait(s.reason) then (s, Ok(s.state))
    else
      var (r, out) := Turn(s);
      TurnRunsOn(s);
      if out.Error? then (r, out) else RunToCompletion(r)
  }

  // One turn of that loop: a pending chunk goes to the chunk iterator first.
  function Turn(s: Stream): (Stream, Outcome)
    requires Ranked(s.flow.script, s.flow.mode)
  {
    Answer(if TakesChunk(s) then ConsumeChunk(s) else s, FinalAnswer(s))
  }

  predicate TakesChunk(s: Stream) {
    s.reason.WaitForBodyChunks? && ChunkPending(s.flow)
  }

  // The waits that the end of the stream resolves.
  predicate DataWait(reason: YieldReason) {
    reason.WaitForBodyChunks? || reason.WaitForBody? || reason.WaitForTrailers?
  }

  // What an ended stream answers. The trailers carry no guard.
  function FinalAnswer(s: Stream): Value {
    match s.reason
    case WaitForBodyChunks => if ChunkPending(s.flow) then BodyHandle(s.flow) else Nil
    case WaitForTrailers => TrailerMap(s.flow.mode, false)
    case _ => BodyHandle(s.flow)
  }

  function AfterEvent(s: Stream): (Stream, Outcome)
    requires Consistent(s)
  {
    if s.flow.ended then RunToCompletion(s) else (s, Ok(s.state))
  }

  function Start(s: Stream): (Stream, Outcome)
    requires Inv(s)
  {
    if !s.state.Yielded? || !s.reason.WaitToStart? then (s, Error(AlreadyStarted))
    else
      var (r, out) := ExecuteFunction(s);
      StartRunsOn(s);
      match out
      case Error(_) => (r.(state := Exited), out)
      case Ok(st) => AfterEvent(r.(state := st))
  }

  function HandleHeaders(s: Stream, end: bool): (Stream, Outcome)
    requires Inv(s)
  {
    var s0 := s.(flow := s.flow.(ended := end, gotHeaders := true));
    var v := HeaderMap(s.flow.mode, false);
    var (r, out) := ServeIf(s0, WaitForHeaders, v);
    ServeRunsOn(s0, WaitForHeaders, v);
    if out.Error? then (r, out) else AfterEvent(r)
  }

  // The flow after a body event, before the script hears of it.
  function BodyArrived(f: Flow, length: nat, end: bool): Flow {
    f.(ended := end,
       hasBodyData := f.hasBodyData || length > 0,
       chunkConsumed := f.chunkConsumed && length == 0,
       gotBody := f.gotBody || end)
  }

  function HandleBody(s: Stream, length: nat, end: bool): (Stream, Outcome)
    requires Inv(s)
  {
    if s.flow.ended then (s, Error(BodyAfterEnd))
    else
      var s0 := s.(flow := BodyArrived(s.flow, length, end));
      if s.state.Exited? then (s0, Ok(Exited))
      else if s.reason.WaitForBodyChunks? || (s.reason.WaitForBody? && end) then
        var (r, out) := Answer(ConsumeChunk(s0), BodyHandle(s0.flow));
        ServeRunsOn(ConsumeChunk(s0), s.reason, BodyHandle(s0.flow));
        if out.Error? then (r, out) else AfterEvent(r)
      else AfterEvent(s0)
  }

  function HandleTrailers(s: Stream): (Stream, Outcome)
    requires Inv(s)
  {
    if s.flow.ended then (s, Error(TrailersAfterEnd))
    else if !s.flow.gotHeaders then (s, Error(TrailersBeforeHeaders))
    else if s.flow.gotTrailers then (s, Error(TrailersTwice))
    else
      var s0 := s.(flow := s.flow.(gotTrailers := true, ended := true));
      if s.state.Exited? then (s0, Ok(Exited))
      else
        var p1 := ThenServe((s0, Ok(s0.state)), WaitForBody, BodyHandle(s0.flow));
        var p2 := ThenServe(p1, WaitForBodyChunks, Nil);
        var p3 := ThenServe(p2, WaitForTrailers, TrailerMap(s.flow.mode, false));
        if p3.1.Error? then p3 else RunToCompletion(p3.0)
  }

  // The next answer of a chain that stops at the first error.
  function ThenServe(p: (Stream, Outcome), reason: YieldReason, v: Value): (q: (Stream, Outcome))
    requires Consistent(p.0) && Fits(reason, p.0.flow.mode, v)
    ensures Consistent(q.0) && q.0.flow == p.0.flow
  {
    ServeRunsOn(p.0, reason, v);
    if p.1.Error? then p else ServeIf(p.0, reason, v)
  }

  // The headers map, the buffer, the trailers and nil fit the waits they are pushed for.
  predicate Fits(reason: YieldReason, m: Mode, v: Value) {
    match reason
    case WaitForHeaders => Answers(Headers, m, v)
    case WaitForBody => Answers(Body, m, v)
    case WaitForBodyChunks => Answers(BodyChunks, m, v)
    case WaitForTrailers => Answers(Trailers, m, v)
    case _ => false
  }

  lemma ServeRunsOn(s: Stream, reason: YieldReason, v: Value)
    requires Consistent(s) && Fits(reason, s.flow.mode, v)
    ensures
      var (r, out) := ServeIf(s, reason, v);
      && Consistent(r) && r.flow == s.flow
      && (s.reason == reason ==>
            s.state.Yielded? && Inv(r) && RanOn(s, s.thread.history + [v], r, out))
      && (s.reason != reason ==> r == s && out == Ok(s.state))
  {
    if s.reason == reason {
      assert s.state.Yielded? && Parked(s);
      assert Answers(s.flow.script.next(s.thread.history).accessor, s.flow.mode, v);
      AnswerRunsOn(s, v);
    }
  }

  lemma StartRunsOn(s: Stream)
    requires Inv(s) && s.state.Yielded? && s.reason.WaitToStart?
    ensures
      var (r, out) := ExecuteFunction(s);
      var st := if out.Ok? then out.state else Exited;
      && Inv(r.(state := st))
      && (s.flow.script.defined ==> RanOn(s, [], r.(state := st), out))
      && (!s.flow.script.defined ==> r == s && out == Error(EntryPointMissing))
  {
    if s.flow.script.defined {
      ExecuteRunsOn(s);
    }
  }

  lemma TurnRunsOn(s: Stream)
    requires Consistent(s) && s.state.Yielded? && DataWait(s.reason)
    ensures
      var s0 := if TakesChunk(s) then ConsumeChunk(s) else s;
      var (r, out) := Turn(s);
      && Inv(r)
      && RanOn(s0, s.thread.history + [FinalAnswer(s)], r, out)
      && (!TakesChunk(s) ==> s.flow.script.rank(r.thread.history) < s.flow.script.rank(s.thread.history))
  {
    AnswerRunsOn(if TakesChunk(s) then ConsumeChunk(s) else s, FinalAnswer(s));
    assert UsesRank(s.flow.script, s.flow.mode, s.thread.history, FinalAnswer(s));
  }

  lemma ArrivalFacts(s: Stream, length: nat, end: bool)
    requires Inv(s)
    ensures var f := BodyArrived(s.flow, length, end);
            && f.script == s.flow.script && f.mode == s.flow.mode
            && f.body == s.flow.body && f.ended == end
            && Consistent(s.(flow := f)) && Consistent(ConsumeChunk(s.(flow := f)))
  {
  }

  // ---- What every call keeps, in any order of calls ----

  // The driver's own errors, as opposed to a failing script and refused events.
  predicate Internal(f: Failure) {
    f.ResumeExited? || f.DeadThread? || f.YieldedThread? || f.ThreadRunning? || f.NotEnoughArguments?
  }

  predicate Returned(s: Stream) {
    s.flow.script.next(s.thread.history).Return?
  }

  // The outcome of an event from s to r reports the state of r, where an exit is a
  // return of the script; or it reports a failure that is not the driver's own.
  ghost predicate Sound(s: Stream, r: Stream, out: Outcome) {
    && r.flow.script == s.flow.script && r.flow.mode == s.flow.mode
    && match out
       case Ok(st) => st == r.state && (st.Exited? ==> Returned(r) || (s.state.Exited? && !Returned(s)))
       case Error(f) => !Internal(f)
  }

  // The script has been entered: it has exited or it is suspended.
  predicate Started(s: Stream) {
    s.state.Exited? || s.thread.yielded
  }

  // Once started, it stays started; an exited script stays exited; and if all went well on a stream that has ended,
  // the script waits for no more data.
  predicate Onward(s: Stream, r: Stream, out: Outcome) {
    && (Started(s) ==> Started(r))
    && (s.state.Exited? ==> r.state.Exited?)
    && (out.Ok? && r.flow.ended ==> r.state.Exited? || !DataWait(r.reason))
  }

  // g is f, but for the chunk that may have been taken meanwhile.
  ghost predicate SameFlags(f: Flow, g: Flow) {
    g == f.(chunkConsumed := g.chunkConsumed)
  }

  lemma TurnFacts(s: Stream)
    requires Inv(s) && s.state.Yielded? && DataWait(s.reason)
    ensures
      var (r, out) := Turn(s);
      && Inv(r) && Sound(s, r, out)
      && Started(r)
      && SameFlags(s.flow, r.flow)
      && (out.Error? ==> out.failure.ScriptError? && r.state.Exited?)
  {
    hide Turn;
    TurnRunsOn(s);
  }

  lemma {:induction false} RunToCompletionFacts(s: Stream)
    requires Inv(s)
    ensures
      var (r, out) := RunToCompletion(s);
      && Inv(r) && Sound(s, r, out)
      && SameFlags(s.flow, r.flow)
      && (s.state.Exited? ==> r == s)
      && (out.Error? ==> out.failure.ScriptError? && r.state.Exited?)
      && (Started(s) ==> Started(r))
      && (out.Ok? ==> r.state.Exited? || !DataWait(r.reason))
    decreases if ChunkPending(s.flow) then 1 else 0, s.flow.script.rank(s.thread.history)
  {
    hide Turn, RanOn;
    if s.state.Yielded? && DataWait(s.reason) {
      TurnRunsOn(s);
      TurnFacts(s);
      var (r, out) := Turn(s);
      if out.Ok? && r.state.Yielded? {
        RunToCompletionFacts(r);
      }
    }
  }

  lemma AfterEventFacts(s: Stream)
    requires Inv(s)
    ensures var (r, out) := AfterEvent(s);
            && Inv(r) && Sound(s, r, out) && Onward(s, r, out)
            && (s.state.Exited? ==> r == s)
            && SameFlags(s.flow, r.flow)
            && (out.Error? ==> out.failure.ScriptError? && r.state.Exited?)
  {
    if s.flow.ended {
      RunToCompletionFacts(s);
    }
  }

  lemma StartKeepsInv(s: Stream)
    requires Inv(s)
    ensures var (r, out) := Start(s); Inv(r) && Sound(s, r, out) && Onward(s, r, out) && Started(r)
    ensures SameFlags(s.flow, Start(s).0.flow)
    ensures Start(s).1.Error? && Start(s).1 != Error(AlreadyStarted) ==> Start(s).0.state.Exited?
    ensures Start(s).1 == Error(AlreadyStarted) <==> !(s.state.Yielded? && s.reason.WaitToStart?)
    ensures Start(s).1 == Error(EntryPointMissing) <==>
            s.state.Yielded? && s.reason.WaitToStart? && !s.flow.script.defined
  {
    hide ExecuteFunction, AfterEvent;
    if s.state.Yielded? && s.reason.WaitToStart? {
      StartRunsOn(s);
      var (r, out) := ExecuteFunction(s);
      if out.Ok? {
        AfterEventFacts(r.(state := out.state));
      }
    }
  }

  lemma HandleHeadersKeepsInv(s: Stream, end: bool)
    requires Inv(s)
    ensures var (r, out) := HandleHeaders(s, end);
            Inv(r) && Sound(s, r, out) && Onward(s, r, out) && (out.Error? ==> out.failure.ScriptError?)
  {
    hide Answer, RunToCompletion;
    var s0 := s.(flow := s.flow.(ended := end, gotHeaders := true));
    var v := HeaderMap(s.flow.mode, false);
    ServeRunsOn(s0, WaitForHeaders, v);
    var (r, out) := ServeIf(s0, WaitForHeaders, v);
    if out.Ok? {
      AfterEventFacts(r);
    }
  }

  lemma HandleBodyKeepsInv(s: Stream, length: nat, end: bool)
    requires Inv(s)
    ensures var (r, out) := HandleBody(s, length, end); Inv(r) && Sound(s, r, out) && Onward(s, r, out)
    ensures HandleBody(s, length, end).1 == Error(BodyAfterEnd) <==> s.flow.ended
  {
    hide Answer, RunToCompletion, Ranked, WellAnswered, SameFlags;
    if !s.flow.ended && s.state.Yielded? {
      var s0 := s.(flow := BodyArrived(s.flow, length, end));
      if s.reason.WaitForBodyChunks? || (s.reason.WaitForBody? && end) {
        var s1 := ConsumeChunk(s0);
        ServeRunsOn(s1, s.reason, BodyHandle(s0.flow));
        var (r, out) := Answer(s1, BodyHandle(s0.flow));
        if out.Ok? {
          AfterEventFacts(r);
        }
      } else {
        AfterEventFacts(s0);
      }
    }
  }

  lemma HandleTrailersKeepsInv(s: Stream)
    requires Inv(s)
    ensures var (r, out) := HandleTrailers(s); Inv(r) && Sound(s, r, out) && Onward(s, r, out)
    ensures HandleTrailers(s).1 == Error(TrailersAfterEnd) <==> s.flow.ended
    ensures HandleTrailers(s).1 == Error(TrailersBeforeHeaders) <==> !s.flow.ended && !s.flow.gotHeaders
    ensures HandleTrailers(s).1 == Error(TrailersTwice) <==>
            !s.flow.ended && s.flow.gotHeaders && s.flow.gotTrailers
  {
    hide Answer, RunToCompletion, Ranked, WellAnswered, SameFlags;
    if !s.flow.ended && s.flow.gotHeaders && !s.flow.gotTrailers && s.state.Yielded? {
      var s0 := s.(flow := s.flow.(gotTrailers := true, ended := true));
      var p1 := ThenServeFacts(s, (s0, Ok(s0.state)), WaitForBody, BodyHandle(s0.flow));
      var p2 := ThenServeFacts(s, p1, WaitForBodyChunks, Nil);
      var p3 := ThenServeFacts(s, p2, WaitForTrailers, TrailerMap(s.flow.mode, false));
      RunToCompletionFacts(p3.0);
    }
  }

  lemma ThenServeFacts(s: Stream, p: (Stream, Outcome), reason: YieldReason, v: Value)
    returns (q: (Stream, Outcome))
    requires Inv(p.0) && Sound(s, p.0, p.1) && Fits(reason, p.0.flow.mode, v)
    requires p.0.flow.gotHeaders && !reason.WaitForHeaders?
    ensures q == ThenServe(p, reason, v)
    requires p.1.Error? ==> p.1.failure.ScriptError?
    ensures Inv(q.0) && Sound(s, q.0, q.1) && q.0.flow == p.0.flow
    ensures q.1.Error? ==> q.1.failure.ScriptError?
    ensures Started(p.0) ==> Started(q.0)
  {
    hide Answer;
    q := ThenServe(p, reason, v);
    if p.1.Ok? && p.0.reason == reason {
      ServeRunsOn(p.0, reason, v);
    }
  }

  // What the three event handlers do to the flags.
  lemma HandleHeadersFlags(s: Stream, end: bool)
    requires Inv(s)
    ensures SameFlags(s.flow.(ended := end, gotHeaders := true), HandleHeaders(s, end).0.flow)
  {
    hide Answer, AfterEvent, RanOn;
    var s0 := s.(flow := s.flow.(ended := end, gotHeaders := true));
    var v := HeaderMap(s.flow.mode, false);
    ServeRunsOn(s0, WaitForHeaders, v);
    var (r, out) := ServeIf(s0, WaitForHeaders, v);
    assert r.flow == s0.flow;
    if out.Ok? {
      AfterEventFacts(r);
    }
  }

  lemma HandleBodyFlags(s: Stream, length: nat, end: bool)
    requires Inv(s) && !s.flow.ended
    ensures SameFlags(BodyArrived(s.flow, length, end), HandleBody(s, length, end).0.flow)
  {
    hide Answer, AfterEvent, RanOn, Ranked, WellAnswered;
    var s0 := s.(flow := BodyArrived(s.flow, length, end));
    if s.state.Yielded? {
      if s.reason.WaitForBodyChunks? || (s.reason.WaitForBody? && end) {
        var s1 := ConsumeChunk(s0);
        ServeRunsOn(s1, s.reason, BodyHandle(s0.flow));
        var (r, out) := Answer(s1, BodyHandle(s0.flow));
        if out.Ok? {
          AfterEventFacts(r);
        }
      } else {
        AfterEventFacts(s0);
      }
    }
  }

  lemma HandleTrailersFlags(s: Stream)
    requires Inv(s) && !s.flow.ended && s.flow.gotHeaders && !s.flow.gotTrailers
    ensures SameFlags(s.flow.(ended := true, gotTrailers := true), HandleTrailers(s).0.flow)
  {
    hide Answer, RunToCompletion, Ranked, WellAnswered;
    if s.state.Yielded? {
      var s0 := s.(flow := s.flow.(gotTrailers := true, ended := true));
      var p1 := ThenServeFacts(s, (s0, Ok(s0.state)), WaitForBody, BodyHandle(s0.flow));
      var p2 := ThenServeFacts(s, p1, WaitForBodyChunks, Nil);
      var p3 := ThenServeFacts(s, p2, WaitForTrailers, TrailerMap(s.flow.mode, false));
      if p3.1.Ok? {
        RunToCompletionFacts(p3.0);
      }
    }
  }

  // The four entry points, each with the proxy's body buffer at the time.
  datatype ApiCall =
    | StartCall(body: seq<byte>)
    | HeadersCall(body: seq<byte>, end: bool)
    | BodyCall(body: seq<byte>, length: nat, end: bool)
    | TrailersCall(body: seq<byte>)

  function Apply(s: Stream, c: ApiCall): (Stream, Outcome)
    requires Inv(s)
  {
    var s0 := s.(flow := s.flow.(body := c.body));
    match c
    case StartCall(_) => Start(s0)
    case HeadersCall(_, end) => HandleHeaders(s0, end)
    case BodyCall(_, length, end) => HandleBody(s0, length, end)
    case TrailersCall(_) => HandleTrailers(s0)
  }

  lemma ApplyKeepsInv(s: Stream, c: ApiCall)
    requires Inv(s)
    ensures var (r, out) := Apply(s, c); Inv(r) && Sound(s, r, out)
  {
    var s0 := s.(flow := s.flow.(body := c.body));
    match c
    case StartCall(_) => StartKeepsInv(s0);
    case HeadersCall(_, end) => HandleHeadersKeepsInv(s0, end);
    case BodyCall(_, length, end) => HandleBodyKeepsInv(s0, length, end);
    case TrailersCall(_) => HandleTrailersKeepsInv(s0);
  }

  // The outcomes of a sequence of calls.
  function Outcomes(s: Stream, cs: seq<ApiCall>): seq<Outcome>
    requires Inv(s)
    decreases |cs|
  {
    if cs == [] then []
    else
      ApplyKeepsInv(s, cs[0]);
      [Apply(s, cs[0]).1] + Outcomes(Apply(s, cs[0]).0, cs[1..])
  }

  // Whatever the script and whatever the order of the calls, the driver never
  // resumes a thread that cannot be resumed.
  lemma {:induction false} NoInternalError(s: Stream, cs: seq<ApiCall>)
    requires Inv(s)
    ensures forall out | out in Outcomes(s, cs) :: out.Error? ==> !Internal(out.failure)
    decreases |cs|
  {
    if cs != [] {
      ApplyKeepsInv(s, cs[0]);
      NoInternalError(Apply(s, cs[0]).0, cs[1..]);
    }
  }
}
