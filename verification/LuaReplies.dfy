// What the events and the script decide over whole runs: the flags, the filter
// statuses and the local replies.
module LuaReplies {
  import opened LuaDriver
  import opened LuaLedger
  import opened LuaRuns
  import opened LuaScript
  import opened LuaStream
  import opened LuaTheorems
  import opened Wrappers

  // ---- One event ----

  // What the proxy promises of an event, and of the script's start.
  predicate Expected(s: Stream, ev: Event)
    requires Inv(s)
  {
    && !s.flow.ended
    && match ev
       case HeadersEvent(_) => Start(s).1.Ok?
       case BodyEvent(_, _) => Started(s) && s.flow.gotHeaders
       case TrailersEvent => Started(s) && s.flow.gotHeaders && !s.flow.gotTrailers
  }

  // The flow that an event leaves, but for the chunk and the guard.
  ghost predicate Follows(f: Flow, ev: Event, reply: Reply, g: Flow) {
    && g.mode == f.mode && g.script == f.script
    && (g.ended <==> Ends(ev))
    && (g.gotHeaders <==> f.gotHeaders || ev.HeadersEvent?)
    && (g.gotBody <==> f.gotBody || (ev.BodyEvent? && ev.end))
    && (g.gotTrailers <==> f.gotTrailers || ev.TrailersEvent?)
    && (g.hasBodyData <==> f.hasBodyData || (ev.BodyEvent? && (f.body != [] || ev.chunk != [])))
    && (g.passedOn <==> f.passedOn || reply.status.Continue?)
    && (ev.HeadersEvent? ==> g.body == f.body)
    && (!ev.HeadersEvent? && reply.status.Continue? ==> g.body == [])
    && (ev.TrailersEvent? && !reply.status.Continue? ==> g.body == f.body)
    && (ev.BodyEvent? && !reply.status.Continue? ==> g.body == f.body + ev.chunk)
  }

  // What a reply does to the flow.
  ghost predicate Replied(f: Flow, reply: Reply, drains: bool, g: Flow) {
    g == f.(body := if drains && reply.status.Continue? then [] else f.body,
            passedOn := f.passedOn || reply.status.Continue?)
  }

  lemma RepliesMark(r: Stream, out: Outcome)
    ensures var (q, reply) := HeadersReply(r, out); Replied(r.flow, reply, false, q.flow)
    ensures var (q, reply) := Forward(BodyReply(r, out)); Replied(r.flow, reply, true, q.flow)
    ensures var (q, reply) := Forward(TrailersReply(r, out)); Replied(r.flow, reply, true, q.flow)
  {
    hide BodyReply, TrailersReply, HeadersReply, Forward;
    HeadersReplyMarks(r, out);
    BodyReplyMarks(r, out);
    TrailersReplyMarks(r, out);
  }

  lemma HeadersReplyMarks(r: Stream, out: Outcome)
    ensures var (q, reply) := HeadersReply(r, out); Replied(r.flow, reply, false, q.flow)
  {
    hide PassOn;
    Marks(r);
  }

  lemma BodyReplyMarks(r: Stream, out: Outcome)
    ensures var (q, reply) := Forward(BodyReply(r, out)); Replied(r.flow, reply, true, q.flow)
  {
    hide PassOn, Drain;
    Marks(r);
  }

  lemma TrailersReplyMarks(r: Stream, out: Outcome)
    ensures var (q, reply) := Forward(TrailersReply(r, out)); Replied(r.flow, reply, true, q.flow)
  {
    hide PassOn, Drain;
    Marks(r);
  }

  lemma Marks(r: Stream)
    ensures r.flow == r.flow.(body := r.flow.body, passedOn := r.flow.passedOn)
    ensures PassOn(r).flow == r.flow.(body := r.flow.body, passedOn := true)
    ensures Drain(PassOn(r)).flow == r.flow.(body := [], passedOn := true)
  {
  }

  lemma HeadersFollow(s: Stream, end: bool)
    requires Inv(s) && Expected(s, HeadersEvent(end))
    ensures var (r, reply) := Deliver(s, HeadersEvent(end)); Follows(s.flow, HeadersEvent(end), reply, r.flow)
  {
    hide Inv, Start, HandleHeaders, HeadersReply;
    StartKeepsInv(s);
    StartKeepsOpen(s);
    HandleHeadersFlags(Start(s).0, end);
    var (r, out) := HandleHeaders(Start(s).0, end);
    RepliesMark(r, out);
  }

  lemma BodyFollows(s: Stream, chunk: seq<byte>, end: bool)
    requires Inv(s) && !s.flow.ended
    ensures var (r, reply) := Deliver(s, BodyEvent(chunk, end)); Follows(s.flow, BodyEvent(chunk, end), reply, r.flow)
  {
    hide Inv, HandleBody, BodyReply, Forward;
    BufferChanges(s, chunk);
    BufferKeepsInv(s, Show(s, chunk));
    HandleBodyFlags(Show(s, chunk), |s.flow.body + chunk|, end);
    var (r, out) := HandleBody(Show(s, chunk), |s.flow.body + chunk|, end);
    RepliesMark(r, out);
  }

  lemma TrailersFollow(s: Stream)
    requires Inv(s) && !s.flow.ended && s.flow.gotHeaders && !s.flow.gotTrailers
    ensures var (r, reply) := Deliver(s, TrailersEvent); Follows(s.flow, TrailersEvent, reply, r.flow)
  {
    hide Inv, HandleTrailers, TrailersReply, Forward;
    HandleTrailersFlags(s);
    var (r, out) := HandleTrailers(s);
    RepliesMark(r, out);
  }

  lemma DeliverFollows(s: Stream, ev: Event)
    requires Inv(s) && Expected(s, ev)
    ensures var (r, reply) := Deliver(s, ev); Follows(s.flow, ev, reply, r.flow)
  {
    hide Deliver, Inv, Start, Follows;
    match ev
    case HeadersEvent(end) => HeadersFollow(s, end);
    case BodyEvent(chunk, end) => BodyFollows(s, chunk, end);
    case TrailersEvent => TrailersFollow(s);
  }

  lemma HandleBodyFails(s: Stream, length: nat, end: bool)
    requires Inv(s) && !s.flow.ended && HandleBody(s, length, end).1.Error?
    ensures HandleBody(s, length, end).1 == Error(ScriptError)
  {
    hide Answer, AfterEvent, Ranked, WellAnswered;
    var s0 := s.(flow := BodyArrived(s.flow, length, end));
    if s.reason.WaitForBodyChunks? || (s.reason.WaitForBody? && end) {
      var s1 := ConsumeChunk(s0);
      ServeRunsOn(s1, s.reason, BodyHandle(s0.flow));
      var (r, out) := Answer(s1, BodyHandle(s0.flow));
      if out.Ok? {
        AfterEventFacts(r);
      }
    } else {
      AfterEventFacts(s0);
    }
  }

  lemma HandleTrailersFails(s: Stream)
    requires Inv(s) && !s.flow.ended && s.flow.gotHeaders && !s.flow.gotTrailers && HandleTrailers(s).1.Error?
    ensures HandleTrailers(s).1 == Error(ScriptError)
  {
    hide Answer, RunToCompletion, Ranked, WellAnswered;
    var s0 := s.(flow := s.flow.(gotTrailers := true, ended := true));
    var p1 := ThenServeFacts(s, (s0, Ok(s0.state)), WaitForBody, BodyHandle(s0.flow));
    var p2 := ThenServeFacts(s, p1, WaitForBodyChunks, Nil);
    var p3 := ThenServeFacts(s, p2, WaitForTrailers, TrailerMap(s.flow.mode, false));
    if p3.1.Ok? {
      RunToCompletionFacts(p3.0);
    }
  }

  // The script is suspended in a call of body().
  predicate AwaitsBody(script: Script, h: seq<Value>, out: Outcome) {
    out == Ok(Yielded) && script.next(h) == Call(Body)
  }

  // What the proxy is told about an event that the script has heard of.
  predicate Answered(script: Script, ev: Event, h: seq<Value>, reply: Reply) {
    match reply.outcome
    case Ok(_) =>
      && reply.localReply == None
      && reply.status == (if ev.TrailersEvent? || !AwaitsBody(script, h, reply.outcome) then Continue
                          else if ev.HeadersEvent? then StopIteration
                          else StopIterationAndBuffer)
    case Error(f) =>
      && f == ScriptError && reply.localReply == Some(500)
      && reply.status == (if ev.BodyEvent? then StopIterationNoBuffer else StopIteration)
  }

  // A started coroutine waits for the body exactly if that is the script's next call.
  lemma ReasonTells(r: Stream, out: Outcome)
    requires Inv(r) && Started(r) && (out.Ok? ==> out.state == r.state)
    ensures r.reason != WaitForHttp && r.reason != Responded
    ensures out.Ok? ==> (r.reason.WaitForBody? <==> AwaitsBody(r.flow.script, r.thread.history, out))
  {
    hide Ranked, WellAnswered;
  }

  lemma DeliverIsAnswered(s: Stream, ev: Event)
    requires Inv(s) && Expected(s, ev)
    ensures var (r, reply) := Deliver(s, ev);
            Started(r) && Answered(s.flow.script, ev, r.thread.history, reply)
  {
    hide Start, HandleHeaders, HandleBody, HandleTrailers, Inv;
    DeliverKeepsInv(s, ev);
    var (r, reply) := Deliver(s, ev);
    assert Started(r);
    match ev
    case HeadersEvent(end) =>
      StartKeepsInv(s);
      HandleHeadersKeepsInv(Start(s).0, end);
      ReasonTells(r, reply.outcome);
    case BodyEvent(chunk, end) =>
      BufferChanges(s, chunk);
      BufferKeepsInv(s, Show(s, chunk));
      ReasonTells(r, reply.outcome);
      if reply.outcome.Error? {
        HandleBodyFails(Show(s, chunk), |s.flow.body + chunk|, end);
      }
    case TrailersEvent =>
      ReasonTells(r, reply.outcome);
      if reply.outcome.Error? {
        HandleTrailersFails(s);
      }
  }

  // Events that the protocol rules out are refused with status 400, but for a second
  // headers event, which is refused without a reply; the script hears of none.
  lemma RefusalsAreTold(s: Stream, ev: Event)
    requires Inv(s)
    ensures var (r, reply) := Deliver(s, ev);
            match ev
            case HeadersEvent(_) =>
              Started(s) ==> reply == Reply(StopIteration, None, Error(AlreadyStarted)) && r == s
            case BodyEvent(_, _) =>
              s.flow.ended ==>
                reply == Reply(StopIterationNoBuffer, Some(400), Error(BodyAfterEnd)) && r.thread == s.thread
            case TrailersEvent =>
              var refusal := if s.flow.ended then TrailersAfterEnd
                             else if !s.flow.gotHeaders then TrailersBeforeHeaders
                             else TrailersTwice;
              s.flow.ended || !s.flow.gotHeaders || s.flow.gotTrailers ==>
                reply == Reply(StopIteration, Some(400), Error(refusal)) && r == s
  {
    hide ExecuteFunction, Answer, RunToCompletion, Ranked, WellAnswered;
  }

  // ---- Whole runs ----

  predicate BringsData(ev: Event) {
    ev.BodyEvent? && ev.chunk != []
  }

  predicate SomeData(evs: seq<Event>) {
    exists ev :: ev in evs && BringsData(ev)
  }

  predicate SomeContinue(replies: seq<Reply>) {
    exists reply :: reply in replies && reply.status.Continue?
  }

  // After i > 0 events of a script that starts.
  predicate FlagsAfter(evs: seq<Event>, replies: seq<Reply>, i: nat, f: Flow)
    requires 0 < i <= |evs| == |replies|
  {
    var last := evs[i - 1];
    && f.gotHeaders
    && (f.ended <==> Ends(last))
    && (f.gotBody <==> last.BodyEvent? && last.end)
    && (f.gotTrailers <==> last.TrailersEvent?)
    && (f.hasBodyData <==> SomeData(evs[..i]))
    && (f.passedOn <==> SomeContinue(replies[..i]))
  }

  lemma OneMore(evs: seq<Event>, replies: seq<Reply>, i: nat)
    requires i < |evs| == |replies|
    ensures !SomeData([]) && !SomeContinue([])
    ensures SomeData(evs[..i + 1]) <==> SomeData(evs[..i]) || BringsData(evs[i])
    ensures SomeContinue(replies[..i + 1]) <==> SomeContinue(replies[..i]) || replies[i].status.Continue?
  {
    assert evs[..i + 1] == evs[..i] + [evs[i]] && replies[..i + 1] == replies[..i] + [replies[i]];
    assert evs[i] in evs[..i + 1] && replies[i] in replies[..i + 1];
    assert forall ev | ev in evs[..i] :: ev in evs[..i + 1];
    assert forall reply | reply in replies[..i] :: reply in replies[..i + 1];
  }

  // At any point of a run, the flags say what has come, and nothing else.
  lemma {:induction false} FlagsTellTheEvents(mode: Mode, script: Script, evs: seq<Event>, i: nat)
    requires Ranked(script, mode) && WellOrdered(evs) && !FailsOnEntry(script) && i < |evs|
    ensures Inv(After(mode, script, evs, i)) && Expected(After(mode, script, evs, i), evs[i])
    ensures forall j | j == i || j == i + 1 ::
              After(mode, script, evs, j).flow.script == script && After(mode, script, evs, j).flow.mode == mode
    ensures |FreshRun(mode, script, evs).1| == |evs|
    ensures var s := After(mode, script, evs, i + 1);
            Started(s) && FlagsAfter(evs, FreshRun(mode, script, evs).1, i + 1, s.flow)
    ensures After(mode, script, evs, i + 1).flow.body != [] ==> After(mode, script, evs, i + 1).flow.hasBodyData
  {
    hide Deliver, Inv, FreshRun, Start, SomeData, SomeContinue;
    FreshRunAt(mode, script, evs, i);
    WellOrderedAt(evs, i);
    var s := After(mode, script, evs, i);
    if i == 0 {
      StartFails(mode, script);
    } else {
      FlagsTellTheEvents(mode, script, evs, i - 1);
    }
    DeliverFollows(s, evs[i]);
    DeliverIsAnswered(s, evs[i]);
    OneMore(evs, FreshRun(mode, script, evs).1, i);
    assert evs[..0] == [] && FreshRun(mode, script, evs).1[..0] == [];
  }

  // Every reply of a run of a script that starts, from what the script asks for next.
  lemma RepliesFollowTheScript(mode: Mode, script: Script, evs: seq<Event>, i: nat)
    requires Ranked(script, mode) && WellOrdered(evs) && !FailsOnEntry(script) && i < |evs|
    ensures var replies := FreshRun(mode, script, evs).1;
            && |replies| == |evs|
            && Answered(script, evs[i], HistoryAfter(mode, script, evs, i + 1), replies[i])
  {
    hide Deliver, Inv, FreshRun, Start, Answered;
    FlagsTellTheEvents(mode, script, evs, i);
    FreshRunAt(mode, script, evs, i);
    DeliverIsAnswered(After(mode, script, evs, i), evs[i]);
  }
}
