// How a script gets the body: whole through body(), or chunk by chunk.
module LuaBodies {
  import opened LuaDriver
  import opened LuaLedger
  import opened LuaRuns
  import opened LuaScript
  import opened LuaStream
  import opened LuaTheorems
  import opened Sequences
  import opened Wrappers

  function ChunkEvents(cs: seq<seq<byte>>): seq<Event> {
    if cs == [] then [] else [BodyEvent(cs[0], false)] + ChunkEvents(cs[1..])
  }

  // ---- body(): hold, then release ----

  // The script waits for the whole body on an open stream.
  ghost predicate Holding(s: Stream, n: nat) {
    && Inv(s) && Ledger(s, n, false)
    && s.state.Yielded? && s.reason.WaitForBody?
    && s.flow.gotHeaders && !s.flow.ended
  }

  lemma HoldChunk(s: Stream, n: nat, c: seq<byte>)
    requires Holding(s, n)
    ensures var (r, reply) := Deliver(s, BodyEvent(c, false));
            && Holding(r, n + 1)
            && r.flow.body == s.flow.body + c
            && r.thread == s.thread && r.flow.mode == s.flow.mode
            && reply == Reply(StopIterationAndBuffer, None, Ok(Yielded))
  {
    DeliverKeepsInv(s, BodyEvent(c, false));
    DeliverKeepsLedger(s, BodyEvent(c, false), n, false);
  }

  // The last event hands the script everything that was held.
  lemma ReleaseOnBody(s: Stream, n: nat, c: seq<byte>)
    requires Holding(s, n)
    ensures var (r, reply) := Deliver(s, BodyEvent(c, true));
            && s.thread.history + [Buffer(s.flow.mode, s.flow.body + c)] <= r.thread.history
            && (reply.outcome.Ok? && r.state.Exited? && Inv(r) ==> reply.status == Continue)
  {
    hide Answer, RunToCompletion, Ledger;
    var s0 := Show(s, c);
    BufferChanges(s, c);
    BufferKeepsLedger(s, s0, n, false);
    HandleBodyAnswers(s0, |s.flow.body + c|, true, n);
  }

  lemma ReleaseOnTrailers(s: Stream, n: nat)
    requires Holding(s, n)
    ensures var (r, reply) := Deliver(s, TrailersEvent);
            && s.thread.history + [Buffer(s.flow.mode, s.flow.body + [])] <= r.thread.history
            && (reply.outcome.Ok? && r.state.Exited? && Inv(r) ==> reply.status == Continue)
  {
    hide HandleTrailers, Ledger;
    assert s.flow.body + [] == s.flow.body;
    HandleTrailersAnswers(s, n);
  }

  // The first answer of a body event to a script that waits for it.
  lemma HandleBodyAnswers(s: Stream, length: nat, end: bool, n: nat)
    requires Inv(s) && Ledger(s, n, false) && !s.flow.ended && s.state.Yielded?
    requires s.reason.WaitForBodyChunks? || (s.reason.WaitForBody? && end)
    ensures s.thread.history + [BodyHandle(s.flow)] <= HandleBody(s, length, end).0.thread.history
  {
    hide Answer, RunToCompletion;
    var s0 := s.(flow := BodyArrived(s.flow, length, end));
    var s1 := ConsumeChunk(s0);
    var v := BodyHandle(s0.flow);
    TimelyGrows(s.flow, s1.flow, s.thread.history);
    ServedKeeps(s1, v, n + 1, false);
    var (r, out) := Answer(s1, v);
    if out.Ok? {
      AfterEventKeeps(r, n + 1, false);
    }
  }

  // The first answer of a trailers event: the body, or nil.
  lemma HandleTrailersAnswers(s: Stream, n: nat)
    requires Inv(s) && Ledger(s, n, false)
    requires s.state.Yielded? && s.flow.gotHeaders && !s.flow.ended
    requires s.reason.WaitForBodyChunks? || s.reason.WaitForBody?
    ensures var v := if s.reason.WaitForBody? then BodyHandle(s.flow) else Nil;
            s.thread.history + [v] <= HandleTrailers(s).0.thread.history
  {
    hide Answer, RunToCompletion;
    var s0 := s.(flow := s.flow.(gotTrailers := true, ended := true));
    TimelyGrows(s.flow, s0.flow, s.thread.history);
    var p0 := (s0, Ok(s0.state));
    var p1 := ThenServeKeeps(p0, WaitForBody, BodyHandle(s0.flow), n, false);
    var p2 := ThenServeKeeps(p1, WaitForBodyChunks, Nil, n, false);
    var p3 := ThenServeKeeps(p2, WaitForTrailers, TrailerMap(s.flow.mode, false), n, false);
    ServedKeeps(s0, if s.reason.WaitForBody? then BodyHandle(s0.flow) else Nil, n, false);
    RunToCompletionKeeps(p3.0, n, false);
  }

  lemma HoldingKeepsInv(s: Stream, n: nat)
    requires Holding(s, n)
    ensures Inv(s)
  {
  }

  lemma Release(s: Stream, n: nat, last: Event)
    requires Holding(s, n)
    requires Ends(last) && !last.HeadersEvent?
    ensures var (r, reply) := Deliver(s, last);
            && s.thread.history + [Buffer(s.flow.mode, s.flow.body + BytesOf(last))] <= r.thread.history
            && (reply.outcome.Ok? ==> reply.status == Continue)
  {
    hide Deliver, Ledger;
    DeliverKeepsInv(s, last);
    DeliverAdvances(s, last);
    if last.BodyEvent? {
      ReleaseOnBody(s, n, last.chunk);
    } else {
      ReleaseOnTrailers(s, n);
    }
  }

  // However the body is split: every chunk but the last event is held back, and the
  // script receives their concatenation.
  lemma {:induction false} HoldAndRelease(s: Stream, n: nat, cs: seq<seq<byte>>, last: Event)
    requires Holding(s, n)
    requires Ends(last) && !last.HeadersEvent?
    ensures var (r, replies) := Run(s, ChunkEvents(cs) + [last]);
            && |replies| == |cs| + 1
            && (forall i | 0 <= i < |cs| :: replies[i] == Reply(StopIterationAndBuffer, None, Ok(Yielded)))
            && s.thread.history + [Buffer(s.flow.mode, s.flow.body + Flatten(cs) + BytesOf(last))]
               <= r.thread.history
            && (replies[|cs|].outcome.Ok? ==> replies[|cs|].status == Continue)
    decreases |cs|
  {
    hide Deliver, Inv, Ledger, Holding, Run;
    HoldingKeepsInv(s, n);
    if cs == [] {
      WithEmpty([last]);
      WithEmpty(s.flow.body);
      RunOne(s, last);
      Release(s, n, last);
    } else {
      var ev, rest := BodyEvent(cs[0], false), ChunkEvents(cs[1..]) + [last];
      Associate([ev], ChunkEvents(cs[1..]), [last]);
      HoldChunk(s, n, cs[0]);
      RunFirst(s, ev, rest);
      var s1 := Deliver(s, ev).0;
      HoldAndRelease(s1, n + 1, cs[1..], last);
      Associate(s.flow.body, cs[0], Flatten(cs[1..]));
      TailOfCons(Deliver(s, ev).1, Run(s1, rest).1);
    }
  }

  // The stream after its headers event.
  function AfterHeaders(mode: Mode, script: Script, end: bool): (r: (Stream, Reply))
    requires Ranked(script, mode)
    ensures Inv(r.0)
  {
    hide Deliver, Ledger;
    NewIsInOrder(mode, script);
    DeliverKeepsInv(New(mode, script), HeadersEvent(end));
    Deliver(New(mode, script), HeadersEvent(end))
  }

  lemma AfterHeadersLedger(mode: Mode, script: Script, end: bool)
    requires Ranked(script, mode)
    ensures Ledger(AfterHeaders(mode, script, end).0, 0, false)
  {
    hide Deliver, Ledger;
    NewIsInOrder(mode, script);
    HeadersOpen(New(mode, script), end);
  }

  lemma FreshRunFirst(mode: Mode, script: Script, end: bool, rest: seq<Event>)
    requires Ranked(script, mode)
    ensures var (s, reply) := AfterHeaders(mode, script, end);
            FreshRun(mode, script, [HeadersEvent(end)] + rest) == (Run(s, rest).0, [reply] + Run(s, rest).1)
  {
    hide Deliver, Ledger, Inv;
    NewIsInOrder(mode, script);
    TailOfCons(HeadersEvent(end), rest);
  }

  // A script that asks for the body before the headers event has returned.
  lemma BodyIsHeldFromTheStart(mode: Mode, script: Script, cs: seq<seq<byte>>, last: Event)
    requires Ranked(script, mode)
    requires Ends(last) && !last.HeadersEvent?
    requires var (s, reply) := AfterHeaders(mode, script, false);
             reply.outcome.Ok? && s.reason.WaitForBody?
    ensures var (s, reply) := AfterHeaders(mode, script, false);
            var (r, replies) := FreshRun(mode, script, [HeadersEvent(false)] + (ChunkEvents(cs) + [last]));
            && |replies| == |cs| + 2
            && replies[0].status == StopIteration
            && (forall i | 0 < i <= |cs| :: replies[i].status == StopIterationAndBuffer)
            && s.thread.history + [Buffer(mode, Flatten(cs) + BytesOf(last))] <= r.thread.history
            && (replies[|cs| + 1].outcome.Ok? ==> replies[|cs| + 1].status == Continue)
  {
    hide Ledger, AfterHeaders, Run, FreshRun, Inv, Ranked, Holding, ChunkEvents;
    var s := AfterHeaders(mode, script, false).0;
    FreshRunFirst(mode, script, false, ChunkEvents(cs) + [last]);
    AfterHeadersLedger(mode, script, false);
    AfterHeadersOpen(mode, script, false);
    HoldingFrom(s);
    HoldAndRelease(s, 0, cs, last);
    assert [] + Flatten(cs) == Flatten(cs);
  }

  lemma HoldingFrom(s: Stream)
    requires Inv(s) && Ledger(s, 0, false)
    requires s.state.Yielded? && s.reason.WaitForBody? && s.flow.gotHeaders && !s.flow.ended
    ensures Holding(s, 0)
  {
  }

  lemma AfterHeadersOpen(mode: Mode, script: Script, end: bool)
    requires Ranked(script, mode)
    ensures var (r, reply) := AfterHeaders(mode, script, end);
            reply.outcome.Ok? ==>
              && r.flow.gotHeaders && r.flow.ended == end
              && r.flow.body == [] && r.flow.mode == mode
              && (r.state.Exited? <==> !r.thread.yielded)
              && (r.reason.WaitForBody? ==> r.state.Yielded? && reply.status == StopIteration)
  {
    hide Deliver, Ledger;
    NewIsInOrder(mode, script);
    HeadersOpen(New(mode, script), end);
    DeliverKeepsInv(New(mode, script), HeadersEvent(end));
  }

  // A headers event that went well leaves the stream as open as it said, and the
  // proxy's buffer as it was.
  lemma HeadersOpen(s: Stream, end: bool)
    requires Inv(s) && !Started(s) && !s.flow.ended && Ledger(s, 0, true)
    ensures var (r, reply) := Deliver(s, HeadersEvent(end));
            && Ledger(r, 0, false)
            && (reply.outcome.Ok? ==>
                  && r.flow.gotHeaders && r.flow.ended == end
                  && r.flow.body == s.flow.body && r.flow.mode == s.flow.mode
                  && (r.state.Yielded? && r.reason.WaitForBody? ==> reply.status == StopIteration))
  {
    hide Start, HandleHeaders, Ledger;
    DeliverKeepsLedger(s, HeadersEvent(end), 0, true);
    WeakerLedger(Deliver(s, HeadersEvent(end)).0, 0);
    StartKeepsInv(s);
    var (s1, started) := Start(s);
    if started.Ok? {
      HandleHeadersFlags(s1, end);
    }
  }

  lemma WeakerLedger(s: Stream, n: nat)
    requires Ledger(s, n, true)
    ensures Ledger(s, n, false)
  {
  }

  // ---- Common to both ----

  // The chunks of the body events, in order.
  function ChunksOf(evs: seq<Event>): seq<seq<byte>> {
    if evs == [] then []
    else (if evs[0].BodyEvent? then [evs[0].chunk] else []) + ChunksOf(evs[1..])
  }

  lemma StartParks(mode: Mode, script: Script, a: Accessor)
    requires Ranked(script, mode) && script.defined && script.next([]) == Call(a)
    ensures Inv(New(mode, script))
    ensures Start(New(mode, script)) ==
            (Stream(New(mode, script).flow, Yielded, WaitReason(a), Thread(false, false, true, [], [])),
             Ok(Yielded))
  {
    NewIsInOrder(mode, script);
    StartRunsOn(New(mode, script));
    assert RunScript(New(mode, script).flow, []) == ([], Suspended(a));
  }

  // The end of the stream answers the pending wait first.
  lemma CompletionAnswers(s: Stream, n: nat)
    requires Inv(s) && Ledger(s, n, false)
    requires s.state.Yielded? && DataWait(s.reason) && s.flow.ended
    ensures var v := match s.reason
                     case WaitForBody => Buffer(s.flow.mode, s.flow.body)
                     case WaitForTrailers => TrailerMap(s.flow.mode, false)
                     case _ => if s.flow.hasBodyData && !s.flow.chunkConsumed then Buffer(s.flow.mode, s.flow.body)
                               else Nil;
            s.thread.history + [v] <= AfterEvent(s).0.thread.history
  {
    hide Turn;
    TurnKeeps(s, n, false);
    TurnRunsOn(s);
    var (r, out) := Turn(s);
    if out.Ok? {
      RunToCompletionKeeps(r, n, false);
    }
  }
}
