// What the answers in a script's history say about the stream: none came too early,
// and the chunk iterator hands out no chunk twice.
module LuaLedger {
  import opened LuaDriver
  import opened LuaScript
  import opened LuaStream

  // The flags of a stream whose headers event comes first.
  predicate FlowOk(f: Flow) {
    && (f.gotBody ==> f.ended)
    && (f.gotTrailers ==> f.ended)
    && !(f.gotBody && f.gotTrailers)
  }

  // Answer v to call a can be given on a stream that has come as far as f.
  predicate TimelyAnswer(f: Flow, a: Action, v: Value) {
    match a
    case Call(Headers) => f.gotHeaders
    case Call(Body) => f.ended
    case Call(Trailers) => f.ended
    case Call(BodyChunks) => v.Nil? ==> f.ended
    case _ => false
  }

  predicate Timely(f: Flow, h: seq<Value>) {
    h != [] ==>
      Timely(f, Front(h)) && TimelyAnswer(f, f.script.next(Front(h)), Latest(h))
  }

  predicate IsChunk(a: Action, v: Value) {
    a == Call(BodyChunks) && v.Buffer?
  }

  // The iterator hands out no chunk after nil.
  predicate NilIsLast(s: Script, h: seq<Value>) {
    h != [] ==>
      NilIsLast(s, Front(h)) && (IsChunk(s.next(Front(h)), Latest(h)) ==> Nil !in Front(h))
  }

  function Pending(f: Flow): nat {
    if ChunkPending(f) then 1 else 0
  }

  // n: body events so far. orderly: no trailers event overtook a pending chunk.
  ghost predicate Ledger(s: Stream, n: nat, orderly: bool) {
    var h := s.thread.history;
    && FlowOk(s.flow)
    && Timely(s.flow, h)
    && ChunksDelivered(s.flow.script, h) + Pending(s.flow) <= n
    && (orderly ==> NilIsLast(s.flow.script, h) && (Nil in h ==> !ChunkPending(s.flow)))
  }

  lemma {:induction false} TimelyGrows(f: Flow, g: Flow, h: seq<Value>)
    requires Timely(f, h) && f.script == g.script
    requires (f.gotHeaders ==> g.gotHeaders) && (f.ended ==> g.ended)
    ensures Timely(g, h)
  {
    if h != [] {
      TimelyGrows(f, g, Front(h));
    }
  }

  lemma {:induction false} TimelyAt(f: Flow, h: seq<Value>, i: nat)
    requires Timely(f, h) && i < |h|
    ensures TimelyAnswer(f, f.script.next(h[..i]), h[i])
  {
    if i < |h| - 1 {
      TimelyAt(f, Front(h), i);
      assert Front(h)[..i] == h[..i];
    }
  }

  lemma {:induction false} NilMeansEnded(f: Flow, h: seq<Value>)
    requires Timely(f, h) && WellAnswered(f.script, f.mode, h) && Nil in h
    ensures f.ended
  {
    if Latest(h) != Nil {
      assert h == Front(h) + [Latest(h)];
      NilMeansEnded(f, Front(h));
    }
  }

  lemma ImmediateIsTimely(f: Flow, a: Accessor)
    requires FlowOk(f) && Immediate(f, a).Some?
    ensures TimelyAnswer(f, Call(a), Immediate(f, a).value)
    ensures !IsChunk(Call(a), Immediate(f, a).value) && !Immediate(f, a).value.Nil?
  {
  }

  // Answers given without suspending are timely, and none comes from the iterator.
  lemma {:induction false} PromptKeeps(f: Flow, h0: seq<Value>, h: seq<Value>)
    requires FlowOk(f) && Timely(f, h0) && Prompt(f, h0, h)
    ensures Timely(f, h) && h0 <= h
    ensures ChunksDelivered(f.script, h) == ChunksDelivered(f.script, h0)
    ensures NilIsLast(f.script, h0) ==> NilIsLast(f.script, h)
    ensures Nil in h ==> Nil in h0
  {
    hide Immediate, TimelyAnswer, FlowOk;
    if h != h0 {
      PromptKeeps(f, h0, Front(h));
      ImmediateIsTimely(f, f.script.next(Front(h)).accessor);
      assert h == Front(h) + [Latest(h)];
    }
  }

  // One answer pushed by the driver, and what the script does on it.
  lemma AnswerKeeps(f: Flow, h0: seq<Value>, v: Value, h: seq<Value>)
    requires FlowOk(f) && Timely(f, h0) && Prompt(f, h0 + [v], h)
    requires TimelyAnswer(f, f.script.next(h0), v)
    ensures var chunk := IsChunk(f.script.next(h0), v);
            && h0 + [v] <= h
            && Timely(f, h)
            && ChunksDelivered(f.script, h) == ChunksDelivered(f.script, h0) + (if chunk then 1 else 0)
            && (NilIsLast(f.script, h0) && (chunk ==> Nil !in h0) ==> NilIsLast(f.script, h))
            && (Nil in h ==> Nil in h0 || v.Nil?)
  {
    Snoc(h0, v);
    PromptKeeps(f, h0 + [v], h);
  }

  lemma TurnKeeps(s: Stream, n: nat, orderly: bool)
    requires Inv(s) && s.state.Yielded? && DataWait(s.reason)
    requires s.flow.ended && Ledger(s, n, orderly)
    ensures var (r, out) := Turn(s);
            Ledger(r, n, orderly) && s.thread.history + [FinalAnswer(s)] <= r.thread.history
  {
    hide Turn;
    TurnRunsOn(s);
    var (r, out) := Turn(s);
    var s0 := if TakesChunk(s) then ConsumeChunk(s) else s;
    TimelyGrows(s.flow, s0.flow, s.thread.history);
    AnswerKeeps(s0.flow, s.thread.history, FinalAnswer(s), r.thread.history);
  }

  lemma {:induction false} RunToCompletionKeeps(s: Stream, n: nat, orderly: bool)
    requires Inv(s) && s.flow.ended && Ledger(s, n, orderly)
    ensures var (r, out) := RunToCompletion(s);
            Ledger(r, n, orderly) && s.thread.history <= r.thread.history
    decreases if ChunkPending(s.flow) then 1 else 0, s.flow.script.rank(s.thread.history)
  {
    hide Turn, RanOn, Ledger;
    if s.state.Yielded? && DataWait(s.reason) {
      TurnRunsOn(s);
      TurnFacts(s);
      TurnKeeps(s, n, orderly);
      var (r, out) := Turn(s);
      if out.Ok? {
        RunToCompletionKeeps(r, n, orderly);
      }
    }
  }

  lemma AfterEventKeeps(s: Stream, n: nat, orderly: bool)
    requires Inv(s) && Ledger(s, n, orderly)
    ensures var (r, out) := AfterEvent(s);
            Ledger(r, n, orderly) && s.thread.history <= r.thread.history
  {
    if s.flow.ended {
      RunToCompletionKeeps(s, n, orderly);
    }
  }

  lemma StartKeeps(s: Stream, n: nat, orderly: bool)
    requires Inv(s) && Ledger(s, n, orderly)
    ensures var (r, out) := Start(s);
            Ledger(r, n, orderly) && s.thread.history <= r.thread.history
  {
    if s.state.Yielded? && s.reason.WaitToStart? {
      StartRunsOn(s);
      var (r, out) := ExecuteFunction(s);
      if s.flow.script.defined {
        PromptKeeps(s.flow, [], r.thread.history);
      }
      if out.Ok? {
        AfterEventKeeps(r.(state := out.state), n, orderly);
      }
    }
  }

  // The ledger is in order for handing out v on the pending call.
  ghost predicate Ready(s: Stream, v: Value, n: nat, orderly: bool) {
    var h := s.thread.history;
    var a := s.flow.script.next(h);
    && FlowOk(s.flow)
    && Timely(s.flow, h)
    && TimelyAnswer(s.flow, a, v)
    && ChunksDelivered(s.flow.script, h) + Pending(s.flow) + (if IsChunk(a, v) then 1 else 0) <= n
    && (orderly ==>
          && NilIsLast(s.flow.script, h)
          && (Nil in h || v.Nil? ==> !ChunkPending(s.flow))
          && (IsChunk(a, v) ==> Nil !in h))
  }

  lemma ServedKeeps(s: Stream, v: Value, n: nat, orderly: bool)
    requires Consistent(s) && Fits(s.reason, s.flow.mode, v) && Ready(s, v, n, orderly)
    ensures var (r, out) := Answer(s, v);
            && Inv(r) && r.flow == s.flow && Ledger(r, n, orderly)
            && s.thread.history + [v] <= r.thread.history
  {
    hide Answer;
    ServeRunsOn(s, s.reason, v);
    var (r, out) := Answer(s, v);
    AnswerKeeps(s.flow, s.thread.history, v, r.thread.history);
  }

  // Headers that do not reopen an ended stream.
  lemma HandleHeadersKeeps(s: Stream, end: bool, n: nat, orderly: bool)
    requires Inv(s) && Ledger(s, n, orderly)
    requires s.flow.ended ==> end
    ensures var (r, out) := HandleHeaders(s, end);
            Ledger(r, n, orderly) && s.thread.history <= r.thread.history
  {
    hide Answer, RunToCompletion;
    var s0 := s.(flow := s.flow.(ended := end, gotHeaders := true));
    TimelyGrows(s.flow, s0.flow, s.thread.history);
    if s.reason.WaitForHeaders? {
      var v := HeaderMap(s.flow.mode, false);
      ServedKeeps(s0, v, n, orderly);
      var (r, out) := Answer(s0, v);
      if out.Ok? {
        AfterEventKeeps(r, n, orderly);
      }
    } else {
      AfterEventKeeps(s0, n, orderly);
    }
  }

  lemma HandleBodyKeeps(s: Stream, length: nat, end: bool, n: nat, orderly: bool)
    requires Inv(s) && Ledger(s, n, orderly)
    ensures var (r, out) := HandleBody(s, length, end);
            Ledger(r, n + 1, orderly) && s.thread.history <= r.thread.history
  {
    hide Answer, RunToCompletion, Ledger, Ready, Ranked, WellAnswered, BodyArrived;
    if s.flow.ended {
      MoreEvents(s, n, orderly);
    } else {
      LedgerArrives(s, length, end, n, orderly);
      ArrivalFacts(s, length, end);
      var s0 := s.(flow := BodyArrived(s.flow, length, end));
      if s.state.Yielded? && (s.reason.WaitForBodyChunks? || (s.reason.WaitForBody? && end)) {
        ServedKeeps(ConsumeChunk(s0), BodyHandle(s0.flow), n + 1, orderly);
        var (r, out) := Answer(ConsumeChunk(s0), BodyHandle(s0.flow));
        if out.Ok? {
          AfterEventKeeps(r, n + 1, orderly);
        }
      } else if s.state.Yielded? {
        StillInv(s, s0);
        AfterEventKeeps(s0, n + 1, orderly);
      }
    }
  }

  lemma MoreEvents(s: Stream, n: nat, orderly: bool)
    requires Ledger(s, n, orderly)
    ensures Ledger(s, n + 1, orderly)
  {
  }

  lemma StillInv(s: Stream, r: Stream)
    requires Inv(s) && Consistent(r) && r == s.(flow := r.flow) && r.flow.gotHeaders == s.flow.gotHeaders
    ensures Inv(r)
  {
  }

  // A body event brings at most one chunk, which may be handed out at once.
  lemma LedgerArrives(s: Stream, length: nat, end: bool, n: nat, orderly: bool)
    requires Inv(s) && Ledger(s, n, orderly) && !s.flow.ended
    ensures var s0 := s.(flow := BodyArrived(s.flow, length, end));
            && s0.flow.gotHeaders == s.flow.gotHeaders
            && Ledger(s0, n + 1, orderly)
            && (s.state.Yielded? && (s.reason.WaitForBodyChunks? || (s.reason.WaitForBody? && end)) ==>
                  Ready(ConsumeChunk(s0), BodyHandle(s0.flow), n + 1, orderly))
  {
    hide Ranked;
    if Nil in s.thread.history {
      NilMeansEnded(s.flow, s.thread.history);
    }
    var s0 := s.(flow := BodyArrived(s.flow, length, end));
    TimelyGrows(s.flow, s0.flow, s.thread.history);
    TimelyGrows(s.flow, ConsumeChunk(s0).flow, s.thread.history);
  }

  lemma ThenServeKeeps(p: (Stream, Outcome), reason: YieldReason, v: Value, n: nat, orderly: bool)
    returns (q: (Stream, Outcome))
    requires Inv(p.0) && Fits(reason, p.0.flow.mode, v) && DataWait(reason)
    requires p.0.flow.ended && Ledger(p.0, n, orderly)
    requires v.Nil? ==> orderly ==> !ChunkPending(p.0.flow)
    requires reason.WaitForBodyChunks? ==> v.Nil?
    ensures q == ThenServe(p, reason, v)
    ensures Inv(q.0) && Ledger(q.0, n, orderly) && q.0.flow == p.0.flow
    ensures p.0.thread.history <= q.0.thread.history
  {
    hide Answer;
    q := ThenServe(p, reason, v);
    if p.1.Ok? && p.0.reason == reason {
      ServedKeeps(p.0, v, n, orderly);
    }
  }

  lemma HandleTrailersKeeps(s: Stream, n: nat, orderly: bool)
    requires Inv(s) && Ledger(s, n, orderly)
    ensures var (r, out) := HandleTrailers(s);
            && Ledger(r, n, orderly && !ChunkPending(s.flow))
            && s.thread.history <= r.thread.history
  {
    hide Answer, RunToCompletion, RanOn, Ranked, WellAnswered, Timely, NilIsLast, ChunksDelivered;
    if !s.flow.ended && s.flow.gotHeaders && !s.flow.gotTrailers {
      var s0 := s.(flow := s.flow.(gotTrailers := true, ended := true));
      TimelyGrows(s.flow, s0.flow, s.thread.history);
      if s.state.Yielded? {
        var still := orderly && !ChunkPending(s.flow);
        var p1 := ThenServeKeeps((s0, Ok(s0.state)), WaitForBody, BodyHandle(s0.flow), n, still);
        var p2 := ThenServeKeeps(p1, WaitForBodyChunks, Nil, n, still);
        var p3 := ThenServeKeeps(p2, WaitForTrailers, TrailerMap(s.flow.mode, false), n, still);
        RunToCompletionKeeps(p3.0, n, still);
      }
    }
  }
}
