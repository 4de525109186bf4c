// When nil is the chunk iterator's last word, whatever the script.
module LuaNil {
  import opened LuaBodies
  import opened LuaDriver
  import opened LuaLedger
  import opened LuaRuns
  import opened LuaScript
  import opened LuaStream
  import opened LuaTheorems
  import opened Sequences

  // body(), then two steps of the iterator, then return.
  function Next(h: seq<Value>): Action {
    if |h| == 0 then Call(Body) else if |h| < 3 then Call(BodyChunks) else Return
  }

  const BODY_THEN_CHUNKS := Script(true, Next, (h: seq<Value>) => if |h| < 3 then (3 - |h|) as ORDINAL else 0)

  predicate BringsChunk(evs: seq<Event>) {
    exists ev | ev in evs :: ev.BodyEvent? && ev.chunk != []
  }

  // nil is the iterator's last word to this script over these events.
  ghost predicate NilFinal(mode: Mode, script: Script, evs: seq<Event>) {
    Ranked(script, mode) ==> NilIsLast(script, FreshRun(mode, script, evs).0.thread.history)
  }

  // Whatever the script does, nil is final exactly on the streams that bring no data or
  // do not end in trailers.
  lemma NilIsFinalForEveryScript(mode: Mode, evs: seq<Event>)
    requires WellOrdered(evs)
    ensures (forall script: Script :: NilFinal(mode, script, evs)) <==>
            !(TrailersEvent in evs && BringsChunk(evs))
  {
    hide NilIsLast, Ranked;
    if TrailersEvent in evs && BringsChunk(evs) {
      ChunkAfterNil(mode, evs);
      assert !NilFinal(mode, BODY_THEN_CHUNKS, evs);
    } else {
      forall script: Script
        ensures NilFinal(mode, script, evs)
      {
        if Ranked(script, mode) {
          NotOvertaken(mode, script, evs);
          NilIsFinal(mode, script, evs);
        }
      }
    }
  }

  // ---- The streams on which nil is final ----

  lemma {:induction false} NoTrailersNoOvertaking(s: Stream, evs: seq<Event>)
    requires Inv(s) && TrailersEvent !in evs
    ensures !EverOvertaken(s, evs)
    decreases |evs|
  {
    hide Deliver, Inv;
    if evs != [] {
      DeliverKeepsInv(s, evs[0]);
      NoTrailersNoOvertaking(Deliver(s, evs[0]).0, evs[1..]);
    }
  }

  predicate NoData(s: Stream) {
    !s.flow.hasBodyData && s.flow.body == []
  }

  lemma HeadersBringNoData(s: Stream, end: bool)
    requires Inv(s) && NoData(s)
    ensures NoData(Deliver(s, HeadersEvent(end)).0)
  {
    hide Start, HandleHeaders;
    StartKeepsInv(s);
    var (s1, started) := Start(s);
    if started.Ok? {
      HandleHeadersFlags(s1, end);
    }
  }

  lemma EmptyChunkBringsNoData(s: Stream, end: bool)
    requires Inv(s) && NoData(s)
    ensures NoData(Deliver(s, BodyEvent([], end)).0)
  {
    hide HandleBody, Inv, Forward, BodyReply, Sound, Onward;
    var s0 := Show(s, []);
    BufferChanges(s, []);
    BufferKeepsInv(s, s0);
    HandleBodyKeepsInv(s0, 0, end);
    if s.flow.ended {
      BodyIsRefused(s0, end);
    } else {
      HandleBodyFlags(s0, 0, end);
    }
    var (r, out) := HandleBody(s0, 0, end);
    ReplyBringsNoData(r, out);
  }

  lemma ReplyBringsNoData(r: Stream, out: Outcome)
    requires NoData(r)
    ensures NoData(Forward(BodyReply(r, out)).0)
  {
  }

  lemma BodyIsRefused(s: Stream, end: bool)
    requires Inv(s) && s.flow.ended
    ensures HandleBody(s, 0, end).0 == s
  {
  }

  lemma {:induction false} NoChunkNoOvertaking(s: Stream, evs: seq<Event>, ended: bool)
    requires Inv(s) && NoData(s) && Continues(evs, ended) && !BringsChunk(evs)
    ensures !EverOvertaken(s, evs)
    decreases |evs|
  {
    hide Deliver, Inv;
    if evs != [] {
      assert evs[0] in evs;
      DeliverKeepsInv(s, evs[0]);
      if evs[0].BodyEvent? {
        EmptyChunkBringsNoData(s, evs[0].end);
        assert forall ev | ev in evs[1..] :: ev in evs;
        NoChunkNoOvertaking(Deliver(s, evs[0]).0, evs[1..], evs[0].end);
      } else {
        assert evs[1..] == [];
      }
    }
  }

  lemma NotOvertaken(mode: Mode, script: Script, evs: seq<Event>)
    requires Ranked(script, mode) && WellOrdered(evs)
    requires TrailersEvent !in evs || !BringsChunk(evs)
    ensures !OvertakenInRun(mode, script, evs)
  {
    hide Deliver, Inv, Ledger;
    NewIsInOrder(mode, script);
    var s := New(mode, script);
    if TrailersEvent !in evs {
      NoTrailersNoOvertaking(s, evs);
    } else {
      HeadersBringNoData(s, evs[0].end);
      DeliverKeepsInv(s, evs[0]);
      assert forall ev | ev in evs[1..] :: ev in evs;
      NoChunkNoOvertaking(Deliver(s, evs[0]).0, evs[1..], evs[0].end);
    }
  }

  // ---- A script that sees a chunk after nil on all the others ----

  // The chunks arrive while the script waits for the whole body; the trailers answer
  // body(), then the iterator with nil, and then the iterator with the body.
  lemma ChunkAfterNil(mode: Mode, evs: seq<Event>)
    requires WellOrdered(evs) && TrailersEvent in evs && BringsChunk(evs)
    ensures Ranked(BODY_THEN_CHUNKS, mode)
    ensures var h, b := FreshRun(mode, BODY_THEN_CHUNKS, evs).0.thread.history, Buffer(mode, Flatten(ChunksOf(evs)));
            h == [b, Nil, b] && !NilIsLast(BODY_THEN_CHUNKS, h)
  {
    hide FreshRun, Run, Ledger, Inv, NilIsLast, Holding, AfterHeaders, Ranked;
    var s := ParksInBody(mode);
    var rest := evs[1..];
    assert evs == [HeadersEvent(evs[0].end)] + rest;
    assert TrailersEvent in rest && evs[0] == HeadersEvent(false);
    FreshRunFirst(mode, BODY_THEN_CHUNKS, false, rest);
    var ev :| ev in evs && ev.BodyEvent? && ev.chunk != [];
    assert ev in rest;
    HeldUntilTrailers(s, 0, rest);
    assert [] + Flatten(ChunksOf(rest)) == Flatten(ChunksOf(rest));
    assert ChunksOf(evs) == [] + ChunksOf(rest) == ChunksOf(rest);
    ChunkIsLast(Buffer(mode, Flatten(ChunksOf(evs))));
  }

  lemma ChunkIsLast(b: Value)
    requires b.Buffer?
    ensures !NilIsLast(BODY_THEN_CHUNKS, [b, Nil, b])
  {
    var h := [b, Nil, b];
    assert Front(h) == [b, Nil] && Nil in Front(h) && Latest(h) == b;
  }

  lemma {:induction false} HeldUntilTrailers(s: Stream, n: nat, evs: seq<Event>)
    requires Holding(s, n) && s.flow.script == BODY_THEN_CHUNKS && s.thread.history == []
    requires !s.flow.gotTrailers && Continues(evs, false) && TrailersEvent in evs
    requires ChunkPending(s.flow) || BringsChunk(evs)
    ensures var b := Buffer(s.flow.mode, s.flow.body + Flatten(ChunksOf(evs)));
            Run(s, evs).0.thread.history == [b, Nil, b]
    decreases |evs|
  {
    hide Deliver, Ledger, Inv;
    DeliverKeepsInv(s, evs[0]);
    var s1 := Deliver(s, evs[0]).0;
    if evs[0].TrailersEvent? {
      assert evs == [TrailersEvent] && evs[1..] == [] && ChunksOf(evs) == [];
      assert s.flow.body + [] == s.flow.body;
      TrailersAnswerThrice(s, n);
    } else {
      var c := evs[0].chunk;
      assert evs == [evs[0]] + evs[1..];
      assert TrailersEvent in evs[1..] && !evs[0].end;
      HoldChunk(s, n, c);
      ChunkIsPending(s, n, c);
      if c == [] && !ChunkPending(s.flow) {
        assert BringsChunk(evs[1..]);
      }
      HeldUntilTrailers(s1, n + 1, evs[1..]);
      var rest := ChunksOf(evs[1..]);
      assert ([c] + rest)[1..] == rest;
      assert (s.flow.body + c) + Flatten(rest) == s.flow.body + (c + Flatten(rest));
    }
  }

  lemma ParksInBody(mode: Mode) returns (s: Stream)
    ensures Ranked(BODY_THEN_CHUNKS, mode)
    ensures s == AfterHeaders(mode, BODY_THEN_CHUNKS, false).0
    ensures Holding(s, 0) && s.flow.body == [] && s.thread.history == []
    ensures s.flow.mode == mode && s.flow.script == BODY_THEN_CHUNKS && !s.flow.gotTrailers
  {
    hide Start;
    var script := BODY_THEN_CHUNKS;
    assert Ranked(script, mode);
    NewIsInOrder(mode, script);
    StartParks(mode, script, Body);
    s := AfterHeaders(mode, script, false).0;
    AfterHeadersLedger(mode, script, false);
  }

  lemma ChunkIsPending(s: Stream, n: nat, c: seq<byte>)
    requires Holding(s, n) && s.flow.script == BODY_THEN_CHUNKS && !s.flow.gotTrailers
    ensures var r := Deliver(s, BodyEvent(c, false)).0;
            && (ChunkPending(s.flow) || c != [] ==> ChunkPending(r.flow))
            && r.flow.script == BODY_THEN_CHUNKS && !r.flow.gotTrailers
  {
  }

  lemma TrailersAnswerThrice(s: Stream, n: nat)
    requires Holding(s, n) && s.flow.script == BODY_THEN_CHUNKS && s.thread.history == []
    requires ChunkPending(s.flow) && !s.flow.gotTrailers
    ensures var b := BodyHandle(s.flow);
            Deliver(s, TrailersEvent).0.thread.history == [b, Nil, b]
  {
    hide Answer, Ledger;
    var s0 := s.(flow := s.flow.(gotTrailers := true, ended := true));
    var b := BodyHandle(s0.flow);
    AnswerParks(s0, b);
    var s1 := Answer(s0, b).0;
    AnswerParks(s1, Nil);
    var s2 := Answer(s1, Nil).0;
    AnswerReturns(ConsumeChunk(s2), b);
    var s3 := Answer(ConsumeChunk(s2), b).0;
    assert Turn(s2).0 == s3;
    assert RunToCompletion(s2).0 == s3;
    TrailersChain(s, s0, s1, s2);
  }

  lemma AnswerParks(s: Stream, v: Value)
    requires Consistent(s) && s.state.Yielded? && !s.reason.WaitToStart?
    requires s.flow.script == BODY_THEN_CHUNKS && |s.thread.history| < 2
    requires Answers(s.flow.script.next(s.thread.history).accessor, s.flow.mode, v)
    ensures Answer(s, v) ==
            (Stream(s.flow, Yielded, WaitForBodyChunks,
                    Thread(false, false, true, [], s.thread.history + [v])), Ok(Yielded))
    ensures Consistent(Answer(s, v).0)
  {
    AnswerRunsOn(s, v);
    var h := s.thread.history + [v];
    assert RunScript(s.flow, h) == (h, Suspended(BodyChunks));
  }

  lemma AnswerReturns(s: Stream, v: Value)
    requires Consistent(s) && s.state.Yielded? && !s.reason.WaitToStart?
    requires s.flow.script == BODY_THEN_CHUNKS && |s.thread.history| == 2
    requires Answers(s.flow.script.next(s.thread.history).accessor, s.flow.mode, v)
    ensures Answer(s, v).0.thread.history == s.thread.history + [v]
    ensures Answer(s, v).0.state.Exited? && Answer(s, v).1 == Ok(Exited)
  {
    AnswerRunsOn(s, v);
    var h := s.thread.history + [v];
    assert RunScript(s.flow, h) == (h, Done);
  }

  lemma TrailersChain(s: Stream, s0: Stream, s1: Stream, s2: Stream)
    requires Inv(s) && s.flow.gotHeaders && !s.flow.ended && !s.flow.gotTrailers && s.state.Yielded?
    requires s0 == s.(flow := s.flow.(gotTrailers := true, ended := true))
    requires s.reason.WaitForBody? && Answer(s0, BodyHandle(s0.flow)) == (s1, Ok(Yielded))
    requires Consistent(s1) && s1.reason.WaitForBodyChunks? && Answer(s1, Nil) == (s2, Ok(Yielded))
    requires Consistent(s2) && s2.reason.WaitForBodyChunks?
    ensures HandleTrailers(s).0 == RunToCompletion(s2).0
  {
    hide Answer;
  }
}
