// bodyChunks() over whole runs: one Buffer for each body event, in order, then nil.
module LuaChunks {
  import opened LuaBodies
  import opened LuaDriver
  import opened LuaLedger
  import opened LuaRuns
  import opened LuaScript
  import opened LuaStream
  import opened Wrappers

  // The answers that calls of the chunk iterator have had, in order.
  function ChunkAnswers(script: Script, h: seq<Value>): seq<Value> {
    if h == [] then []
    else
      ChunkAnswers(script, Front(h)) +
      (if script.next(Front(h)) == Call(BodyChunks) then [Latest(h)] else [])
  }

  function Buffers(m: Mode, cs: seq<seq<byte>>): seq<Value> {
    seq(|cs|, i requires 0 <= i < |cs| => Buffer(m, cs[i]))
  }

  // Until the iterator has said nil, the script asks for nothing but the next chunk and
  // the headers, and does not end. Its calls of headers() may come before the loop and
  // in every round, and depend on all it has been handed.
  ghost predicate LoopsOverChunks(script: Script, m: Mode) {
    script.defined &&
    forall h :: WellAnswered(script, m, h) && Nil !in h ==> GoesOn(script.next(h))
  }

  // Such as a loop that looks at the headers in every round.
  lemma ChunkLoopLoops(m: Mode)
    ensures Ranked(CHUNK_LOOP, m) && LoopsOverChunks(CHUNK_LOOP, m)
  {
    ChunkLoopIsRanked(m);
    forall h | WellAnswered(CHUNK_LOOP, m, h) && Nil !in h
      ensures GoesOn(CHUNK_LOOP.next(h))
    {
      if h != [] {
        assert Latest(h) in h;
      }
    }
  }

  predicate GoesOn(a: Action) {
    a == Call(BodyChunks) || a == Call(Headers)
  }

  lemma {:induction false} AnswersGrow(script: Script, h0: seq<Value>, h: seq<Value>)
    requires h0 <= h
    ensures ChunkAnswers(script, h0) <= ChunkAnswers(script, h)
  {
    if h != h0 {
      AnswersGrow(script, h0, Front(h));
    }
  }

  lemma {:induction false} PromptBringsNoChunk(f: Flow, h0: seq<Value>, h: seq<Value>)
    requires Prompt(f, h0, h)
    ensures ChunkAnswers(f.script, h) == ChunkAnswers(f.script, h0)
    ensures Nil in h ==> Nil in h0
  {
    if h != h0 {
      PromptBringsNoChunk(f, h0, Front(h));
      assert h == Front(h) + [Latest(h)];
    }
  }

  // However the script runs on from h0, it stops at the iterator, or at headers that
  // have not come.
  lemma LoopParks(s: Stream, h0: seq<Value>, r: Stream, out: Outcome)
    requires RanOn(s, h0, r, out) && LoopsOverChunks(s.flow.script, s.flow.mode) && Nil !in h0
    ensures out == Ok(Yielded) && r.state.Yielded? && r.flow == s.flow
    ensures if s.flow.gotHeaders then r.reason.WaitForBodyChunks?
            else r.reason.WaitForBodyChunks? || r.reason.WaitForHeaders?
    ensures Nil !in r.thread.history
    ensures ChunkAnswers(s.flow.script, r.thread.history) == ChunkAnswers(s.flow.script, h0)
  {
    hide Ranked, WellAnswered;
    PromptBringsNoChunk(s.flow, h0, r.thread.history);
    assert GoesOn(s.flow.script.next(r.thread.history));
  }

  // The loop has been handed the chunks cs so far.
  ghost predicate InLoop(s: Stream, n: nat, cs: seq<seq<byte>>) {
    && Inv(s) && Ledger(s, n, false)
    && s.state.Yielded? && s.reason.WaitForBodyChunks?
    && s.flow.gotHeaders && !s.flow.ended && !ChunkPending(s.flow)
    && s.flow.body == []
    && LoopsOverChunks(s.flow.script, s.flow.mode)
    && Nil !in s.thread.history
    && ChunkAnswers(s.flow.script, s.thread.history) == Buffers(s.flow.mode, cs)
  }

  lemma LoopGoesOn(s: Stream, cs: seq<seq<byte>>, c: seq<byte>)
    requires Consistent(s) && s.state.Yielded? && s.reason.WaitForBodyChunks? && s.flow.gotHeaders
    requires LoopsOverChunks(s.flow.script, s.flow.mode) && Nil !in s.thread.history
    requires ChunkAnswers(s.flow.script, s.thread.history) == Buffers(s.flow.mode, cs)
    ensures var (r, out) := Answer(s, Buffer(s.flow.mode, c));
            && out == Ok(Yielded) && r.state.Yielded? && r.reason.WaitForBodyChunks?
            && r.flow == s.flow
            && Nil !in r.thread.history
            && ChunkAnswers(s.flow.script, r.thread.history) == Buffers(s.flow.mode, cs + [c])
  {
    hide Answer, RanOn, LoopsOverChunks, Ranked, WellAnswered, Inv;
    var v := Buffer(s.flow.mode, c);
    var h := s.thread.history;
    AnswerRunsOn(s, v);
    var (r, out) := Answer(s, v);
    LoopParks(s, h + [v], r, out);
    Snoc(h, v);
    assert ChunkAnswers(s.flow.script, h + [v]) == Buffers(s.flow.mode, cs) + [v];
    assert Buffers(s.flow.mode, cs + [c]) == Buffers(s.flow.mode, cs) + [v];
  }

  lemma LoopTakesChunk(s: Stream, n: nat, cs: seq<seq<byte>>, c: seq<byte>)
    requires InLoop(s, n, cs)
    ensures var (r, reply) := Deliver(s, BodyEvent(c, false));
            && InLoop(r, n + 1, cs + [c])
            && r.flow.mode == s.flow.mode && r.flow.script == s.flow.script
            && reply == Reply(Continue, None, Ok(Yielded))
  {
    hide Answer, Ledger, LoopsOverChunks, Ranked, WellAnswered, ChunkAnswers, Buffers;
    var ev := BodyEvent(c, false);
    DeliverKeepsInv(s, ev);
    DeliverKeepsLedger(s, ev, n, false);
    var s0 := Show(s, c);
    BufferChanges(s, c);
    var s1 := ConsumeChunk(s0.(flow := BodyArrived(s0.flow, |s0.flow.body|, false)));
    assert s0.flow.body == c;
    LoopGoesOn(s1, cs, c);
  }

  // The last event: its chunk if it carries one, and then nil.
  lemma LoopEnds(s: Stream, n: nat, cs: seq<seq<byte>>, last: Event)
    requires InLoop(s, n, cs)
    requires Ends(last) && !last.HeadersEvent?
    ensures var all := if last.BodyEvent? then cs + [last.chunk] else cs;
            Buffers(s.flow.mode, all) + [Nil] <=
            ChunkAnswers(s.flow.script, Deliver(s, last).0.thread.history)
  {
    hide Answer, RunToCompletion, HandleTrailers, Ledger, LoopsOverChunks, Ranked, WellAnswered, ChunkAnswers, Buffers;
    var r := Deliver(s, last).0;
    if last.TrailersEvent? {
      HandleTrailersAnswers(s, n);
      NilAnswers(s, r, cs);
    } else {
      var s0 := Show(s, last.chunk);
      assert s0.flow.body == last.chunk;
      BufferChanges(s, last.chunk);
      BufferKeepsLedger(s, s0, n, false);
      var s1 := ConsumeChunk(s0.(flow := BodyArrived(s0.flow, |s0.flow.body|, true)));
      LoopGoesOn(s1, cs, last.chunk);
      LoopDrains(s0, s1, n);
      NilAnswers(Answer(s1, BodyHandle(s0.flow)).0, r, cs + [last.chunk]);
    }
  }

  lemma NilAnswers(s: Stream, r: Stream, cs: seq<seq<byte>>)
    requires s.state.Yielded? && s.reason.WaitForBodyChunks? && Parked(s)
    requires ChunkAnswers(s.flow.script, s.thread.history) == Buffers(s.flow.mode, cs)
    requires s.thread.history + [Nil] <= r.thread.history
    ensures Buffers(s.flow.mode, cs) + [Nil] <= ChunkAnswers(s.flow.script, r.thread.history)
  {
    Snoc(s.thread.history, Nil);
    AnswersGrow(s.flow.script, s.thread.history + [Nil], r.thread.history);
  }

  lemma LoopDrains(s0: Stream, s1: Stream, n: nat)
    requires Inv(s0) && Ledger(s0, n, false) && !s0.flow.ended
    requires s0.state.Yielded? && s0.reason.WaitForBodyChunks?
    requires s1 == ConsumeChunk(s0.(flow := BodyArrived(s0.flow, |s0.flow.body|, true)))
    requires var (r, out) := Answer(s1, BodyHandle(s0.flow));
             out.Ok? && r.state.Yielded? && r.reason.WaitForBodyChunks? && r.flow == s1.flow
    ensures var r := Answer(s1, BodyHandle(s0.flow)).0;
            Inv(r) && r.thread.history + [Nil] <= AfterEvent(r).0.thread.history
  {
    hide Answer, Turn;
    TimelyGrows(s0.flow, s1.flow, s0.thread.history);
    ServedKeeps(s1, BodyHandle(s0.flow), n + 1, false);
    var r := Answer(s1, BodyHandle(s0.flow)).0;
    CompletionAnswers(r, n + 1);
  }

  lemma {:induction false} LoopGetsEveryChunk(s: Stream, n: nat, seen: seq<seq<byte>>, evs: seq<Event>)
    requires InLoop(s, n, seen)
    requires evs != [] && Continues(evs, false) && Complete(evs)
    ensures Buffers(s.flow.mode, seen + ChunksOf(evs)) + [Nil] <=
            ChunkAnswers(s.flow.script, Run(s, evs).0.thread.history)
    decreases |evs|
  {
    hide Deliver, InLoop, Inv, Continues, Complete, Buffers, ChunkAnswers;
    InLoopInv(s, n, seen);
    DeliverKeepsInv(s, evs[0]);
    var s1 := Deliver(s, evs[0]).0;
    if |evs| == 1 {
      OnlyEvent(evs);
      LoopEnds(s, n, seen, evs[0]);
      assert evs[1..] == [] && Run(s1, []).0 == s1;
      assert seen + ChunksOf(evs) == if evs[0].BodyEvent? then seen + [evs[0].chunk] else seen;
    } else {
      FirstOfMany(evs);
      var c := evs[0].chunk;
      LoopTakesChunk(s, n, seen, c);
      LoopGetsEveryChunk(s1, n + 1, seen + [c], evs[1..]);
      assert (seen + [c]) + ChunksOf(evs[1..]) == seen + ChunksOf(evs);
    }
  }

  lemma OnlyEvent(evs: seq<Event>)
    requires Continues(evs, false) && Complete(evs) && |evs| == 1
    ensures Ends(evs[0]) && !evs[0].HeadersEvent?
  {
  }

  lemma FirstOfMany(evs: seq<Event>)
    requires Continues(evs, false) && Complete(evs) && |evs| > 1
    ensures evs[0].BodyEvent? && !evs[0].end
    ensures Continues(evs[1..], false) && Complete(evs[1..])
  {
    assert Continues(evs[1..], Ends(evs[0]));
    assert evs[1..][|evs[1..]| - 1] == evs[|evs| - 1];
  }

  lemma InLoopInv(s: Stream, n: nat, cs: seq<seq<byte>>)
    requires InLoop(s, n, cs)
    ensures Inv(s)
  {
  }

  // ---- From the creation of the stream ----

  // Where such a script is when the headers have come, before the end of the stream
  // is looked at.
  lemma OpeningParks(mode: Mode, script: Script, end: bool) returns (s: Stream)
    requires Ranked(script, mode) && LoopsOverChunks(script, mode)
    ensures Inv(s) && Ledger(s, 0, false)
    ensures s.flow.mode == mode && s.flow.script == script && s.flow.body == []
    ensures s.flow.gotHeaders && s.flow.ended == end
    ensures s.state.Yielded? && s.reason.WaitForBodyChunks? && !ChunkPending(s.flow)
    ensures Nil !in s.thread.history && ChunkAnswers(script, s.thread.history) == []
    ensures Inv(New(mode, script)) && Start(New(mode, script)).1.Ok?
    ensures Inv(Start(New(mode, script)).0)
    ensures HandleHeaders(Start(New(mode, script)).0, end) == AfterEvent(s)
  {
    hide Answer, RunToCompletion, ExecuteFunction, RanOn, Ranked, WellAnswered, LoopsOverChunks, Ledger;
    var s0 := New(mode, script);
    NewIsInOrder(mode, script);
    StartKeepsInv(s0);
    StartKeeps(s0, 0, false);
    var s1 := Start(s0).0;
    OpeningStarts(s0);
    s := s1.(flow := s1.flow.(ended := end, gotHeaders := true));
    LedgerOpens(s1, s);
    if s1.reason.WaitForHeaders? {
      HeadersServed(s);
      var v := HeaderMap(mode, false);
      AnswerRunsOn(s, v);
      var (r, out) := Answer(s, v);
      LoopParks(s, s.thread.history + [v], r, out);
      HeadersAreNoChunk(script, s.thread.history, v);
      s := r;
    }
  }

  lemma OpeningStarts(s: Stream)
    requires Inv(s) && s == New(s.flow.mode, s.flow.script) && LoopsOverChunks(s.flow.script, s.flow.mode)
    ensures var (r, out) := Start(s);
            && out.Ok? && r.flow == s.flow && r.state.Yielded?
            && (r.reason.WaitForBodyChunks? || r.reason.WaitForHeaders?)
            && Nil !in r.thread.history && ChunkAnswers(s.flow.script, r.thread.history) == []
  {
    hide ExecuteFunction, RanOn, LoopsOverChunks, Ranked, WellAnswered;
    StartRunsOn(s);
    var (r, out) := ExecuteFunction(s);
    assert s.flow.script.defined by {
      OpeningIsDefined(s.flow.script, s.flow.mode);
    }
    LoopParks(s, [], r.(state := if out.Ok? then out.state else Exited), out);
  }

  lemma OpeningIsDefined(script: Script, m: Mode)
    requires LoopsOverChunks(script, m)
    ensures script.defined
  {
  }

  lemma LedgerOpens(s: Stream, r: Stream)
    requires Ledger(s, 0, false) && !s.flow.ended && !s.flow.gotBody && !s.flow.gotTrailers
    requires r == s.(flow := s.flow.(ended := r.flow.ended, gotHeaders := true))
    ensures Ledger(r, 0, false)
  {
    TimelyGrows(s.flow, r.flow, s.thread.history);
  }

  lemma HeadersAreNoChunk(script: Script, h: seq<Value>, v: Value)
    requires script.next(h) == Call(Headers)
    ensures ChunkAnswers(script, h + [v]) == ChunkAnswers(script, h)
  {
    Snoc(h, v);
  }

  lemma HeadersServed(s: Stream)
    requires Consistent(s) && Ledger(s, 0, false) && s.reason.WaitForHeaders? && s.flow.gotHeaders
    ensures Ledger(Answer(s, HeaderMap(s.flow.mode, false)).0, 0, false)
  {
    hide Answer;
    ServedKeeps(s, HeaderMap(s.flow.mode, false), 0, false);
  }

  // A script that loops over the body chunks from before the first body event gets
  // one Buffer for each body event, in order, and then nil, however the stream ends.
  lemma LoopFromTheStart(mode: Mode, script: Script, evs: seq<Event>)
    requires Ranked(script, mode) && LoopsOverChunks(script, mode)
    requires WellOrdered(evs) && Complete(evs)
    ensures Buffers(mode, ChunksOf(evs)) + [Nil] <=
            ChunkAnswers(script, FreshRun(mode, script, evs).0.thread.history)
  {
    hide AfterHeaders, Ledger, InLoop, Run, FreshRun, Buffers, LoopsOverChunks, ChunkAnswers, Inv, Ranked;
    var end := evs[0].end;
    OpeningDelivers(mode, script, end);
    assert evs == [evs[0]] + evs[1..];
    FreshRunFirst(mode, script, end, evs[1..]);
    var s := AfterHeaders(mode, script, end).0;
    if end {
      assert evs[1..] == [] && ChunksOf(evs) == [];
      RunNothing(s);
    } else {
      assert evs[1..][|evs[1..]| - 1] == evs[|evs| - 1];
      LoopGetsEveryChunk(s, 0, [], evs[1..]);
      assert [] + ChunksOf(evs[1..]) == ChunksOf(evs);
    }
  }

  // The headers event takes such a script into its loop; if it ends the stream, the
  // loop gets nil at once.
  lemma OpeningDelivers(mode: Mode, script: Script, end: bool)
    requires Ranked(script, mode) && LoopsOverChunks(script, mode)
    ensures var s := AfterHeaders(mode, script, end).0;
            && Inv(s)
            && s.flow.mode == mode && s.flow.script == script
            && (end ==> Buffers(mode, []) + [Nil] <= ChunkAnswers(script, s.thread.history))
            && (!end ==> InLoop(s, 0, []))
  {
    hide AfterHeaders, AfterEvent, Ledger, Start, HandleHeaders, HeadersReply, InLoop;
    hide Inv, Ranked, LoopsOverChunks, New, ChunkAnswers, WellAnswered;
    NewIsInOrder(mode, script);
    var s := OpeningParks(mode, script, end);
    ParkedInInv(s);
    AfterStart(mode, script, end);
    AfterEventFacts(s);
    ReplyKeepsThread(AfterEvent(s).0, AfterEvent(s).1);
    if end {
      CompletionAnswers(s, 0);
      NilAnswers(s, AfterHeaders(mode, script, end).0, []);
    } else {
      NoEventYet(s);
      LoopIsOpen(s, PassOn(s));
    }
  }

  lemma ParkedInInv(s: Stream)
    requires Inv(s) && s.state.Yielded? && !s.reason.WaitToStart?
    ensures Consistent(s) && Parked(s)
  {
  }

  lemma AfterStart(mode: Mode, script: Script, end: bool)
    requires Ranked(script, mode) && Inv(New(mode, script))
    requires Start(New(mode, script)).1.Ok? && Inv(Start(New(mode, script)).0)
    ensures var (r, out) := HandleHeaders(Start(New(mode, script)).0, end);
            AfterHeaders(mode, script, end) == HeadersReply(r, out)
  {
    hide Start, HandleHeaders, HeadersReply, Inv, Ranked, Ledger;
  }

  lemma NoEventYet(s: Stream)
    requires Consistent(s) && !s.flow.ended
    ensures AfterEvent(s) == (s, Ok(s.state))
  {
  }

  lemma ReplyKeepsThread(r: Stream, out: Outcome)
    ensures var q := HeadersReply(r, out).0;
            && q.thread == r.thread && q.flow.mode == r.flow.mode && q.flow.script == r.flow.script
            && (out.Ok? && r.reason.WaitForBodyChunks? ==> q == PassOn(r))
  {
  }

  lemma RunNothing(s: Stream)
    requires Inv(s)
    ensures Run(s, []) == (s, [])
  {
  }

  lemma LoopIsOpen(s: Stream, s1: Stream)
    requires s1 == PassOn(s)
    requires Inv(s) && Ledger(s, 0, false)
    requires s.state.Yielded? && s.reason.WaitForBodyChunks?
    requires s.flow.gotHeaders && !s.flow.ended && !ChunkPending(s.flow) && s.flow.body == []
    requires Nil !in s.thread.history && ChunkAnswers(s.flow.script, s.thread.history) == []
    requires LoopsOverChunks(s.flow.script, s.flow.mode)
    ensures InLoop(s1, 0, [])
  {
    hide LoopsOverChunks;
    BufferChanges(s, []);
    BufferKeepsInv(s, s1);
    BufferKeepsLedger(s, s1, 0, false);
  }
}
