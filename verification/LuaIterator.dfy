// Exactly when the chunk iterator hands out a buffer, and when nil.
module LuaIterator {
  import opened LuaAnswers
  import opened LuaDriver
  import opened LuaLedger
  import opened LuaReplies
  import opened LuaRuns
  import opened LuaScript
  import opened LuaStream
  import opened LuaTheorems
  import opened Sequences
  import opened Wrappers

  // Is there data the script has not been shown, if there was (p) when it had had n
  // answers?
  ghost predicate Unseen(script: Script, n: nat, h: seq<Value>, p: bool) {
    if |h| <= n then p
    else Unseen(script, n, Front(h), p) && !IsChunk(script.next(Front(h)), Latest(h))
  }

  // From answer n on, the iterator hands out a buffer exactly while there is such data,
  // and else nil.
  ghost predicate Honest(script: Script, n: nat, h: seq<Value>, p: bool) {
    |h| <= n ||
    (Honest(script, n, Front(h), p) &&
     (script.next(Front(h)) == Call(BodyChunks) ==> (Latest(h).Buffer? <==> Unseen(script, n, Front(h), p))))
  }

  // The same, for the state that this leaves.
  ghost predicate Accounts(n: nat, s: Stream, p: bool) {
    && n <= |s.thread.history|
    && Honest(s.flow.script, n, s.thread.history, p)
    && (ChunkPending(s.flow) <==> Unseen(s.flow.script, n, s.thread.history, p))
  }

  // What an accessor answers at once does not come from the iterator.
  lemma {:induction false} PromptIsHonest(f: Flow, h0: seq<Value>, h: seq<Value>, n: nat, p: bool)
    requires Prompt(f, h0, h) && n <= |h0| && Honest(f.script, n, h0, p)
    ensures n <= |h| && Honest(f.script, n, h, p)
    ensures Unseen(f.script, n, h, p) == Unseen(f.script, n, h0, p)
  {
    if h != h0 {
      PromptIsHonest(f, h0, Front(h), n, p);
    }
  }

  lemma AnswerIsHonest(f: Flow, h0: seq<Value>, v: Value, h: seq<Value>, n: nat, p: bool)
    requires Prompt(f, h0 + [v], h) && n <= |h0| && Honest(f.script, n, h0, p)
    requires f.script.next(h0) == Call(BodyChunks) ==> (v.Buffer? <==> Unseen(f.script, n, h0, p))
    ensures n <= |h| && Honest(f.script, n, h, p)
    ensures Unseen(f.script, n, h, p) <==> Unseen(f.script, n, h0, p) && !IsChunk(f.script.next(h0), v)
  {
    Snoc(h0, v);
    PromptIsHonest(f, h0 + [v], h, n, p);
  }

  lemma TurnIsHonest(s: Stream, n: nat, p: bool)
    requires Inv(s) && s.state.Yielded? && DataWait(s.reason) && Accounts(n, s, p)
    ensures Accounts(n, Turn(s).0, p)
  {
    hide Turn, Ranked, WellAnswered, Prompt, Honest, Unseen;
    TurnRunsOn(s);
    var (r, out) := Turn(s);
    AnswerIsHonest(s.flow, s.thread.history, FinalAnswer(s), r.thread.history, n, p) by {
      SamePrompt(if TakesChunk(s) then ConsumeChunk(s).flow else s.flow, s.flow,
                 s.thread.history + [FinalAnswer(s)], r.thread.history);
    }
  }

  // Whether a chunk is pending makes no difference to what is answered at once.
  lemma {:induction false} SamePrompt(f: Flow, g: Flow, h0: seq<Value>, h: seq<Value>)
    requires Prompt(f, h0, h) && SameFlags(g, f)
    ensures Prompt(g, h0, h)
  {
    if h != h0 {
      SamePrompt(f, g, h0, Front(h));
    }
  }

  lemma {:induction false} RunToCompletionIsHonest(s: Stream, n: nat, p: bool)
    requires Inv(s) && Accounts(n, s, p)
    ensures Accounts(n, RunToCompletion(s).0, p)
    decreases if ChunkPending(s.flow) then 1 else 0, s.flow.script.rank(s.thread.history)
  {
    hide Turn, RanOn, Accounts;
    if s.state.Yielded? && DataWait(s.reason) {
      TurnRunsOn(s);
      TurnFacts(s);
      TurnIsHonest(s, n, p);
      if Turn(s).1.Ok? {
        RunToCompletionIsHonest(Turn(s).0, n, p);
      }
    }
  }

  lemma AfterEventIsHonest(s: Stream, n: nat, p: bool)
    requires Inv(s) && Accounts(n, s, p)
    ensures Accounts(n, AfterEvent(s).0, p)
  {
    hide Accounts;
    if s.flow.ended {
      RunToCompletionIsHonest(s, n, p);
    }
  }

  // ---- One event ----

  // The answer v was pushed, and nothing is unseen any more.
  lemma ThenHonest(s: Stream, v: Value, r: Stream, out: Outcome)
    requires RanOn(s, s.thread.history + [v], r, out) && !ChunkPending(s.flow)
    ensures Accounts(|s.thread.history| + 1, r, false)
  {
    hide Ranked, WellAnswered;
    PromptIsHonest(s.flow, s.thread.history + [v], r.thread.history, |s.thread.history| + 1, false);
  }

  // The event found the script waiting for it.
  predicate Awaited(s: Stream, end: bool) {
    s.state.Yielded? && (s.reason.WaitForBodyChunks? || (s.reason.WaitForBody? && end))
  }

  lemma HandleBodyIsHonest(s: Stream, length: nat, end: bool)
    requires Inv(s) && !s.flow.ended && !s.flow.gotTrailers
    ensures var (r, n) := (HandleBody(s, length, end).0, |s.thread.history|);
            if Awaited(s, end) then Accounts(n + 1, r, false) && r.thread.history[n] == BodyHandle(s.flow)
            else Accounts(n, r, ChunkPending(s.flow) || length > 0)
  {
    hide Answer, AfterEvent, Ranked, WellAnswered, GenuineSince, RanOn, Accounts;
    var n := |s.thread.history|;
    var s0 := s.(flow := BodyArrived(s.flow, length, end));
    if Awaited(s, end) {
      var s1, v := ConsumeChunk(s0), BodyHandle(s0.flow);
      ServeRunsOn(s1, s.reason, v);
      var (r, out) := Answer(s1, v);
      RanOnIsGenuine(s1, s.thread.history, v, r, out);
      ThenHonest(s1, v, r, out);
      GenuineGrows(ContentOf(s1.flow), s.thread.history, v, r.thread.history);
      if out.Ok? {
        AfterEventIsHonest(r, n + 1, false);
        AfterEventIsGenuine(ContentOf(s1.flow), s.thread.history + [v], r);
        GenuineGrows(ContentOf(s1.flow), s.thread.history, v, AfterEvent(r).0.thread.history);
      }
    } else {
      NothingYet(s0, ChunkPending(s.flow) || length > 0);
      if s.state.Yielded? {
        AfterEventIsHonest(s0, n, ChunkPending(s.flow) || length > 0);
      }
    }
  }

  lemma GenuineGrows(c: Content, h0: seq<Value>, v: Value, h: seq<Value>)
    requires GenuineSince(c, h0 + [v], h)
    ensures |h0| < |h| && h[|h0|] == v && h0 + [v] <= h
  {
    assert h[|h0|] == (h0 + [v])[|h0|];
  }

  lemma NothingYet(s: Stream, p: bool)
    requires ChunkPending(s.flow) == p
    ensures Accounts(|s.thread.history|, s, p)
  {
  }

  lemma HandleHeadersIsHonest(s: Stream, end: bool)
    requires Inv(s) && s.thread.history == [] && !ChunkPending(s.flow)
    ensures Accounts(0, HandleHeaders(s, end).0, false)
  {
    hide Answer, AfterEvent, Ranked, WellAnswered, Prompt, Accounts;
    var s0 := s.(flow := s.flow.(ended := end, gotHeaders := true));
    var v := HeaderMap(s.flow.mode, false);
    ServeRunsOn(s0, WaitForHeaders, v);
    var (r, out) := ServeIf(s0, WaitForHeaders, v);
    NothingYet(s0, false);
    if s.reason.WaitForHeaders? {
      ServedIsHonest(s0, v, 0, false, r, out);
    }
    if out.Ok? {
      AfterEventIsHonest(r, 0, false);
    }
  }

  // A pushed answer to another accessor leaves the account as it is.
  lemma ServedIsHonest(s: Stream, v: Value, n: nat, p: bool, r: Stream, out: Outcome)
    requires Accounts(n, s, p) && RanOn(s, s.thread.history + [v], r, out)
    requires s.flow.script.next(s.thread.history) != Call(BodyChunks)
    ensures Accounts(n, r, p)
  {
    hide Ranked, WellAnswered;
    AnswerIsHonest(s.flow, s.thread.history, v, r.thread.history, n, p);
  }

  // Trailers answer nil to an iterator that waits then, whatever is unseen.
  ghost predicate Overtaken(script: Script, n: nat, h: seq<Value>, p: bool) {
    exists m :: n <= m < |h| && h[m].Nil? && script.next(h[..m]) == Call(BodyChunks) &&
                Honest(script, n, h[..m], p) && Honest(script, m + 1, h, p)
  }

  lemma OvertakenBy(n: nat, s: Stream, r: Stream, p: bool)
    requires Accounts(n, s, p) && Parked(s) && s.reason.WaitForBodyChunks? && r.flow.script == s.flow.script
    requires s.thread.history + [Nil] <= r.thread.history && Accounts(|s.thread.history| + 1, r, p)
    ensures Overtaken(s.flow.script, n, r.thread.history, p)
  {
    hide Honest, Unseen;
    var h0, h := s.thread.history, r.thread.history;
    assert h[..|h0|] == h0 && h[|h0|] == (h0 + [Nil])[|h0|];
  }

  // The script waits for a chunk when the trailers come, or when it has had the body.
  lemma NilComesFirst(n: nat, s: Stream, p: bool)
    requires Inv(s) && s.state.Yielded? && s.reason.WaitForBodyChunks? && Accounts(n, s, p)
    requires s.flow.gotTrailers && s.flow.ended && ChunkPending(s.flow) == p
    ensures var (r, out) := ServeIf(s, WaitForBodyChunks, Nil);
            && Inv(r) && TrailersTaken(r)
            && Overtaken(s.flow.script, n, r.thread.history, p)
            && Overtaken(s.flow.script, n, RunToCompletion(r).0.thread.history, p)
  {
    hide Answer, RunToCompletion, Ranked, WellAnswered, GenuineSince, Accounts, Overtaken, Prompt;
    var h, c := s.thread.history, ContentOf(s.flow);
    ServeRunsOn(s, WaitForBodyChunks, Nil);
    var (r, out) := ServeIf(s, WaitForBodyChunks, Nil);
    RanOnIsGenuine(s, h, Nil, r, out);
    GenuineGrows(c, h, Nil, r.thread.history);
    StillAccounts(s, r, out, p);
    OvertakenBy(n, s, r, p);
    RunToCompletionFacts(r);
    RunToCompletionIsHonest(r, |h| + 1, p);
    RunToCompletionIsGenuine(r);
    GenuineOn(c, h + [Nil], r.thread.history, RunToCompletion(r).0.thread.history);
    GenuineGrows(c, h, Nil, RunToCompletion(r).0.thread.history);
    OvertakenBy(n, s, RunToCompletion(r).0, p);
  }

  lemma StillAccounts(s: Stream, r: Stream, out: Outcome, p: bool)
    requires RanOn(s, s.thread.history + [Nil], r, out) && ChunkPending(s.flow) == p
    ensures Accounts(|s.thread.history| + 1, r, p)
  {
    hide Ranked, WellAnswered;
    PromptIsHonest(s.flow, s.thread.history + [Nil], r.thread.history, |s.thread.history| + 1, p);
  }

  lemma HandleTrailersIsHonest(s: Stream)
    requires Inv(s) && !s.flow.ended && s.flow.gotHeaders && !s.flow.gotTrailers && s.state.Yielded?
    ensures var r, n, p := HandleTrailers(s).0, |s.thread.history|, ChunkPending(s.flow);
            if s.reason.WaitForBody? || s.reason.WaitForBodyChunks?
            then Honest(s.flow.script, n, r.thread.history, p) || Overtaken(s.flow.script, n, r.thread.history, p)
            else Honest(s.flow.script, n, r.thread.history, p)
  {
    hide Answer, RunToCompletion, Ranked, WellAnswered, GenuineSince, RanOn, Overtaken, Honest, Unseen, Prompt;
    var s0 := s.(flow := s.flow.(gotTrailers := true, ended := true));
    var n, p, v := |s.thread.history|, ChunkPending(s.flow), TrailerMap(s.flow.mode, false);
    var p0 := (s0, Ok(s0.state));
    NothingYet(s0, p);
    var p1 := ThenServeFacts(s, p0, WaitForBody, BodyHandle(s0.flow));
    ServeRunsOn(s0, WaitForBody, BodyHandle(s0.flow));
    if s.reason.WaitForBody? {
      ServedIsHonest(s0, BodyHandle(s0.flow), n, p, p1.0, p1.1);
      RanOnIsGenuine(s0, s.thread.history, BodyHandle(s0.flow), p1.0, p1.1);
    }
    if p1.1.Ok? && p1.0.reason.WaitForBodyChunks? {
      NilComesFirst(n, p1.0, p);
    } else {
      ServeRunsOn(p1.0, WaitForTrailers, v);
      var p3 := ThenServeFacts(s, p1, WaitForTrailers, v);
      if p1.1.Ok? && p1.0.reason.WaitForTrailers? {
        ServedIsHonest(p1.0, v, n, p, p3.0, p3.1);
      }
      if p3.1.Ok? {
        RunToCompletionFacts(p3.0);
        RunToCompletionIsHonest(p3.0, n, p);
      }
    }
  }

  // The event answered a call that waited for it.
  predicate Served(script: Script, ev: Event, h0: seq<Value>, h: seq<Value>) {
    ev.BodyEvent? && |h0| < |h| &&
    (script.next(h0) == Call(BodyChunks) || (script.next(h0) == Call(Body) && ev.end))
  }

  // What an event does to a history h0, if there is unseen data (p) by then: a waiting
  // iterator gets the chunk, and later steps nil; otherwise the iterator hands out unseen
  // data once, unless trailers answer nil first.
  ghost predicate Lawful(script: Script, ev: Event, h0: seq<Value>, h: seq<Value>, p: bool) {
    if Served(script, ev, h0, h) then h[|h0|].Buffer? && Honest(script, |h0| + 1, h, false)
    else
      Honest(script, |h0|, h, p) ||
      (ev.TrailersEvent? && script.next(h0) in {Call(Body), Call(BodyChunks)} && Overtaken(script, |h0|, h, p))
  }

  ghost function UnseenThen(script: Script, ev: Event, h0: seq<Value>, h: seq<Value>, p: bool): bool {
    !Served(script, ev, h0, h) && Unseen(script, |h0|, h, p)
  }

  lemma ServedIsAwaited(s: Stream, ev: Event, h: seq<Value>)
    requires Inv(s) && Started(s) && ev.BodyEvent?
    requires s.state.Exited? ==> h == s.thread.history
    requires Awaited(s, ev.end) ==> |s.thread.history| < |h|
    ensures Served(s.flow.script, ev, s.thread.history, h) <==> Awaited(s, ev.end)
  {
    hide Ranked, WellAnswered;
  }

  lemma BodyIsLawful(s: Stream, chunk: seq<byte>, end: bool)
    requires Inv(s) && Started(s) && !s.flow.ended && !s.flow.gotTrailers
    ensures var (h0, r) := (s.thread.history, Deliver(s, BodyEvent(chunk, end)).0);
            var p := ChunkPending(s.flow) || s.flow.body + chunk != [];
            && Lawful(s.flow.script, BodyEvent(chunk, end), h0, r.thread.history, p)
            && (ChunkPending(r.flow) <==> UnseenThen(s.flow.script, BodyEvent(chunk, end), h0, r.thread.history, p))
  {
    hide HandleBody, Honest, Unseen, Inv, BodyReply, Forward, Served, Awaited, Started;
    var s0, length := Show(s, chunk), |s.flow.body + chunk|;
    BufferChanges(s, chunk);
    BufferKeepsInv(s, s0);
    HandleBodyIsHonest(s0, length, end);
    HandleBodyFlags(s0, length, end);
    var (r, out) := HandleBody(s0, length, end);
    RepliesTouchTheBufferOnly(r, out);
    if s.state.Exited? {
      ExitedStays(s, BodyEvent(chunk, end));
    }
    AwaitedSame(s, chunk, end);
    ServedIsAwaited(s, BodyEvent(chunk, end), r.thread.history);
    NothingAfter(s.flow.script, |s.thread.history| + 1, r.thread.history);
  }

  lemma AwaitedSame(s: Stream, chunk: seq<byte>, end: bool)
    ensures Awaited(s, end) == Awaited(Show(s, chunk), end)
  {
  }

  lemma {:induction false} NothingAfter(script: Script, n: nat, h: seq<Value>)
    ensures !Unseen(script, n, h, false)
  {
    if |h| > n {
      NothingAfter(script, n, Front(h));
    }
  }

  lemma TrailersAreLawful(s: Stream)
    requires Inv(s) && Expected(s, TrailersEvent)
    ensures Lawful(s.flow.script, TrailersEvent, s.thread.history, Deliver(s, TrailersEvent).0.thread.history,
                   ChunkPending(s.flow))
  {
    hide HandleTrailers, Overtaken, Ranked, WellAnswered;
    if s.state.Yielded? {
      HandleTrailersIsHonest(s);
    } else {
      ExitedStays(s, TrailersEvent);
    }
  }

  lemma HeadersAreLawful(mode: Mode, script: Script, end: bool)
    requires Ranked(script, mode) && !FailsOnEntry(script)
    ensures Inv(New(mode, script))
    ensures var r := Deliver(New(mode, script), HeadersEvent(end)).0;
            && Honest(script, 0, r.thread.history, false)
            && (ChunkPending(r.flow) <==> Unseen(script, 0, r.thread.history, false))
  {
    hide Start, HandleHeaders, Honest, Unseen, Inv;
    var s := New(mode, script);
    NewIsInOrder(mode, script);
    StartKeepsInv(s);
    StartFails(mode, script);
    HandleHeadersIsHonest(Start(s).0, end);
    HandleHeadersFlags(Start(s).0, end);
  }

  // ---- Whole runs ----

  // Has data come that no answer before event i has shown? Body events bring what the
  // proxy holds; an answered wait for it shows all, and so does a step of the iterator.
  ghost function UnseenAt(mode: Mode, script: Script, evs: seq<Event>, i: nat): bool
    requires Ranked(script, mode) && i < |evs|
  {
    FreshRunAt(mode, script, evs, i);
    var before :=
      i > 0 && UnseenThen(script, evs[i - 1], HistoryAfter(mode, script, evs, i - 1),
                          HistoryAfter(mode, script, evs, i), UnseenAt(mode, script, evs, i - 1));
    before || (evs[i].BodyEvent? && Held(evs, FreshRun(mode, script, evs).1, i) != [])
  }

  lemma {:induction false} IteratorLaw(mode: Mode, script: Script, evs: seq<Event>, i: nat)
    requires Ranked(script, mode) && WellOrdered(evs) && i < |evs|
    ensures Lawful(script, evs[i], HistoryAfter(mode, script, evs, i), HistoryAfter(mode, script, evs, i + 1),
                   UnseenAt(mode, script, evs, i))
    ensures !FailsOnEntry(script) && !evs[i].TrailersEvent? ==>
              (ChunkPending(After(mode, script, evs, i + 1).flow) <==>
               UnseenThen(script, evs[i], HistoryAfter(mode, script, evs, i), HistoryAfter(mode, script, evs, i + 1),
                          UnseenAt(mode, script, evs, i)))
  {
    hide Deliver, Inv, FreshRun, Start, Ranked, Lawful, UnseenThen, Held;
    FreshRunAt(mode, script, evs, i);
    if FailsOnEntry(script) {
      FailedScriptHearsNothing(mode, script, evs, i);
      FailedScriptHearsNothing(mode, script, evs, i + 1);
      NothingIsLawful(script, evs[i], UnseenAt(mode, script, evs, i));
    } else {
      var s := After(mode, script, evs, i);
      BufferIsHeld(mode, script, evs, i);
      FlagsTellTheEvents(mode, script, evs, i);
      WellOrderedAt(evs, i);
      if i == 0 {
        HeadersAreLawful(mode, script, evs[0].end);
        LawfulHeaders(script, evs[0], HistoryAfter(mode, script, evs, 1));
      } else {
        IteratorLaw(mode, script, evs, i - 1);
        FlagsTellTheEvents(mode, script, evs, i - 1);
        HeldIsShown(evs, FreshRun(mode, script, evs).1, i, s.flow.body);
        match evs[i]
        case BodyEvent(chunk, end) => BodyIsLawful(s, chunk, end);
        case TrailersEvent => TrailersAreLawful(s);
      }
    }
  }

  lemma HeldIsShown(evs: seq<Event>, replies: seq<Reply>, i: nat, body: seq<byte>)
    requires i < |evs| <= |replies| && HeldBefore(evs, replies, i) == body
    ensures Held(evs, replies, i) == body + BytesOf(evs[i])
  {
  }

  lemma NothingIsLawful(script: Script, ev: Event, p: bool)
    ensures Lawful(script, ev, [], [], p)
  {
  }

  lemma LawfulHeaders(script: Script, ev: Event, h: seq<Value>)
    requires ev.HeadersEvent?
    ensures Lawful(script, ev, [], h, false) <==> Honest(script, 0, h, false)
    ensures UnseenThen(script, ev, [], h, false) <==> Unseen(script, 0, h, false)
  {
  }
}
