// What the answers hold, over whole runs: the bytes of a buffer and the guard of a map.
module LuaAnswers {
  import opened LuaDriver
  import opened LuaReplies
  import opened LuaRuns
  import opened LuaScript
  import opened LuaStream
  import opened LuaTheorems
  import opened Sequences
  import opened Wrappers

  // ---- What an event adds to the history ----

  // What there is to hand out. trailers: they have come.
  datatype Content = Content(mode: Mode, body: seq<byte>, trailers: bool)

  function ContentOf(f: Flow): Content {
    Content(f.mode, f.body, f.gotTrailers)
  }

  // A buffer reads what the proxy holds, a headers map carries the guard, and a trailers
  // map does if the trailers have come.
  predicate Genuine(c: Content, v: Value) {
    match v
    case HeaderMap(m, guarded) => m == c.mode && guarded
    case TrailerMap(m, guarded) => m == c.mode && guarded == c.trailers
    case Buffer(m, bytes) => m == c.mode && bytes == c.body
    case Nil => true
  }

  // h continues h0 with such answers.
  predicate GenuineSince(c: Content, h0: seq<Value>, h: seq<Value>) {
    h0 <= h && forall i | |h0| <= i < |h| :: Genuine(c, h[i])
  }

  // The script does not wait for trailers that have come.
  predicate TrailersTaken(s: Stream) {
    s.flow.gotTrailers ==> !s.reason.WaitForTrailers?
  }

  lemma NothingAdded(c: Content, h: seq<Value>)
    ensures GenuineSince(c, h, h)
  {
  }

  lemma GenuineOn(c: Content, h0: seq<Value>, h1: seq<Value>, h: seq<Value>)
    requires GenuineSince(c, h0, h1) && GenuineSince(c, h1, h)
    ensures GenuineSince(c, h0, h)
  {
    assert forall i | |h0| <= i < |h1| :: h[i] == h1[i];
  }

  // An accessor that does not suspend the script hands out what there is.
  lemma {:induction false} PromptIsGenuine(f: Flow, h0: seq<Value>, h: seq<Value>)
    requires Prompt(f, h0, h)
    ensures GenuineSince(ContentOf(f), h0, h)
  {
    if h != h0 {
      PromptIsGenuine(f, h0, Front(h));
      assert h == Front(h) + [Latest(h)];
    }
  }

  // The script ran on from the answer v.
  lemma RanOnIsGenuine(s: Stream, h0: seq<Value>, v: Value, r: Stream, out: Outcome)
    requires RanOn(s, h0 + [v], r, out) && Inv(r)
    ensures ContentOf(r.flow) == ContentOf(s.flow) && TrailersTaken(r)
    ensures GenuineSince(ContentOf(s.flow), h0 + [v], r.thread.history)
    ensures Genuine(ContentOf(s.flow), v) ==> GenuineSince(ContentOf(s.flow), h0, r.thread.history)
  {
    hide WellAnswered, Ranked, Prompt;
    PromptIsGenuine(s.flow, h0 + [v], r.thread.history);
    assert r.thread.history[|h0|] == v;
  }

  lemma TurnIsGenuine(s: Stream)
    requires Inv(s) && s.state.Yielded? && DataWait(s.reason) && TrailersTaken(s)
    ensures var r := Turn(s).0;
            && GenuineSince(ContentOf(s.flow), s.thread.history, r.thread.history)
            && ContentOf(r.flow) == ContentOf(s.flow) && TrailersTaken(r)
  {
    hide Turn, GenuineSince, RanOn;
    TurnRunsOn(s);
    var (r, out) := Turn(s);
    RanOnIsGenuine(if TakesChunk(s) then ConsumeChunk(s) else s, s.thread.history, FinalAnswer(s), r, out);
  }

  lemma {:induction false} RunToCompletionIsGenuine(s: Stream)
    requires Inv(s) && TrailersTaken(s)
    ensures GenuineSince(ContentOf(s.flow), s.thread.history, RunToCompletion(s).0.thread.history)
    decreases if ChunkPending(s.flow) then 1 else 0, s.flow.script.rank(s.thread.history)
  {
    hide Turn, RanOn, GenuineSince;
    var c, h := ContentOf(s.flow), s.thread.history;
    NothingAdded(c, h);
    if s.state.Yielded? && DataWait(s.reason) {
      TurnRunsOn(s);
      TurnFacts(s);
      TurnIsGenuine(s);
      var (r, out) := Turn(s);
      if out.Ok? {
        RunToCompletionIsGenuine(r);
        GenuineOn(c, h, r.thread.history, RunToCompletion(r).0.thread.history);
      }
    }
  }

  // The rest of an event that answered v first, or nothing so far.
  lemma AfterEventIsGenuine(c: Content, h: seq<Value>, s: Stream)
    requires Inv(s) && TrailersTaken(s) && ContentOf(s.flow) == c && GenuineSince(c, h, s.thread.history)
    ensures GenuineSince(c, h, AfterEvent(s).0.thread.history)
  {
    hide GenuineSince;
    if s.flow.ended {
      RunToCompletionIsGenuine(s);
      GenuineOn(c, h, s.thread.history, RunToCompletion(s).0.thread.history);
    }
  }

  lemma HandleBodyIsGenuine(s: Stream, length: nat, end: bool)
    requires Inv(s) && !s.flow.gotTrailers
    ensures GenuineSince(ContentOf(s.flow), s.thread.history, HandleBody(s, length, end).0.thread.history)
  {
    hide Answer, AfterEvent, Ranked, WellAnswered, GenuineSince, RanOn;
    var c, h := ContentOf(s.flow), s.thread.history;
    NothingAdded(c, h);
    if !s.flow.ended && s.state.Yielded? {
      var s0 := s.(flow := BodyArrived(s.flow, length, end));
      if s.reason.WaitForBodyChunks? || (s.reason.WaitForBody? && end) {
        var s1, v := ConsumeChunk(s0), BodyHandle(s0.flow);
        ServeRunsOn(s1, s.reason, v);
        var (r, out) := Answer(s1, v);
        RanOnIsGenuine(s1, h, v, r, out);
        if out.Ok? {
          AfterEventIsGenuine(c, h, r);
        }
      } else {
        AfterEventIsGenuine(c, h, s0);
      }
    }
  }

  lemma ThenServeIsGenuine(c: Content, h: seq<Value>, p: (Stream, Outcome), reason: YieldReason, v: Value)
    requires Consistent(p.0) && Fits(reason, p.0.flow.mode, v) && Genuine(c, v)
    requires TrailersTaken(p.0) && ContentOf(p.0.flow) == c && GenuineSince(c, h, p.0.thread.history)
    ensures var q := ThenServe(p, reason, v);
            TrailersTaken(q.0) && ContentOf(q.0.flow) == c && GenuineSince(c, h, q.0.thread.history)
  {
    hide Answer, GenuineSince, Consistent, RanOn;
    if p.1.Ok? {
      ServeRunsOn(p.0, reason, v);
      var (r, out) := ServeIf(p.0, reason, v);
      if p.0.reason == reason {
        RanOnIsGenuine(p.0, p.0.thread.history, v, r, out);
        GenuineOn(c, h, p.0.thread.history, r.thread.history);
      }
    }
  }

  // The trailers event pushes the map without a guard to a script that waits for it.
  function Pushed(s: Stream): seq<Value> {
    if s.reason.WaitForTrailers? then [TrailerMap(s.flow.mode, false)] else []
  }

  lemma HandleTrailersIsGenuine(s: Stream)
    requires Inv(s) && !s.flow.ended && s.flow.gotHeaders && !s.flow.gotTrailers && s.state.Yielded?
    ensures GenuineSince(ContentOf(s.flow).(trailers := true), s.thread.history + Pushed(s),
                         HandleTrailers(s).0.thread.history)
  {
    hide Answer, RunToCompletion, Ranked, WellAnswered, GenuineSince, RanOn;
    var s0 := s.(flow := s.flow.(gotTrailers := true, ended := true));
    var c, h, v := ContentOf(s0.flow), s.thread.history, TrailerMap(s.flow.mode, false);
    var p0 := (s0, Ok(s0.state));
    var p1 := ThenServeFacts(s, p0, WaitForBody, BodyHandle(s0.flow));
    var p2 := ThenServeFacts(s, p1, WaitForBodyChunks, Nil);
    var p3 := ThenServeFacts(s, p2, WaitForTrailers, v);
    if s.reason.WaitForTrailers? {
      ServeRunsOn(s0, WaitForTrailers, v);
      RanOnIsGenuine(s0, h, v, p3.0, p3.1);
    } else {
      WithEmpty(h);
      NothingAdded(c, h);
      ThenServeIsGenuine(c, h, p0, WaitForBody, BodyHandle(s0.flow));
      ThenServeIsGenuine(c, h, p1, WaitForBodyChunks, Nil);
    }
    if p3.1.Ok? {
      RunToCompletionIsGenuine(p3.0);
      GenuineOn(c, h + Pushed(s), p3.0.thread.history, RunToCompletion(p3.0).0.thread.history);
    }
  }

  // The headers event pushes the one map without a guard, to a script that waits for it.
  lemma HandleHeadersPushes(s: Stream, end: bool)
    requires Inv(s) && s.thread.history == [] && !s.flow.gotTrailers
    ensures GenuineSince(ContentOf(s.flow), if s.reason.WaitForHeaders? then [HeaderMap(s.flow.mode, false)] else [],
                         HandleHeaders(s, end).0.thread.history)
  {
    hide Answer, AfterEvent, Ranked, WellAnswered, GenuineSince, RanOn;
    var s0 := s.(flow := s.flow.(ended := end, gotHeaders := true));
    var v := HeaderMap(s.flow.mode, false);
    ServeRunsOn(s0, WaitForHeaders, v);
    var (r, out) := ServeIf(s0, WaitForHeaders, v);
    var c, h1 := ContentOf(s.flow), if s.reason.WaitForHeaders? then [v] else [];
    NothingAdded(c, h1);
    if s.reason.WaitForHeaders? {
      assert [] + [v] == [v];
      RanOnIsGenuine(s0, [], v, r, out);
    }
    if out.Ok? {
      AfterEventIsGenuine(c, h1, r);
    }
  }

  // ---- One event ----

  function PushedBy(s: Stream, ev: Event): seq<Value> {
    if ev.TrailersEvent? then Pushed(s) else []
  }

  lemma EventIsGenuine(s: Stream, ev: Event)
    requires Inv(s) && Expected(s, ev) && !ev.HeadersEvent? && !s.flow.gotTrailers
    ensures GenuineSince(Content(s.flow.mode, s.flow.body + BytesOf(ev), ev.TrailersEvent?),
                         s.thread.history + PushedBy(s, ev), Deliver(s, ev).0.thread.history)
    ensures s.state.Exited? ==> Deliver(s, ev).0.thread == s.thread
  {
    hide HandleBody, HandleTrailers, GenuineSince, Inv, Ranked, WellAnswered;
    WithEmpty(s.thread.history);
    if s.state.Exited? {
      ExitedStays(s, ev);
    }
    match ev
    case BodyEvent(chunk, end) =>
      BufferChanges(s, chunk);
      BufferKeepsInv(s, Show(s, chunk));
      HandleBodyIsGenuine(Show(s, chunk), |s.flow.body + chunk|, end);
    case TrailersEvent =>
      WithEmpty(s.flow.body);
      if s.state.Yielded? {
        HandleTrailersIsGenuine(s);
      } else {
        NothingAdded(ContentOf(s.flow).(trailers := true), s.thread.history);
      }
  }

  lemma ExitedStays(s: Stream, ev: Event)
    requires Inv(s) && s.state.Exited? && !ev.HeadersEvent?
    ensures Deliver(s, ev).0.thread == s.thread && Pushed(s) == []
  {
  }

  lemma HeadersEventIsGenuine(mode: Mode, script: Script, end: bool)
    requires Ranked(script, mode) && !FailsOnEntry(script)
    ensures Inv(New(mode, script))
    ensures GenuineSince(Content(mode, [], false),
                         if script.next([]) == Call(Headers) then [HeaderMap(mode, false)] else [],
                         Deliver(New(mode, script), HeadersEvent(end)).0.thread.history)
  {
    hide Start, HandleHeaders, GenuineSince, Inv;
    var s := New(mode, script);
    NewIsInOrder(mode, script);
    StartKeepsInv(s);
    StartFails(mode, script);
    WaitingIsYielded(Start(s).0);
    HandleHeadersPushes(Start(s).0, end);
  }

  lemma WaitingIsYielded(s: Stream)
    requires Inv(s)
    ensures s.reason.WaitForHeaders? ==> s.state.Yielded?
  {
  }

  // ---- Whole runs ----

  // What the proxy holds while event i is handled: the chunks since it last sent
  // everything on, and the one that comes with the event.
  function Held(evs: seq<Event>, replies: seq<Reply>, i: nat): seq<byte>
    requires i < |evs| <= |replies|
  {
    HeldBefore(evs, replies, i) + BytesOf(evs[i])
  }

  function HeldBefore(evs: seq<Event>, replies: seq<Reply>, i: nat): seq<byte>
    requires i < |evs| <= |replies|
  {
    if i == 0 || replies[i - 1].status.Continue? then []
    else HeldBefore(evs, replies, i - 1) + BytesOf(evs[i - 1])
  }

  lemma {:induction false} BufferIsHeld(mode: Mode, script: Script, evs: seq<Event>, i: nat)
    requires Ranked(script, mode) && WellOrdered(evs) && !FailsOnEntry(script) && i < |evs|
    ensures |FreshRun(mode, script, evs).1| == |evs|
    ensures After(mode, script, evs, i).flow.body == HeldBefore(evs, FreshRun(mode, script, evs).1, i)
  {
    hide Deliver, Inv, FreshRun, Start;
    FreshRunAt(mode, script, evs, i);
    if i > 0 {
      BufferIsHeld(mode, script, evs, i - 1);
      FreshRunAt(mode, script, evs, i - 1);
      FlagsTellTheEvents(mode, script, evs, i - 1);
      DeliverFollows(After(mode, script, evs, i - 1), evs[i - 1]);
      WellOrderedAt(evs, i - 1);
      WithEmpty(After(mode, script, evs, i - 1).flow.body);
    }
  }

  // A script that fails on entry is never answered.
  lemma {:induction false} FailedScriptHearsNothing(mode: Mode, script: Script, evs: seq<Event>, i: nat)
    requires Ranked(script, mode) && WellOrdered(evs) && FailsOnEntry(script) && i <= |evs|
    ensures HistoryAfter(mode, script, evs, i) == []
    ensures 0 < i < |evs| ==> FailedToStart(After(mode, script, evs, i)) && !After(mode, script, evs, i).flow.ended
  {
    hide Deliver, Inv, FreshRun, Start, FailedToStart;
    FreshRunAt(mode, script, evs, if i == 0 then 0 else i - 1);
    if i > 0 {
      var s := After(mode, script, evs, i - 1);
      FailedScriptHearsNothing(mode, script, evs, i - 1);
      WellOrderedAt(evs, i - 1);
      if i == 1 {
        FailedEntry(mode, script, evs[0].end);
      } else {
        DeliverAfterFailedStart(s, evs[i - 1]);
        if i < |evs| {
          WellOrderedAt(evs, i);
        }
      }
    }
  }

  lemma FailedEntry(mode: Mode, script: Script, end: bool)
    requires Ranked(script, mode) && FailsOnEntry(script)
    ensures Inv(New(mode, script))
    ensures var r := Deliver(New(mode, script), HeadersEvent(end)).0;
            FailedToStart(r) && r.thread.history == [] && !r.flow.ended
  {
    hide Start, Inv;
    NewIsInOrder(mode, script);
    StartKeepsInv(New(mode, script));
    StartFails(mode, script);
  }

  // v is answer k of the script. pushed: the event found the call pending. trailers: it
  // is the trailers event.
  predicate Holds(mode: Mode, v: Value, held: seq<byte>, k: nat, pushed: bool, trailers: bool) {
    match v
    case HeaderMap(m, guarded) => m == mode && (guarded <==> k > 0)
    case TrailerMap(m, guarded) => m == mode && (guarded <==> trailers && !pushed)
    case Buffer(m, bytes) => m == mode && bytes == held
    case Nil => true
  }

  // Over a whole run of any script: every buffer that is handed out while an event is
  // handled holds exactly the bytes that the proxy holds at that event; a headers map
  // lacks the guard exactly if it is the script's first answer, and a trailers map
  // exactly if it is not one the script asked for during the trailers event.
  lemma {:induction false} AnswersHoldWhatThereIs(mode: Mode, script: Script, evs: seq<Event>, i: nat)
    requires Ranked(script, mode) && WellOrdered(evs) && i < |evs|
    ensures |FreshRun(mode, script, evs).1| == |evs|
    ensures var h0, h := HistoryAfter(mode, script, evs, i), HistoryAfter(mode, script, evs, i + 1);
            && h0 <= h
            && (script.defined && script.next([]) == Call(Headers) ==> h != [])
            && forall k | |h0| <= k < |h| ::
                 Holds(mode, h[k], Held(evs, FreshRun(mode, script, evs).1, i), k, k == |h0|, evs[i].TrailersEvent?)
  {
    hide Deliver, Inv, FreshRun, Start, Ranked;
    FreshRunAt(mode, script, evs, i);
    if FailsOnEntry(script) {
      FailedScriptHearsNothing(mode, script, evs, i);
      FailedScriptHearsNothing(mode, script, evs, i + 1);
    } else {
      var s, h := After(mode, script, evs, i), HistoryAfter(mode, script, evs, i + 1);
      BufferIsHeld(mode, script, evs, i);
      FlagsTellTheEvents(mode, script, evs, i);
      WellOrderedAt(evs, i);
      FirstAnswerFits(After(mode, script, evs, i + 1), mode, script);
      if i == 0 {
        HeadersEventIsGenuine(mode, script, evs[0].end);
      } else {
        AnswersHoldWhatThereIs(mode, script, evs, i - 1);
        FlagsTellTheEvents(mode, script, evs, i - 1);
        EventIsGenuine(s, evs[i]);
        PushedIsNext(s, evs[i], h);
        PendingIsFirst(s, After(mode, script, evs, i + 1));
      }
    }
  }

  lemma PushedIsNext(s: Stream, ev: Event, h: seq<Value>)
    requires s.thread.history + PushedBy(s, ev) <= h
    ensures s.thread.history <= h
    ensures PushedBy(s, ev) != [] ==> h[|s.thread.history|] == TrailerMap(s.flow.mode, false)
  {
    assert PushedBy(s, ev) != [] ==> (s.thread.history + PushedBy(s, ev))[|s.thread.history|] == PushedBy(s, ev)[0];
  }

  // The first answer of an event is that of the call it found pending.
  lemma PendingIsFirst(s: Stream, r: Stream)
    requires Inv(s) && Started(s) && Inv(r) && r.flow.script == s.flow.script && r.flow.mode == s.flow.mode
    requires s.thread.history <= r.thread.history && (s.state.Exited? ==> r.thread == s.thread)
    ensures var h0, h := s.thread.history, r.thread.history;
            |h0| < |h| && h[|h0|].TrailerMap? ==> s.reason.WaitForTrailers?
  {
    var h0, h := s.thread.history, r.thread.history;
    if |h0| < |h| {
      WellAnsweredAt(s.flow.script, s.flow.mode, h, |h0|);
      assert h[..|h0|] == h0;
    }
  }

  lemma FirstAnswerFits(s: Stream, mode: Mode, script: Script)
    requires Inv(s) && s.flow.script == script && s.flow.mode == mode
    ensures s.thread.history != [] && s.thread.history[0].HeaderMap? ==> script.next([]) == Call(Headers)
  {
    if s.thread.history != [] {
      WellAnsweredAt(script, mode, s.thread.history, 0);
      assert s.thread.history[..0] == [];
    }
  }

  // Every answer was given by some event.
  lemma {:induction false} EventOfAnswer(mode: Mode, script: Script, evs: seq<Event>, n: nat, k: nat) returns (i: nat)
    requires Ranked(script, mode) && WellOrdered(evs) && n <= |evs|
    requires k < |HistoryAfter(mode, script, evs, n)|
    ensures i < n && |HistoryAfter(mode, script, evs, i)| <= k < |HistoryAfter(mode, script, evs, i + 1)|
    ensures HistoryAfter(mode, script, evs, i + 1)[k] == HistoryAfter(mode, script, evs, n)[k]
  {
    hide FreshRun, Ranked;
    NothingAtFirst(mode, script, evs);
    if |HistoryAfter(mode, script, evs, n - 1)| <= k {
      i := n - 1;
    } else {
      AnswersHoldWhatThereIs(mode, script, evs, n - 1);
      i := EventOfAnswer(mode, script, evs, n - 1, k);
    }
  }

  lemma NothingAtFirst(mode: Mode, script: Script, evs: seq<Event>)
    requires Ranked(script, mode)
    ensures HistoryAfter(mode, script, evs, 0) == []
  {
    assert evs[..0] == [];
  }

  // So over a whole run a headers map lacks the guard exactly if it answers the first
  // call of the script, which asked before the event that brings the headers was handled.
  lemma FirstHeadersLackTheGuard(mode: Mode, script: Script, evs: seq<Event>, k: nat)
    requires Ranked(script, mode) && WellOrdered(evs)
    requires k < |FreshRun(mode, script, evs).0.thread.history|
    ensures var v := FreshRun(mode, script, evs).0.thread.history[k];
            v.HeaderMap? && !v.guarded <==> k == 0 && script.next([]) == Call(Headers)
  {
    hide FreshRun, Ranked, Held;
    assert evs[..|evs|] == evs;
    var i := EventOfAnswer(mode, script, evs, |evs|, k);
    AnswersHoldWhatThereIs(mode, script, evs, i);
    AnswersFitAndAreTimely(mode, script, evs, k);
    assert FreshRun(mode, script, evs).0.thread.history[..0] == [];
  }
}
