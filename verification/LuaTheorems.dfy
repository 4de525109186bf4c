// The main results about a script on one direction of an HTTP stream.
module LuaTheorems {
  import opened LuaDriver
  import opened LuaLedger
  import opened LuaRuns
  import opened LuaScript
  import opened LuaStream
  import opened Wrappers

  // ---- Completion ----

  // The script has exited, or it is suspended on a stream whose headers have come.
  predicate Live(s: Stream) {
    s.state.Exited? || (s.thread.yielded && s.flow.gotHeaders)
  }

  lemma DeliverAdvances(s: Stream, ev: Event)
    requires Inv(s)
    requires if ev.HeadersEvent? then !Started(s) else Live(s)
    ensures var (r, reply) := Deliver(s, ev);
            && Live(r)
            && (reply.outcome.Ok? && Ends(ev) ==> r.state.Exited?)
  {
    hide Start, HandleHeaders, HandleBody, HandleTrailers, SameFlags;
    DeliverKeepsInv(s, ev);
    match ev
    case HeadersEvent(end) =>
      StartKeepsInv(s);
      var (s1, started) := Start(s);
      if started.Ok? {
        HandleHeadersKeepsInv(s1, end);
        HandleHeadersEnds(s1, end);
      }
    case BodyEvent(chunk, end) =>
      var s0 := Show(s, chunk);
      HandleBodyKeepsInv(s0, |s.flow.body + chunk|, end);
      HandleBodyEnds(s0, |s.flow.body + chunk|, end);
    case TrailersEvent =>
      HandleTrailersKeepsInv(s);
      HandleTrailersEnds(s);
  }

  lemma HandleHeadersEnds(s: Stream, end: bool)
    requires Inv(s)
    ensures var r := HandleHeaders(s, end).0; r.flow.gotHeaders && r.flow.ended == end
  {
    HandleHeadersFlags(s, end);
  }

  lemma HandleBodyEnds(s: Stream, length: nat, end: bool)
    requires Inv(s)
    ensures var (r, out) := HandleBody(s, length, end);
            (out.Ok? ==> r.flow.ended == end) && r.flow.gotHeaders == s.flow.gotHeaders
  {
    if !s.flow.ended {
      HandleBodyFlags(s, length, end);
    }
  }

  lemma HandleTrailersEnds(s: Stream)
    requires Inv(s)
    ensures var (r, out) := HandleTrailers(s);
            (out.Ok? ==> r.flow.ended) && r.flow.gotHeaders == s.flow.gotHeaders
  {
    hide Answer, RunToCompletion;
    if !s.flow.ended && s.flow.gotHeaders && !s.flow.gotTrailers && s.state.Yielded? {
      var s0 := s.(flow := s.flow.(gotTrailers := true, ended := true));
      var p1 := ThenServeFacts(s, (s0, Ok(s0.state)), WaitForBody, BodyHandle(s0.flow));
      var p2 := ThenServeFacts(s, p1, WaitForBodyChunks, Nil);
      var p3 := ThenServeFacts(s, p2, WaitForTrailers, TrailerMap(s.flow.mode, false));
      RunToCompletionFacts(p3.0);
    }
  }

  predicate AllOk(replies: seq<Reply>) {
    forall reply | reply in replies :: reply.outcome.Ok?
  }

  // A complete run whose last event succeeds has run the script to its end; if every
  // event succeeds, the end is a return.
  lemma {:induction false} TailCompletes(s: Stream, evs: seq<Event>)
    requires Inv(s) && evs != [] && Complete(evs)
    requires if evs[0].HeadersEvent? then !Started(s) else Live(s)
    requires NoHeaders(evs[1..])
    ensures var (r, replies) := Run(s, evs);
            && |replies| == |evs|
            && (replies[|evs| - 1].outcome.Ok? ==> r.state.Exited?)
            && (AllOk(replies) && !s.state.Exited? ==> Returned(r))
            && (AllOk(replies) && s.state.Exited? && Returned(s) ==> Returned(r))
    decreases |evs|
  {
    hide Deliver, Inv;
    DeliverKeepsInv(s, evs[0]);
    DeliverAdvances(s, evs[0]);
    var (s1, reply) := Deliver(s, evs[0]);
    if |evs| == 1 {
      assert Run(s1, evs[1..]) == (s1, []);
    } else {
      TailCompletes(s1, evs[1..]);
      var replies := Run(s1, evs[1..]).1;
      assert ([reply] + replies)[1..] == replies;
      if AllOk([reply] + replies) {
        assert forall x | x in replies :: x in [reply] + replies;
        assert reply in [reply] + replies;
      }
    }
  }

  lemma RunCompletes(mode: Mode, script: Script, evs: seq<Event>)
    requires Ranked(script, mode) && WellOrdered(evs) && Complete(evs)
    ensures var (r, replies) := FreshRun(mode, script, evs);
            && |replies| == |evs|
            && (replies[|evs| - 1].outcome.Ok? ==> r.state.Exited?)
            && (AllOk(replies) ==> script.next(r.thread.history).Return?)
            && WellAnswered(script, mode, r.thread.history)
  {
    NewIsInOrder(mode, script);
    ContinuesWithoutHeaders(evs[1..], evs[0].end);
    TailCompletes(New(mode, script), evs);
    RunKeeps(New(mode, script), evs, 0, true);
  }

  // ---- What the chunk iterator hands out ----

  lemma ChunksNeverOverrun(mode: Mode, script: Script, evs: seq<Event>)
    requires Ranked(script, mode) && WellOrdered(evs)
    ensures var r := FreshRun(mode, script, evs).0;
            ChunksDelivered(script, r.thread.history) + Pending(r.flow) <= BodyEvents(evs)
  {
    NewIsInOrder(mode, script);
    ContinuesWithoutHeaders(evs[1..], evs[0].end);
    RunKeeps(New(mode, script), evs, 0, true);
  }

  // nil is the iterator's last word, unless trailers overtake a chunk.
  lemma NilIsFinal(mode: Mode, script: Script, evs: seq<Event>)
    requires Ranked(script, mode) && WellOrdered(evs)
    requires !OvertakenInRun(mode, script, evs)
    ensures NilIsLast(script, FreshRun(mode, script, evs).0.thread.history)
  {
    NewIsInOrder(mode, script);
    ContinuesWithoutHeaders(evs[1..], evs[0].end);
    RunKeeps(New(mode, script), evs, 0, true);
  }

  // ---- A script that fails on entry ----

  // There is no such function, or it raises an error before its first call.
  predicate FailsOnEntry(script: Script) {
    !script.defined || script.next([]).Raise?
  }

  function EntryFailure(script: Script): Failure {
    if script.defined then ScriptError else EntryPointMissing
  }

  function FreshStart(mode: Mode, script: Script): (Stream, Outcome)
    requires Ranked(script, mode)
  {
    NewIsInOrder(mode, script);
    Start(New(mode, script))
  }

  // On a new stream every accessor suspends the script, so that these are the scripts
  // that fail to start.
  lemma StartFails(mode: Mode, script: Script)
    requires Ranked(script, mode)
    ensures var (r, started) := FreshStart(mode, script);
            && (started.Error? <==> FailsOnEntry(script))
            && (started.Error? ==> started == Error(EntryFailure(script)))
            && r.thread.history == [] && r.flow == New(mode, script).flow
            && (r.state.Yielded? && r.reason.WaitForHeaders? <==>
                  script.defined && script.next([]) == Call(Headers))
  {
    hide RunScript;
    NewIsInOrder(mode, script);
    StartRunsOn(New(mode, script));
  }

  // An event failed and the client is told nothing.
  predicate Silent(reply: Reply) {
    reply.outcome.Error? && reply.localReply.None?
  }

  lemma SilentOnlyAtStart(s: Stream, ev: Event)
    requires Inv(s)
    ensures Silent(Deliver(s, ev).1) <==> ev.HeadersEvent? && Start(s).1.Error?
  {
    hide Start, HandleHeaders, HandleBody, HandleTrailers;
    if ev.HeadersEvent? {
      StartKeepsInv(s);
    }
  }

  lemma {:induction false} LaterFailuresAreTold(s: Stream, evs: seq<Event>)
    requires Inv(s) && NoHeaders(evs)
    ensures forall reply | reply in Run(s, evs).1 :: !Silent(reply)
    decreases |evs|
  {
    hide Deliver, Inv, Start, Silent;
    if evs != [] {
      DeliverKeepsInv(s, evs[0]);
      SilentOnlyAtStart(s, evs[0]);
      LaterFailuresAreTold(Deliver(s, evs[0]).0, evs[1..]);
    }
  }

  // Over a whole run, some failure goes without a local reply exactly if the script
  // fails on entry.
  lemma SilentFailure(mode: Mode, script: Script, evs: seq<Event>)
    requires Ranked(script, mode) && WellOrdered(evs)
    ensures (exists reply | reply in FreshRun(mode, script, evs).1 :: Silent(reply)) <==> FailsOnEntry(script)
  {
    hide Start, Deliver, Inv, Ledger, Silent;
    var s := New(mode, script);
    NewIsInOrder(mode, script);
    StartFails(mode, script);
    DeliverKeepsInv(s, evs[0]);
    SilentOnlyAtStart(s, evs[0]);
    ContinuesWithoutHeaders(evs[1..], evs[0].end);
    LaterFailuresAreTold(Deliver(s, evs[0]).0, evs[1..]);
    var first, rest := Deliver(s, evs[0]).1, Run(Deliver(s, evs[0]).0, evs[1..]).1;
    assert FreshRun(mode, script, evs).1 == [first] + rest;
    assert first in [first] + rest;
  }

  predicate FailedToStart(s: Stream) {
    s.state.Exited? && !s.flow.gotHeaders && !s.flow.gotTrailers
  }

  function ReplyAfterFailedStart(ev: Event): Reply {
    if ev.BodyEvent? then Reply(Continue, None, Ok(Exited))
    else Reply(StopIteration, Some(400), Error(TrailersBeforeHeaders))
  }

  lemma DeliverAfterFailedStart(s: Stream, ev: Event)
    requires Inv(s) && FailedToStart(s) && !s.flow.ended && !ev.HeadersEvent?
    ensures var (r, reply) := Deliver(s, ev);
            && reply == ReplyAfterFailedStart(ev)
            && r.thread == s.thread
            && (ev.BodyEvent? ==> FailedToStart(r) && r.flow.ended == ev.end)
  {
  }

  lemma {:induction false} RunAfterFailedStart(s: Stream, evs: seq<Event>)
    requires Inv(s) && FailedToStart(s) && Continues(evs, s.flow.ended)
    ensures |Run(s, evs).1| == |evs|
    ensures forall i | 0 <= i < |evs| :: Run(s, evs).1[i] == ReplyAfterFailedStart(evs[i])
    decreases |evs|
  {
    hide Deliver, Inv, FailedToStart;
    if evs != [] {
      DeliverKeepsInv(s, evs[0]);
      DeliverAfterFailedStart(s, evs[0]);
      if evs[0].BodyEvent? {
        RunAfterFailedStart(Deliver(s, evs[0]).0, evs[1..]);
      }
    }
  }

  // The headers event then stops the iteration without a reply, body events pass, and
  // trailers are refused, as the stream has not seen its headers.
  lemma FailedStart(mode: Mode, script: Script, evs: seq<Event>)
    requires Ranked(script, mode) && FailsOnEntry(script)
    requires evs != [] && evs[0].HeadersEvent? && Continues(evs[1..], false)
    ensures var replies := FreshRun(mode, script, evs).1;
            && |replies| == |evs|
            && replies[0] == Reply(StopIteration, None, Error(EntryFailure(script)))
            && forall i | 0 < i < |evs| :: replies[i] == ReplyAfterFailedStart(evs[i])
  {
    hide Start, Ledger, Inv;
    var s := New(mode, script);
    NewIsInOrder(mode, script);
    StartFails(mode, script);
    StartKeepsInv(s);
    DeliverKeepsInv(s, evs[0]);
    var s1 := Start(s).0;
    assert Deliver(s, evs[0]).0 == s1;
    assert FailedToStart(s1);
    RunAfterFailedStart(s1, evs[1..]);
    var rest := Run(s1, evs[1..]).1;
    forall i | 0 < i < |evs|
      ensures FreshRun(mode, script, evs).1[i] == rest[i - 1]
    {
    }
  }
}
