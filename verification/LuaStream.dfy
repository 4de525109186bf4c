// The state of one stream coroutine as a value, and what each operation of the
// driver computes on it. LuaCoroutine.dfy has the same operations as methods that
// update objects in place and proves them equal to these functions.
module LuaStream {
  import opened LuaScript
  import opened Wrappers

  datatype ExecutionState = Exited | Yielded

  datatype YieldReason =
    | NoReason
    | WaitForHeaders
    | WaitForBody
    | WaitForBodyChunks
    | WaitForTrailers
    | WaitForHttp
    | WaitToStart
    | Responded

  datatype Failure =
    | ScriptError
    | EntryPointMissing
    | AlreadyStarted
    | ResumeExited
    | DeadThread
    | YieldedThread
    | ThreadRunning
    | NotEnoughArguments
    | BodyAfterEnd
    | TrailersAfterEnd
    | TrailersBeforeHeaders
    | TrailersTwice
    | NoCoroutine

  datatype Outcome = Ok(state: ExecutionState) | Error(failure: Failure)

  // What lua_resume reports.
  datatype ReturnCode = Done | Suspended(accessor: Accessor) | Raised

  // What the host has put on the thread's stack and the thread has not taken yet.
  datatype Slot = EntrySlot | HandleSlot | ValueSlot(value: Value)

  datatype Thread = Thread(
    finished: bool, running: bool, yielded: bool, stack: seq<Slot>, history: seq<Value>)

  // What has arrived on the stream so far. body is the proxy's body buffer, which
  // the Buffer handles read.
  datatype Flow = Flow(
    mode: Mode, script: Script, passedOn: bool, gotHeaders: bool, gotBody: bool,
    hasBodyData: bool, chunkConsumed: bool, gotTrailers: bool, ended: bool, body: seq<byte>)

  datatype Stream = Stream(flow: Flow, state: ExecutionState, reason: YieldReason, thread: Thread)

  function New(mode: Mode, script: Script): Stream {
    Stream(Flow(mode, script, false, false, false, false, false, false, false, []),
           Yielded, WaitToStart, Thread(false, false, false, [], []))
  }

  function WaitReason(a: Accessor): YieldReason {
    match a
    case Headers => WaitForHeaders
    case Body => WaitForBody
    case Trailers => WaitForTrailers
    case BodyChunks => WaitForBodyChunks
  }

  // The answer an accessor gives without suspending the script, if it has one.
  function Immediate(f: Flow, a: Accessor): Option<Value> {
    match a
    case Headers => if f.gotHeaders then Some(HeaderMap(f.mode, true)) else None
    case Body => if f.gotBody then Some(Buffer(f.mode, f.body)) else None
    case Trailers => if f.gotTrailers then Some(TrailerMap(f.mode, true)) else None
    case BodyChunks => None
  }

  function Yield(s: Stream, reason: YieldReason): Stream {
    s.(state := Yielded, reason := reason, thread := s.thread.(yielded := true))
  }

  // Lua code runs until it returns, raises an error, or an accessor suspends it. The
  // result is the history at that point.
  function RunScript(f: Flow, h: seq<Value>): (seq<Value>, ReturnCode)
    requires Ranked(f.script, f.mode)
    decreases f.script.rank(h)
  {
    match f.script.next(h)
    case Return => (h, Done)
    case Raise => (h, Raised)
    case Call(a) =>
      match Immediate(f, a)
      case None => (h, Suspended(a))
      case Some(v) =>
        assert UsesRank(f.script, f.mode, h, v);
        RunScript(f, h + [v])
  }

  function Values(slots: seq<Slot>): seq<Value> {
    if slots == [] then []
    else (if slots[0].ValueSlot? then [slots[0].value] else []) + Values(slots[1..])
  }

  // lua_resume: the top n slots become the results of the suspended call.
  function LuaResume(s: Stream, n: nat): (Stream, ReturnCode)
    requires Ranked(s.flow.script, s.flow.mode)
    requires n <= |s.thread.stack|
  {
    var args := s.thread.stack[|s.thread.stack| - n..];
    var (h, rc) := RunScript(s.flow, s.thread.history + Values(args));
    var r := s.(thread := s.thread.(stack := [], yielded := false, history := h));
    match rc
    case Suspended(a) => (Yield(r, WaitReason(a)), rc)
    case _ => (r, rc)
  }

  function ThreadResume(s: Stream, n: nat): (Stream, Outcome)
    requires Ranked(s.flow.script, s.flow.mode)
  {
    var t := s.thread;
    if t.finished then (s, Error(DeadThread))
    else if n > |t.stack| then (s, Error(NotEnoughArguments))
    else if !t.yielded && n == |t.stack| then (s, Error(NotEnoughArguments))
    else if t.running then (s, Error(ThreadRunning))
    else
      var (r, rc) := LuaResume(s.(thread := t.(running := true)), n);
      match rc
      case Done => (r.(thread := r.thread.(running := false, finished := true)), Ok(Exited))
      case Suspended(_) => (r.(thread := r.thread.(running := false)), Ok(Yielded))
      case Raised => (r.(thread := r.thread.(running := false, finished := true)), Error(ScriptError))
  }

  function ExecuteFunction(s: Stream): (Stream, Outcome)
    requires Ranked(s.flow.script, s.flow.mode)
  {
    if s.thread.finished then (s, Error(DeadThread))
    else if s.thread.yielded then (s, Error(YieldedThread))
    else if !s.flow.script.defined then (s, Error(EntryPointMissing))
    else ThreadResume(s.(thread := s.thread.(stack := s.thread.stack + [EntrySlot, HandleSlot])), 1)
  }

  function Resume(s: Stream, n: nat): (Stream, Outcome)
    requires Ranked(s.flow.script, s.flow.mode)
  {
    if s.state.Exited? then (s, Error(ResumeExited))
    else
      var (r, out) := ThreadResume(s.(reason := NoReason), n);
      match out
      case Error(f) => (r.(state := Exited), out)
      case Ok(st) => (r.(state := st), out)
  }

  function Push(s: Stream, v: Value): Stream {
    s.(thread := s.thread.(stack := s.thread.stack + [ValueSlot(v)]))
  }

  // Push a value and resume with it.
  function Answer(s: Stream, v: Value): (Stream, Outcome)
    requires Ranked(s.flow.script, s.flow.mode)
  {
    Resume(Push(s, v), 1)
  }

  // A chunk has arrived that no body accessor has been answered with.
  predicate ChunkPending(f: Flow) {
    f.hasBodyData && !f.chunkConsumed
  }

  // The script is suspended in the accessor that the yield reason names.
  predicate Parked(s: Stream) {
    && s.flow.script.next(s.thread.history).Call?
    && s.reason == WaitReason(s.flow.script.next(s.thread.history).accessor)
  }

  // The coroutine's own bookkeeping agrees with the Lua thread's.
  ghost predicate Consistent(s: Stream) {
    && Ranked(s.flow.script, s.flow.mode)
    && WellAnswered(s.flow.script, s.flow.mode, s.thread.history)
    && !s.thread.running
    && s.thread.stack == []
    && match s.state
       case Yielded =>
         && !s.thread.finished
         && if s.reason.WaitToStart? then !s.thread.yielded && s.thread.history == []
            else s.thread.yielded && Parked(s)
       case Exited =>
         && (s.reason.NoReason? || s.reason.WaitToStart?)
         && !s.thread.yielded
  }

  // Consistent, and not left waiting for headers that have arrived.
  ghost predicate Inv(s: Stream) {
    Consistent(s) && (s.flow.gotHeaders ==> !s.reason.WaitForHeaders?)
  }

  // h continues h0 with answers that were given without suspending.
  predicate Prompt(f: Flow, h0: seq<Value>, h: seq<Value>) {
    h == h0 ||
    (|h0| < |h| && Prompt(f, h0, Front(h)) &&
     f.script.next(Front(h)).Call? &&
     Immediate(f, f.script.next(Front(h)).accessor) == Some(Latest(h)))
  }

  // r is s after the script ran on from history h0 until it ended or parked again.
  ghost predicate RanOn(s: Stream, h0: seq<Value>, r: Stream, out: Outcome) {
    var h := r.thread.history;
    var f := s.flow;
    && r.flow == f
    && Ranked(f.script, f.mode)
    && h == RunScript(f, h0).0
    && f.script.rank(h) <= f.script.rank(h0)
    && WellAnswered(f.script, f.mode, h)
    && Prompt(f, h0, h)
    && match out
       case Ok(Yielded) =>
         && r.state == Yielded && Parked(r)
         && Immediate(f, f.script.next(h).accessor).None?
         && r.thread == Thread(false, false, true, [], h)
       case Ok(Exited) =>
         && r.state == Exited && f.script.next(h).Return?
         && r.thread == Thread(true, false, false, [], h)
       case Error(e) =>
         && e.ScriptError? && r.state == Exited && f.script.next(h).Raise?
         && r.thread == Thread(true, false, false, [], h)
  }

  lemma {:induction false} PromptFirst(f: Flow, h0: seq<Value>, v: Value, h: seq<Value>)
    requires f.script.next(h0).Call? && Immediate(f, f.script.next(h0).accessor) == Some(v)
    requires Prompt(f, h0 + [v], h)
    ensures Prompt(f, h0, h)
  {
    Snoc(h0, v);
    if h != h0 + [v] {
      PromptFirst(f, h0, v, Front(h));
    }
  }

  lemma {:induction false} RunScriptRunsOn(f: Flow, h0: seq<Value>)
    requires Ranked(f.script, f.mode)
    requires WellAnswered(f.script, f.mode, h0)
    ensures
      var (h, rc) := RunScript(f, h0);
      && f.script.rank(h) <= f.script.rank(h0)
      && WellAnswered(f.script, f.mode, h)
      && Prompt(f, h0, h)
      && match rc
         case Suspended(a) => f.script.next(h) == Call(a) && Immediate(f, a).None?
         case Done => f.script.next(h).Return?
         case Raised => f.script.next(h).Raise?
    decreases f.script.rank(h0)
  {
    if f.script.next(h0).Call? {
      var a := f.script.next(h0).accessor;
      if Immediate(f, a).Some? {
        var v := Immediate(f, a).value;
        assert UsesRank(f.script, f.mode, h0, v);
        Snoc(h0, v);
        RunScriptRunsOn(f, h0 + [v]);
        PromptFirst(f, h0, v, RunScript(f, h0 + [v]).0);
      }
    }
  }

  // A coroutine that ran on is consistent again, and waits for headers only if they
  // have not arrived.
  lemma RanOnConsistent(s: Stream, h0: seq<Value>, r: Stream, out: Outcome)
    requires Ranked(s.flow.script, s.flow.mode)
    requires RanOn(s, h0, r, out)
    requires r.state.Exited? ==> r.reason.NoReason? || r.reason.WaitToStart?
    ensures Inv(r)
    ensures out.Ok? ==> out.state == r.state
  {
  }

  lemma AnswerRunsOn(s: Stream, v: Value)
    requires Consistent(s) && s.state.Yielded? && !s.reason.WaitToStart?
    requires Answers(s.flow.script.next(s.thread.history).accessor, s.flow.mode, v)
    ensures var (r, out) := Answer(s, v);
            RanOn(s, s.thread.history + [v], r, out) && Inv(r) && (r.state.Exited? ==> r.reason.NoReason?)
  {
    var h := s.thread.history;
    Snoc(h, v);
    RunScriptRunsOn(s.flow, h + [v]);
    var p := Push(s, v);
    assert p.thread.stack == [ValueSlot(v)] && p.thread.stack[0..] == [ValueSlot(v)];
    assert Values([ValueSlot(v)]) == [v] + Values([ValueSlot(v)][1..]) == [v];
    var (r, rc) := LuaResume(p.(reason := NoReason, thread := p.thread.(running := true)), 1);
    assert r.thread.history == RunScript(s.flow, h + [v]).0;
    var (q, out) := Answer(s, v);
    assert RanOn(s, h + [v], q, out);
    RanOnConsistent(s, h + [v], q, out);
  }

  lemma ExecuteRunsOn(s: Stream)
    requires Consistent(s) && s.state.Yielded? && s.reason.WaitToStart? && s.flow.script.defined
    ensures var (r, out) := ExecuteFunction(s);
            var st := if out.Ok? then out.state else Exited;
            RanOn(s, [], r.(state := st), out) && Inv(r.(state := st)) && (st.Exited? ==> r.reason.WaitToStart?)
  {
    RunScriptRunsOn(s.flow, []);
    var p := s.thread.(stack := s.thread.stack + [EntrySlot, HandleSlot]);
    assert p.stack == [EntrySlot, HandleSlot] && p.stack[1..] == [HandleSlot];
    assert Values([HandleSlot]) == [] + Values([]);
    var (r, rc) := LuaResume(s.(thread := p.(running := true)), 1);
    assert r.thread.history == RunScript(s.flow, []).0;
    var (q, out) := ExecuteFunction(s);
    var st := if out.Ok? then out.state else Exited;
    assert RanOn(s, [], q.(state := st), out);
    RanOnConsistent(s, [], q.(state := st), out);
  }
}
