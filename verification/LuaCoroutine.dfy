// The driver as the program has it: a thread and a coroutine whose methods update
// their fields. Every method computes the function of the same name on View().
module LuaCoroutine {
  import opened LuaDriver
  import opened LuaScript
  import opened LuaStream
  import opened Wrappers

  class LuaThread {
    const script: Script
    var finished: bool
    var running: bool
    var yielded: bool
    var stack: seq<Slot>
    var history: seq<Value>

    constructor (script: Script)
      ensures this.script == script
      ensures View() == Thread(false, false, false, [], [])
    {
      this.script := script;
      finished, running, yielded := false, false, false;
      stack, history := [], [];
    }

    function View(): Thread
      reads this
    {
      Thread(finished, running, yielded, stack, history)
    }

    // lua_resume, with the accessors called back on the coroutine.
    method LuaResume(n: nat, co: LuaStreamCoroutine) returns (rc: ReturnCode)
      requires co.thread == this && Ranked(script, co.mode)
      requires n <= |stack|
      modifies this, co
      ensures (co.View(), rc) == LuaStream.LuaResume(old(co.View()), n)
    {
      ghost var h0 := history + Values(stack[|stack| - n..]);
      history := history + Values(stack[|stack| - n..]);
      stack, yielded := [], false;
      var action := script.next(history);
      while action.Call?
        invariant action == script.next(history)
        invariant RunScript(co.View().flow, history) == RunScript(old(co.View()).flow, h0)
        invariant co.View() == old(co.View()).(thread := Thread(finished, running, false, [], history))
        invariant finished == old(finished) && running == old(running)
        decreases script.rank(history)
      {
        var answer := co.Call(action.accessor);
        if answer.None? {
          rc := Suspended(action.accessor);
          return;
        }
        assert UsesRank(script, co.mode, history, answer.value);
        history := history + [answer.value];
        action := script.next(history);
      }
      rc := if action.Return? then Done else Raised;
    }

    method Resume(n: nat, co: LuaStreamCoroutine) returns (out: Outcome)
      requires co.thread == this && Ranked(script, co.mode)
      modifies this, co
      ensures (co.View(), out) == ThreadResume(old(co.View()), n)
    {
      if finished {
        return Error(DeadThread);
      }
      if n > |stack| {
        return Error(NotEnoughArguments);
      }
      if !yielded && n == |stack| {
        return Error(NotEnoughArguments);
      }
      if running {
        return Error(ThreadRunning);
      }
      running := true;
      var rc := LuaResume(n, co);
      running := false;
      match rc {
        case Done =>
          finished := true;
          out := Ok(Exited);
        case Suspended(_) =>
          out := Ok(Yielded);
        case Raised =>
          finished := true;
          out := Error(ScriptError);
      }
    }

    method ExecuteFunction(co: LuaStreamCoroutine) returns (out: Outcome)
      requires co.thread == this && Ranked(script, co.mode)
      modifies this, co
      ensures (co.View(), out) == LuaStream.ExecuteFunction(old(co.View()))
    {
      if finished {
        return Error(DeadThread);
      }
      if yielded {
        return Error(YieldedThread);
      }
      if !script.defined {
        return Error(EntryPointMissing);
      }
      stack := stack + [EntrySlot, HandleSlot];
      out := Resume(1, co);
    }
  }

  class LuaStreamCoroutine {
    const mode: Mode
    const thread: LuaThread
    var state: ExecutionState
    var reason: YieldReason
    var passedOn: bool
    var gotHeaders: bool
    var gotBody: bool
    var hasBodyData: bool
    var chunkConsumed: bool
    var gotTrailers: bool
    var ended: bool
    // The proxy's body buffer, which the filter only reads.
    var body: seq<byte>

    constructor (mode: Mode, thread: LuaThread)
      requires thread.View() == Thread(false, false, false, [], [])
      ensures this.mode == mode && this.thread == thread
      ensures View() == New(mode, thread.script)
    {
      this.mode, this.thread := mode, thread;
      state, reason := Yielded, WaitToStart;
      passedOn, gotHeaders, gotBody, hasBodyData := false, false, false, false;
      chunkConsumed, gotTrailers, ended := false, false, false;
      body := [];
    }

    function View(): Stream
      reads this, thread
    {
      Stream(Flow(mode, thread.script, passedOn, gotHeaders, gotBody, hasBodyData,
                  chunkConsumed, gotTrailers, ended, body),
             state, reason, thread.View())
    }

    // An accessor, called from Lua: an answer, or a suspension.
    method Call(a: Accessor) returns (answer: Option<Value>)
      modifies this, thread
      ensures answer == Immediate(old(View()).flow, a)
      ensures View() == if answer.Some? then old(View()) else LuaStream.Yield(old(View()), WaitReason(a))
    {
      match a {
        case Headers =>
          if gotHeaders {
            return Some(HeaderMap(mode, true));
          }
          Yield(WaitForHeaders);
        case Body =>
          if gotBody {
            return Some(Buffer(mode, body));
          }
          Yield(WaitForBody);
        case Trailers =>
          if gotTrailers {
            return Some(TrailerMap(mode, true));
          }
          Yield(WaitForTrailers);
        case BodyChunks =>
          Yield(WaitForBodyChunks);
      }
      answer := None;
    }

    method Yield(why: YieldReason)
      modifies this, thread
      ensures View() == LuaStream.Yield(old(View()), why)
    {
      state, reason := Yielded, why;
      thread.yielded := true;
    }

    method Resume(n: nat) returns (out: Outcome)
      requires Ranked(thread.script, mode)
      modifies this, thread
      ensures (View(), out) == LuaStream.Resume(old(View()), n)
    {
      if state == Exited {
        return Error(ResumeExited);
      }
      reason := NoReason;
      out := thread.Resume(n, this);
      match out {
        case Error(_) => state := Exited;
        case Ok(st) => state := st;
      }
    }

    method PushAndResume(v: Value) returns (out: Outcome)
      requires Ranked(thread.script, mode)
      modifies this, thread
      ensures (View(), out) == Answer(old(View()), v)
    {
      thread.stack := thread.stack + [ValueSlot(v)];
      out := Resume(1);
    }

    // One turn of the loop below.
    method Turn() returns (out: Outcome)
      requires Consistent(View()) && state == Yielded && DataWait(reason)
      modifies this, thread
      ensures (View(), out) == LuaDriver.Turn(old(View()))
    {
      if reason == WaitForBodyChunks {
        if !chunkConsumed && hasBodyData {
          var chunk := Buffer(mode, body);
          chunkConsumed := true;
          out := PushAndResume(chunk);
        } else {
          out := PushAndResume(Nil);
        }
      } else if reason == WaitForBody {
        out := PushAndResume(Buffer(mode, body));
      } else {
        out := PushAndResume(TrailerMap(mode, false));
      }
    }

    method RunToCompletion() returns (out: Outcome)
      requires Consistent(View())
      modifies this, thread
      ensures (View(), out) == LuaDriver.RunToCompletion(old(View()))
    {
      hide LuaDriver.Turn, RanOn;
      while state != Exited && DataWait(reason)
        invariant Consistent(View())
        invariant LuaDriver.RunToCompletion(View()) == LuaDriver.RunToCompletion(old(View()))
        decreases if ChunkPending(View().flow) then 1 else 0, thread.script.rank(thread.history)
      {
        TurnRunsOn(View());
        out := Turn();
        if out.Error? {
          return;
        }
      }
      out := Ok(state);
    }

    method Start() returns (out: Outcome)
      requires Inv(View())
      modifies this, thread
      ensures (View(), out) == LuaDriver.Start(old(View()))
    {
      if state != Yielded || reason != WaitToStart {
        return Error(AlreadyStarted);
      }
      StartRunsOn(View());
      out := thread.ExecuteFunction(this);
      if out.Error? {
        state := Exited;
        return;
      }
      state := out.state;
      if ended {
        out := RunToCompletion();
      }
    }

    method HandleHeaders(end: bool) returns (out: Outcome)
      requires Inv(View())
      modifies this, thread
      ensures (View(), out) == LuaDriver.HandleHeaders(old(View()), end)
    {
      ended, gotHeaders := end, true;
      ServeRunsOn(View(), WaitForHeaders, HeaderMap(mode, false));
      out := Ok(state);
      if reason == WaitForHeaders {
        out := PushAndResume(HeaderMap(mode, false));
        if out.Error? {
          return;
        }
      }
      if ended {
        out := RunToCompletion();
      } else {
        out := Ok(state);
      }
    }

    // The flags of a body event.
    method BodyArrived(length: nat, end: bool)
      modifies this
      ensures View() == old(View()).(flow := LuaDriver.BodyArrived(old(View()).flow, length, end))
    {
      ended := end;
      if length > 0 {
        hasBodyData, chunkConsumed := true, false;
      }
      if ended {
        gotBody := true;
      }
    }

    method HandleBody(length: nat, end: bool) returns (out: Outcome)
      requires Inv(View())
      modifies this, thread
      ensures (View(), out) == LuaDriver.HandleBody(old(View()), length, end)
    {
      hide Answer, RanOn, LuaDriver.RunToCompletion, LuaDriver.BodyArrived;
      if ended {
        return Error(BodyAfterEnd);
      }
      ArrivalFacts(View(), length, end);
      BodyArrived(length, end);
      if state == Exited {
        return Ok(state);
      }
      if reason == WaitForBodyChunks || (reason == WaitForBody && ended) {
        var buffer := Buffer(mode, body);
        chunkConsumed := true;
        ServeRunsOn(View(), reason, buffer);
        out := PushAndResume(buffer);
        if out.Error? {
          return;
        }
      }
      if ended {
        out := RunToCompletion();
      } else {
        out := Ok(state);
      }
    }

    method HandleTrailers() returns (out: Outcome)
      requires Inv(View())
      modifies this, thread
      ensures (View(), out) == LuaDriver.HandleTrailers(old(View()))
    {
      hide Answer, RanOn, LuaDriver.RunToCompletion, Ranked, WellAnswered;
      if ended {
        return Error(TrailersAfterEnd);
      }
      if !gotHeaders {
        return Error(TrailersBeforeHeaders);
      }
      if gotTrailers {
        return Error(TrailersTwice);
      }
      gotTrailers, ended := true, true;
      if state == Exited {
        return Ok(state);
      }
      out := ServeIfWaiting(WaitForBody, Buffer(mode, body));
      if out.Error? {
        return;
      }
      out := ServeIfWaiting(WaitForBodyChunks, Nil);
      if out.Error? {
        return;
      }
      out := ServeIfWaiting(WaitForTrailers, TrailerMap(mode, false));
      if out.Error? {
        return;
      }
      out := RunToCompletion();
    }

    method ServeIfWaiting(why: YieldReason, v: Value) returns (out: Outcome)
      requires Consistent(View()) && Fits(why, mode, v)
      modifies this, thread
      ensures (View(), out) == ServeIf(old(View()), why, v)
      ensures Consistent(View()) && View().flow == old(View()).flow
    {
      ServeRunsOn(View(), why, v);
      out := Ok(state);
      if reason == why {
        out := PushAndResume(v);
      }
    }
  }
}
